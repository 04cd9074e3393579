/** The per-address fixed-window rate limiter of the auth-and-limit middleware. */
module Limiter {

  type Ip = string

  /** Nanoseconds of the 60-second window, and the requests that one window admits. */
  const WINDOW: int := 60_000_000_000
  const BURST: int := 60

  /** What the table holds for an address: requests admitted in the window, and its deadline. */
  datatype Entry = Entry(count: int, deadline: int)

  /** A request and the three readings of the clock that handling it may take. */
  datatype Hit = Hit(ip: Ip, t1: int, t2: int, t3: int)

  // ---- one request

  function Opened(table: map<Ip, Entry>, h: Hit): Entry {
    var entry := if h.ip in table then table[h.ip] else Entry(0, h.t1 + WINDOW);
    if h.t2 > entry.deadline then Entry(0, h.t3 + WINDOW) else entry
  }

  function Admits(table: map<Ip, Entry>, h: Hit): bool {
    Opened(table, h).count < BURST
  }

  function Count(table: map<Ip, Entry>, h: Hit): map<Ip, Entry> {
    var entry := Opened(table, h);
    table[h.ip := if entry.count < BURST then entry.(count := entry.count + 1) else entry]
  }

  class RateLimiter {
    var table: map<Ip, Entry>

    constructor ()
      ensures table == map[]
    {
      table := map[];
    }

    method Admit(h: Hit) returns (ok: bool)
      modifies this
      ensures ok == Admits(old(table), h)
      ensures table == Count(old(table), h)
    {
      if h.ip !in table { table := table[h.ip := Entry(0, h.t1 + WINDOW)]; }
      if h.t2 > table[h.ip].deadline { table := table[h.ip := Entry(0, h.t3 + WINDOW)]; }
      if table[h.ip].count >= BURST { return false; }
      table := table[h.ip := table[h.ip].(count := table[h.ip].count + 1)];
      return true;
    }
  }

  // ---- runs

  /** The clock never runs backwards, within a request or between requests. */
  predicate Monotone(hits: seq<Hit>) {
    && (forall i :: 0 <= i < |hits| ==> hits[i].t1 <= hits[i].t2 <= hits[i].t3)
    && forall i, j :: 0 <= i < j < |hits| ==> hits[i].t3 <= hits[j].t1
  }

  /** How many of the hits from `ip` whose deadline check falls within [from, to] are admitted. */
  function Admitted(table: map<Ip, Entry>, hits: seq<Hit>, ip: Ip, from: int, to: int): int
    decreases |hits|
  {
    if hits == [] then 0
    else
      var h := hits[0];
      (if h.ip == ip && from <= h.t2 <= to && Admits(table, h) then 1 else 0)
      + Admitted(Count(table, h), hits[1..], ip, from, to)
  }

  /** Windows of the given length needed to cover a span of time, rounded up. */
  function Windows(span: int): (n: int)
    ensures span > 0 ==> (n - 1) * WINDOW < span <= n * WINDOW
    ensures span <= 0 ==> n == 0
  {
    if span <= 0 then 0 else (span + WINDOW - 1) / WINDOW
  }

  lemma WindowsMonotone(x: int, y: int)
    requires x <= y
    ensures Windows(x) <= Windows(y)
  {
  }

  lemma WindowsLess(x: int, y: int)
    requires x + WINDOW <= y && y > 0
    ensures Windows(x) + 1 <= Windows(y)
  {
    if x > 0 {
      assert (x + WINDOW + WINDOW - 1) / WINDOW == (x + WINDOW - 1) / WINDOW + 1;
      WindowsMonotone(x + WINDOW, y);
    }
  }

  /** What an address may still have admitted up to time `to`, given its entry: the rest of the current
      window, and a full burst for each window that can begin after its deadline. */
  function Budget(e: Entry, to: int): int {
    BURST - e.count + BURST * Windows(to - e.deadline)
  }

  /** Entries that the limiter builds. */
  predicate Sane(table: map<Ip, Entry>) {
    forall ip :: ip in table ==> 0 <= table[ip].count <= BURST
  }

  /** The most that [from, to] can admit: one window running at `from`, and those that start later. */
  function Limit(from: int, to: int): int {
    BURST * (Windows(to - from) + 1)
  }

  /** The budget counts down: a hit within the interval spends at most what the entry loses. */
  lemma SpendOne(table: map<Ip, Entry>, h: Hit, from: int, to: int)
    requires Sane(table) && h.t1 <= h.t2 <= h.t3 && from <= h.t2 <= to
    ensures var e := Count(table, h)[h.ip]; var one := if Admits(table, h) then 1 else 0;
            && e.deadline >= h.t2
            && one + Budget(e, to) <= Limit(from, to)
            && (h.ip in table ==> one + Budget(e, to) <= Budget(table[h.ip], to))
  {
    var e := Opened(table, h);
    WindowsMonotone(to - e.deadline, to - from);
    if h.ip in table && h.t2 > table[h.ip].deadline {
      WindowsLess(to - e.deadline, to - table[h.ip].deadline);
    }
  }

  /** Hits after the interval count for nothing. */
  lemma {:induction false} LateHits(table: map<Ip, Entry>, hits: seq<Hit>, ip: Ip, from: int, to: int)
    requires forall i :: 0 <= i < |hits| ==> hits[i].t2 > to
    ensures Admitted(table, hits, ip, from, to) == 0
    decreases |hits|
  {
    if hits != [] { LateHits(Count(table, hits[0]), hits[1..], ip, from, to); }
  }

  lemma {:induction false} BudgetBound(table: map<Ip, Entry>, hits: seq<Hit>, ip: Ip, from: int, to: int)
    requires Sane(table) && Monotone(hits)
    ensures ip in table && (hits != [] ==> from <= hits[0].t2) ==>
              Admitted(table, hits, ip, from, to) <= Budget(table[ip], to)
    ensures Admitted(table, hits, ip, from, to) <= Limit(from, to)
    decreases |hits|
  {
    if hits != [] {
      var h := hits[0];
      var next := Count(table, h);
      assert Monotone(hits[1..]);
      if |hits| > 1 { assert hits[0].t3 <= hits[1].t1; }
      if h.t2 > to {
        forall i | 0 <= i < |hits| ensures hits[i].t2 > to {
          if i > 0 { assert hits[0].t3 <= hits[i].t1; }
        }
        LateHits(table, hits, ip, from, to);
      } else {
        BudgetBound(next, hits[1..], ip, from, to);
        if h.ip == ip && from <= h.t2 { SpendOne(table, h, from, to); }
      }
    }
  }

  /** Over every run of the limiter from the start of the process, a closed interval of `length` > 0
      nanoseconds admits at most 60 * (n + 1) requests from one address, where n is that length in minutes,
      rounded up. */
  lemma IntervalLimit(hits: seq<Hit>, ip: Ip, from: int, length: int, n: int)
    requires Monotone(hits) && length > 0 && (n - 1) * 60_000_000_000 < length <= n * 60_000_000_000
    ensures Admitted(map[], hits, ip, from, from + length) <= 60 * (n + 1)
  {
    BudgetBound(map[], hits, ip, from, from + length);
    assert Windows(length) == n;
  }

  /** In particular at most 120 in any 60 seconds. */
  lemma MinuteLimit(hits: seq<Hit>, ip: Ip, from: int)
    requires Monotone(hits)
    ensures Admitted(map[], hits, ip, from, from + 60_000_000_000) <= 120
  {
    IntervalLimit(hits, ip, from, 60_000_000_000, 1);
  }

  // ---- the bound is attained

  /** `n` requests from one address at one instant. */
  function Volley(ip: Ip, t: int, n: nat): seq<Hit> {
    seq(n, i => Hit(ip, t, t, t))
  }

  lemma {:induction false} VolleyAdmitted(table: map<Ip, Entry>, ip: Ip, t: int, n: nat, rest: seq<Hit>,
                                          from: int, to: int)
    requires ip in table && t <= table[ip].deadline && 0 <= table[ip].count <= BURST - n && from <= t <= to
    ensures var after := table[ip := table[ip].(count := table[ip].count + n)];
            Admitted(table, Volley(ip, t, n) + rest, ip, from, to) == n + Admitted(after, rest, ip, from, to)
    decreases n
  {
    var hits := Volley(ip, t, n) + rest;
    if n == 0 {
      assert hits == rest;
      assert table[ip := table[ip].(count := table[ip].count + n)] == table;
    } else {
      var next := Count(table, hits[0]);
      assert hits[1..] == Volley(ip, t, n - 1) + rest;
      VolleyAdmitted(next, ip, t, n - 1, rest, from, to);
      var after := table[ip := table[ip].(count := table[ip].count + n)];
      assert next[ip := next[ip].(count := next[ip].count + (n - 1))] == after;
    }
  }

  /** A hit that opens a window one nanosecond before its own check, 59 more at the window's deadline,
      and 60 one nanosecond later. */
  function Burst(ip: Ip): seq<Hit> {
    [Hit(ip, 0, 1, 1)] + (Volley(ip, 60_000_000_000, 59) + Volley(ip, 60_000_000_001, 60))
  }

  /** MinuteLimit is attained: all 120 are admitted, within exactly 60 seconds. */
  lemma MinuteLimitAttained(ip: Ip)
    ensures Monotone(Burst(ip)) && Admitted(map[], Burst(ip), ip, 1, 60_000_000_001) == 120
  {
    var opening, late := Burst(ip)[0], Volley(ip, WINDOW + 1, 60);
    var table := Count(map[], opening);
    assert Burst(ip)[1..] == Volley(ip, WINDOW, 59) + late;
    VolleyAdmitted(table, ip, WINDOW, 59, late, 1, WINDOW + 1);
    var full := table[ip := table[ip].(count := table[ip].count + 59)];
    assert late[1..] == Volley(ip, WINDOW + 1, 59) + [];
    VolleyAdmitted(Count(full, late[0]), ip, WINDOW + 1, 59, [], 1, WINDOW + 1);
  }

  /** Of sixty requests at one instant and one more `t` nanoseconds later, the last is refused exactly until
      60 seconds have passed. */
  lemma WindowExact(ip: Ip, t: nat)
    ensures Admitted(map[], Volley(ip, 0, 60) + [Hit(ip, t, t, t)], ip, 0, t) == if t > 60_000_000_000 then 61 else 60
  {
    var hits, rest := Volley(ip, 0, 60) + [Hit(ip, t, t, t)], [Hit(ip, t, t, t)];
    var table := Count(map[], hits[0]);
    assert hits[1..] == Volley(ip, 0, 59) + rest;
    VolleyAdmitted(table, ip, 0, 59, rest, 0, t);
    assert rest[1..] == [];
  }

  // ---- addresses do not disturb each other

  function Only(hits: seq<Hit>, ip: Ip): seq<Hit> {
    if hits == [] then []
    else (if hits[0].ip == ip then [hits[0]] else []) + Only(hits[1..], ip)
  }

  /** The replies to the hits of one address, in order. */
  function Replies(table: map<Ip, Entry>, hits: seq<Hit>, ip: Ip): seq<bool>
    decreases |hits|
  {
    if hits == [] then []
    else (if hits[0].ip == ip then [Admits(table, hits[0])] else []) + Replies(Count(table, hits[0]), hits[1..], ip)
  }

  /** The tables agree on what they hold for `ip`. */
  predicate SameFor(x: map<Ip, Entry>, y: map<Ip, Entry>, ip: Ip) {
    (ip in x <==> ip in y) && (ip in x ==> x[ip] == y[ip])
  }

  /** Every reply to an address is the one it would have had if no other address had sent anything. */
  lemma {:induction false} AddressesIndependent(x: map<Ip, Entry>, y: map<Ip, Entry>, hits: seq<Hit>, ip: Ip)
    requires SameFor(x, y, ip)
    ensures Replies(x, hits, ip) == Replies(y, Only(hits, ip), ip)
    decreases |hits|
  {
    if hits != [] {
      var h := hits[0];
      if h.ip == ip {
        assert Only(hits, ip)[1..] == Only(hits[1..], ip);
        AddressesIndependent(Count(x, h), Count(y, h), hits[1..], ip);
      } else {
        assert Only(hits, ip) == Only(hits[1..], ip);
        AddressesIndependent(Count(x, h), y, hits[1..], ip);
      }
    }
  }
}
