/** The bound of module Interleaving is attained: the documented quotas are exceeded by exactly that
    much as soon as the pool has more than one connection. */
module Overshoot {
  import opened Prelude
  import opened Schema
  import opened Handlers
  import opened Invariant
  import opened Statements
  import opened QuotaRuns
  import opened Interleaving
  import opened Tables
  import opened Scenarios
  import opened Races

  // ---- all requests arm themselves, then all write

  ghost predicate AllReady(cfg: Config, db: Db, name: string, a: nat, digests: seq<string>, size: int) {
    && (forall i, j :: 0 <= i < j < |digests| ==> digests[i] != digests[j])
    && forall i :: 0 <= i < |digests| ==> Ready(cfg, db, name, a, digests[i], size)
  }

  /** Connection `c` holds an armed request for digest `c`. */
  ghost predicate ArmedAt(s: System, c: nat, name: string, a: nat, digests: seq<string>, size: int, count: int)
    requires c < |digests|
  {
    && c in s.frames && digests[c] in s.db.rows && s.db.rows[digests[c]].status == Pending
    && s.db.rows[digests[c]].idem.None?
    && s.frames[c] == Armed(JobFor(name, digests[c], size), a, s.db.rows[digests[c]], count)
  }

  ghost predicate ArmedFrom(s: System, from: nat, name: string, a: nat, digests: seq<string>, size: int, count: int) {
    forall c: nat :: from <= c < |digests| ==> ArmedAt(s, c, name, a, digests, size, count)
  }

  /** All requests read the same tables before any of them writes. */
  lemma {:induction false} ArmAll(cfg: Config, traffic: Traffic, s: System, from: nat, name: string, a: nat,
                                  digests: seq<string>,
                                  size: int) returns (t: System)
    requires s.frames == map[] && s.inits == map[] && from <= |digests| && AllReady(cfg, s.db, name, a, digests, size)
    ensures Reach(cfg, |digests|, traffic, s, t) && t.db == s.db && t.inits == map[]
    ensures forall c :: c in t.frames ==> from <= c < |digests|
    ensures ArmedFrom(t, from, name, a, digests, size, CountSeen(cfg, s.db, a))
    decreases |digests| - from
  {
    hide Reach, CountSeen, Quota, Admissible;
    if from == |digests| {
      t := s;
      ReachSelf(cfg, |digests|, traffic, s);
    } else {
      var u := ArmAll(cfg, traffic, s, from + 1, name, a, digests, size);
      assert from !in u.frames;
      ArmOne(cfg, |digests|, traffic, s, u, from, name, a, digests[from], size);
      var f := Armed(JobFor(name, digests[from], size), a, u.db.rows[digests[from]], CountSeen(cfg, s.db, a));
      t := u.(frames := u.frames[from := f]);
      forall c: nat | from < c < |digests| ensures ArmedAt(t, c, name, a, digests, size, CountSeen(cfg, s.db, a)) {
        assert ArmedAt(u, c, name, a, digests, size, CountSeen(cfg, s.db, a));
      }
    }
  }

  /** The write of one request leaves those of the others armed. */
  lemma OthersStayArmed(t: System, v: System, from: nat, name: string, a: nat, digests: seq<string>, size: int,
                        count: int)
    requires from < |digests| && ArmedFrom(t, from, name, a, digests, size, count)
    requires forall i, j :: 0 <= i < j < |digests| ==> digests[i] != digests[j]
    requires digests[from] in v.db.rows && v.db.rows == t.db.rows[digests[from] := v.db.rows[digests[from]]]
    requires from in v.frames && v.frames == t.frames[from := v.frames[from]]
    ensures ArmedFrom(v, from + 1, name, a, digests, size, count)
  {
    forall c: nat | from < c < |digests| ensures ArmedAt(v, c, name, a, digests, size, count) {
      assert ArmedAt(t, c, name, a, digests, size, count);
    }
  }

  lemma {:induction false} WriteAll(cfg: Config, traffic: Traffic, s: System, t: System, from: nat, name: string,
                                    a: nat,
                                    digests: seq<string>, size: int, count: int) returns (u: System)
    requires Reach(cfg, |digests|, traffic, s, t) && from <= |digests|
    requires forall i, j :: 0 <= i < j < |digests| ==> digests[i] != digests[j]
    requires ArmedFrom(t, from, name, a, digests, size, count)
    ensures Reach(cfg, |digests|, traffic, s, u)
    ensures StoredCount(u.db.rows, a) == StoredCount(t.db.rows, a) + (|digests| - from)
    ensures StoredBytes(u.db.rows, a) == StoredBytes(t.db.rows, a) + (|digests| - from) * size
    decreases |digests| - from
  {
    hide Reach, StoredCount, StoredBytes, StorageKey;
    if from == |digests| {
      u := t;
    } else {
      assert ArmedAt(t, from, name, a, digests, size, count);
      var d := digests[from];
      var v := WriteOne(cfg, |digests|, traffic, s, t, from, a, 0);
      InsertAdds(t.db.rows, d, v.db.rows[d], a);
      OthersStayArmed(t, v, from, name, a, digests, size, count);
      hide ArmedFrom, ArmedAt;
      u := WriteAll(cfg, traffic, s, v, from + 1, name, a, digests, size, count);
      LessOne(|digests| - from, size);
    }
  }

  /** From any idle system in which each of these uploads would be admitted alone, all of them get in
      together, given a connection for each. */
  lemma AllGetIn(cfg: Config, traffic: Traffic, s: System, name: string, a: nat, digests: seq<string>, size: int)
    returns (u: System)
    requires s.frames == map[] && s.inits == map[] && AllReady(cfg, s.db, name, a, digests, size)
    ensures Reach(cfg, |digests|, traffic, s, u)
    ensures StoredCount(u.db.rows, a) == StoredCount(s.db.rows, a) + |digests|
    ensures StoredBytes(u.db.rows, a) == StoredBytes(s.db.rows, a) + |digests| * size
  {
    var t := ArmAll(cfg, traffic, s, 0, name, a, digests, size);
    u := WriteAll(cfg, traffic, s, t, 0, name, a, digests, size, CountSeen(cfg, s.db, a));
  }

  // ---- the start, as a run from empty tables

  function DigestsFrom(from: nat, n: nat): (ds: seq<string>)
    ensures |ds| == n && forall i :: 0 <= i < n ==> ds[i] == Digest(from + i)
  {
    seq(n, i requires 0 <= i < n => Digest(from + i))
  }

  lemma PreparedInitial(cfg: Config, db: Db, name: string, n: nat, hi: nat)
    requires Inv(cfg, db) && Prepared(db, name, n, 0, hi)
    requires cfg.MaxCount().Some? ==> hi <= cfg.MaxCount().value
    ensures Initial(cfg, System(db, map[], map[]))
    ensures StoredCount(db.rows, 0) == hi && StoredBytes(db.rows, 0) == 0
  {
    forall d | d in db.rows ensures db.rows[d].app == Some(0) {
      var i: nat :| i < n && d == Digest(i);
      assert RowIs(db.rows[d], name, i, 0 <= i < hi);
    }
    forall a: nat | a != 0 ensures StoredCount(db.rows, a) == 0 && StoredBytes(db.rows, a) == 0 {
      assert StoredOf(db.rows, a) == {};
      assert SizesOf(db.rows, a) == map[];
    }
    hide StoredCount, StoredBytes, Digest;
  }

  lemma PreparedReady(cfg: Config, db: Db, name: string, n: nat, hi: nat, size: nat)
    requires Prepared(db, name, n, 0, hi) && hi <= n < DIGESTS && !Blank(name) && !cfg.TooLarge(size)
    requires cfg.MaxCount().Some? ==> hi < cfg.MaxCount().value
    requires cfg.MaxBytes().Some? ==> size <= cfg.MaxBytes().value <= I64_MAX
    ensures AllReady(cfg, db, name, 0, DigestsFrom(hi, n - hi), size)
  {
    hide Digest, StorageKey, StoredCount, StoredBytes;
    var digests := DigestsFrom(hi, n - hi);
    forall i, j | 0 <= i < j < |digests| ensures digests[i] != digests[j] {
      DigestsDiffer(hi + i, hi + j);
    }
    forall i | 0 <= i < |digests| ensures Ready(cfg, db, name, 0, digests[i], size) {
      RowAt(db, name, n, 0, hi, hi + i);
      DigestHex(hi + i);
      hide Prepared;
    }
  }

  /** Both bounds of QuotaOvershootBound are attained at once, in a run from empty tables: register,
      presign, complete one upload less than the count limit, without bytes, and race `k` uploads of the
      size of the byte limit. This goes for every pool size and every pair of limits, provided that one
      upload may be that large and that retention spares the first ones. */
  lemma OvershootAttained(cfg: Config, k: nat, traffic: Traffic, name: string) returns (u: System)
    requires cfg.MaxCount().Some? && cfg.MaxBytes().Some? && cfg.MaxBytes().value <= I64_MAX
    requires cfg.MaxCount().value + k <= DIGESTS && !Blank(name) && !cfg.TooLarge(cfg.MaxBytes().value)
    requires cfg.Retain() == 0 || cfg.Retain() >= cfg.MaxCount().value - 1
    ensures var m := cfg.MaxCount().value - 1; var s := Idle(cfg, Filled(name, m + k, 0, m));
            Initial(cfg, s) && Reach(cfg, k, traffic, s, u)
    ensures StoredCount(u.db.rows, 0) == cfg.MaxCount().value + k - 1
    ensures StoredBytes(u.db.rows, 0) == k * cfg.MaxBytes().value
  {
    hide Initial, Reach, Blank, Prepared, AllReady, Inv, Filled, StoredCount, StoredBytes;
    var m, size := cfg.MaxCount().value - 1, cfg.MaxBytes().value;
    var s := Idle(cfg, Filled(name, m + k, 0, m));
    FilledRun(cfg, name, m + k, 0, m);
    PreparedInitial(cfg, s.db, name, m + k, m);
    PreparedReady(cfg, s.db, name, m + k, m, size);
    u := AllGetIn(cfg, traffic, s, name, 0, DigestsFrom(m, k), size);
  }

  /** The same for retention: N rows kept, and `k` requests that have written and not cleaned up. */
  lemma SurplusAttained(cfg: Config, k: nat, traffic: Traffic, name: string) returns (u: System)
    requires cfg.Retain() > 0 && cfg.Retain() + k < DIGESTS && !Blank(name)
    requires cfg.MaxCount().Some? ==> cfg.Retain() < cfg.MaxCount().value
    requires cfg.MaxBytes().Some? ==> cfg.MaxBytes().value <= I64_MAX
    ensures var n := cfg.Retain(); var s := Idle(cfg, Filled(name, n + k, 0, n));
            Initial(cfg, s) && StoredCount(s.db.rows, 0) == n && Reach(cfg, k, traffic, s, u)
    ensures StoredCount(u.db.rows, 0) == cfg.Retain() + k
  {
    hide Initial, Reach, Blank, Prepared, AllReady, Inv, Filled, StoredCount, StoredBytes;
    var n := cfg.Retain();
    var s := Idle(cfg, Filled(name, n + k, 0, n));
    FilledRun(cfg, name, n + k, 0, n);
    PreparedInitial(cfg, s.db, name, n + k, n);
    PreparedReady(cfg, s.db, name, n + k, n, 0);
    u := AllGetIn(cfg, traffic, s, name, 0, DigestsFrom(n, k), 0);
  }
}
