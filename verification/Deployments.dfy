/** Deployments: creation, the Kubernetes watcher that settles them, and the collector of failed ones. */
module Deployments {
  import opened Prelude
  import Schema
  import Handlers
  import Paths

  datatype Status = Pending | Running | Failed

  datatype Deployment = Deployment(
    app: nat, url: string, status: Status, createdAt: int, digest: Option<string>,
    reason: Option<string>, lastTransition: int, signature: Option<string>)

  datatype Kind = BecameRunning | BecameFailed | Rollout

  datatype Event = Event(serial: nat, deployment: nat, kind: Kind, message: Option<string>)

  type Rows = map<nat, Deployment>

  /** The deployment tables and the two status counters; `collected` is the history of what the
      collector has reported as deleted. */
  datatype Store = Store(
    rows: Rows, events: set<Event>, running: int, failed: int, collected: int, nextId: nat, nextSerial: nat)

  const EMPTY := Store(map[], {}, 0, 0, 0, 0, 0)

  const MICROS: int := 1_000_000

  // ---- statements and services

  function Log(s: Store, id: nat, kind: Kind, message: Option<string>): Store {
    if id in s.rows then
      s.(events := s.events + {Event(s.nextSerial, id, kind, message)}, nextSerial := s.nextSerial + 1)
    else s
  }

  function Create(s: Store, app: nat, url: string, digest: Option<string>, sig: Option<string>, now: int): Store {
    s.(rows := s.rows[s.nextId := Deployment(app, url, Pending, now, digest, None, now, sig)], nextId := s.nextId + 1)
  }

  datatype Verdict = Run | Fail(reason: string) | Wait

  function StatusOf(v: Verdict): Status {
    match v case Run => Running case Fail(_) => Failed case Wait => Pending
  }

  function ReasonOf(v: Verdict): Option<string> {
    match v case Run => None case Fail(reason) => Some(reason) case Wait => None
  }

  /** The UPDATE of mark_running and mark_failed; it has no guard on the current status. */
  function Stamp(s: Store, id: nat, v: Verdict, now: int): Store {
    if id in s.rows && v != Wait then
      s.(rows := s.rows[id := s.rows[id].(status := StatusOf(v), reason := ReasonOf(v), lastTransition := now)])
    else s
  }

  /** The event and the counter that follow the UPDATE. */
  function Conclude(s: Store, id: nat, v: Verdict): Store {
    match v
    case Run => Log(s, id, BecameRunning, None).(running := s.running + 1)
    case Fail(reason) => Log(s, id, BecameFailed, Some(reason)).(failed := s.failed + 1)
    case Wait => s
  }

  function Settle(s: Store, id: nat, v: Verdict, now: int): Store {
    Conclude(Stamp(s, id, v, now), id, v)
  }

  function SetDigest(s: Store, id: nat, digest: string): Store {
    if id in s.rows then s.(rows := s.rows[id := s.rows[id].(digest := Some(digest))]) else s
  }

  /** An unknown id is an error before anything is written. */
  function UpdateDigest(s: Store, id: nat, digest: string): Store {
    if id in s.rows then Log(SetDigest(s, id, digest), id, Rollout, Some(digest)) else s
  }

  predicate Superseded(rows: Rows, id: nat)
    requires id in rows
  {
    exists r :: r in rows && rows[r].app == rows[id].app && rows[r].status == Running
                && rows[r].createdAt > rows[id].createdAt
  }

  /** What the collector deletes: failed, older than the time to live, and superseded. */
  function Collectable(rows: Rows, ttl: int, now: int): set<nat> {
    set id | id in rows && rows[id].status == Failed && rows[id].createdAt < now - ttl * MICROS && Superseded(rows, id)
  }

  function Gc(s: Store, ttl: int, now: int): Store {
    var gone := Collectable(s.rows, ttl, now);
    s.(rows := s.rows - gone, events := (set e | e in s.events && e.deployment !in gone),
       collected := s.collected + |gone|)
  }

  // ---- the watcher's verdict on one Applied event

  datatype Condition = Condition(kind: string, status: string, reason: Option<string>)

  datatype Termination = Termination(exitCode: int, reason: Option<string>)

  /** An init container, with how it terminated if it has. */
  datatype InitContainer = InitContainer(name: string, terminated: Option<Termination>)

  type Pod = seq<InitContainer>

  function Digit(n: int): char
    requires 0 <= n < 10
  {
    "0123456789"[n]
  }

  function Decimal(n: int): string
    decreases if n < 0 then -n + 1 else n
  {
    if n < 0 then "-" + Decimal(-n)
    else if n < 10 then [Digit(n)]
    else Decimal(n / 10) + [Digit(n % 10)]
  }

  predicate Stalled(c: Condition) {
    c.kind == "Progressing" && c.status == "False"
  }

  predicate Crashed(c: InitContainer) {
    c.terminated.Some? && c.terminated.value.exitCode != 0
  }

  function StallReason(c: Condition): string {
    if c.reason.Some? then c.reason.value else "progress_failed"
  }

  function CrashReason(c: InitContainer): string
    requires Crashed(c)
  {
    var t := c.terminated.value;
    "init:" + c.name + ":" + (if t.reason.Some? then t.reason.value else Decimal(t.exitCode))
  }

  /** The verdict on the fields. Available replicas mean running. Otherwise the first condition, if any, that
      reports stalled progress decides; without one, the first init container, pod by pod, that terminated with
      an exit code other than 0; and without one, the age in microseconds. */
  ghost predicate VerdictOk(available: int, conds: seq<Condition>, pods: seq<Pod>, age: int, v: Verdict) {
    && (available >= 1 <==> v == Run)
    && (forall i :: (0 <= i < |conds| && conds[i].kind == "Progressing" && conds[i].status == "False" && available < 1
                     && forall j :: 0 <= j < i ==> conds[j].kind != "Progressing" || conds[j].status != "False") ==>
          v == Fail(if conds[i].reason.Some? then conds[i].reason.value else "progress_failed"))
    && (available < 1
        && (forall j :: 0 <= j < |conds| ==> conds[j].kind != "Progressing" || conds[j].status != "False") ==>
          && (forall p, c :: (0 <= p < |pods| && 0 <= c < |pods[p]|
                              && pods[p][c].terminated.Some? && pods[p][c].terminated.value.exitCode != 0
                              && forall q, d :: (0 <= q < p && 0 <= d < |pods[q]|) || (q == p && 0 <= d < c) ==>
                                   pods[q][d].terminated.None? || pods[q][d].terminated.value.exitCode == 0) ==>
                var t := pods[p][c].terminated.value;
                v == Fail("init:" + pods[p][c].name + ":" +
                          (if t.reason.Some? then t.reason.value else Decimal(t.exitCode))))
          && ((forall q, d :: 0 <= q < |pods| && 0 <= d < |pods[q]| ==>
                 pods[q][d].terminated.None? || pods[q][d].terminated.value.exitCode == 0) ==>
                v == if age >= 301_000_000 then Fail("timeout") else Wait))
  }

  /** Searches the conditions in order for stalled progress. */
  method FindStall(conds: seq<Condition>) returns (reason: Option<string>, ghost i: nat)
    ensures i <= |conds| && forall j :: 0 <= j < i ==> !Stalled(conds[j])
    ensures if reason.Some? then i < |conds| && Stalled(conds[i]) && reason.value == StallReason(conds[i])
            else i == |conds|
  {
    i := 0;
    for k := 0 to |conds|
      invariant i == k && forall j :: 0 <= j < k ==> !Stalled(conds[j])
    {
      if Stalled(conds[k]) { return Some(StallReason(conds[k])), k; }
      i := k + 1;
    }
    reason := None;
  }

  /** Searches the init containers, pod by pod, for one that crashed. */
  method FindCrash(pods: seq<Pod>) returns (reason: Option<string>, ghost p: nat, ghost c: nat)
    ensures p <= |pods| && forall q, d :: 0 <= q < p && 0 <= d < |pods[q]| ==> !Crashed(pods[q][d])
    ensures if reason.Some? then
              && p < |pods| && c < |pods[p]| && Crashed(pods[p][c]) && reason.value == CrashReason(pods[p][c])
              && forall d :: 0 <= d < c ==> !Crashed(pods[p][d])
            else p == |pods|
  {
    p, c := 0, 0;
    for i := 0 to |pods|
      invariant p == i && forall q, d :: 0 <= q < i && 0 <= d < |pods[q]| ==> !Crashed(pods[q][d])
    {
      for k := 0 to |pods[i]|
        invariant p == i && forall d :: 0 <= d < k ==> !Crashed(pods[i][d])
      {
        if Crashed(pods[i][k]) { return Some(CrashReason(pods[i][k])), i, k; }
      }
      p := i + 1;
    }
    reason := None;
  }

  method Decide(available: int, conds: seq<Condition>, pods: seq<Pod>, age: int) returns (v: Verdict)
    ensures VerdictOk(available, conds, pods, age, v)
  {
    if available >= 1 { return Run; }
    var failed: Option<string>;
    ghost var i, p, c;
    failed, i := FindStall(conds);
    if failed.None? { failed, p, c := FindCrash(pods); }
    if failed.None? && age / MICROS > 300 { failed := Some("timeout"); }
    return if failed.Some? then Fail(failed.value) else Wait;
  }

  /** A rollout that is going on waits, for five minutes. */
  lemma HealthyRolloutWaits(why: string, age: int, v: Verdict)
    requires VerdictOk(0, [Condition("Progressing", "True", Some(why))], [], age, v)
    ensures v == if age >= 301_000_000 then Fail("timeout") else Wait
  {
  }

  /** One that has stalled fails at once, whatever its pods and its age. */
  lemma StalledRolloutFails(why: string, pods: seq<Pod>, age: int, v: Verdict)
    requires var conds := [Condition("Available", "False", None), Condition("Progressing", "False", Some(why))];
             VerdictOk(0, conds, pods, age, v)
    ensures v == Fail(why)
  {
    var conds := [Condition("Available", "False", None), Condition("Progressing", "False", Some(why))];
    assert conds[1].kind == "Progressing" && conds[0].kind == "Available";
    assert conds[0].kind[0] != conds[1].kind[0];
  }

  /** So does one whose fetcher was killed in its second pod. */
  lemma KilledFetcherFails(age: int, v: Verdict)
    requires var done := InitContainer("fetch", Some(Termination(0, None)));
             VerdictOk(0, [], [[done], [done, InitContainer("fetch", Some(Termination(137, None)))]], age, v)
    ensures v == Fail("init:fetch:137")
  {
    var done := InitContainer("fetch", Some(Termination(0, None)));
    var pods: seq<Pod> := [[done], [done, InitContainer("fetch", Some(Termination(137, None)))]];
    assert pods[1][1].terminated.value.exitCode == 137;
    assert pods[0][0] == done && pods[1][0] == done;
    KilledExitCode();
    hide Decimal;
  }

  lemma KilledExitCode()
    ensures Decimal(137) == "137"
  {
    assert Decimal(13) == "13" by { assert Decimal(1) == "1"; }
  }

  /** The number that a string of decimal digits denotes. */
  function Value(s: string): int {
    if s == "" then 0 else 10 * Value(s[..|s| - 1]) + (s[|s| - 1] as int - 48)
  }

  lemma {:induction false} DecimalValue(n: nat)
    ensures Value(Decimal(n)) == n && Decimal(n) != ""
    ensures forall i :: 0 <= i < |Decimal(n)| ==> '0' <= Decimal(n)[i] <= '9'
    ensures n > 0 ==> Decimal(0 - n) == "-" + Decimal(n)
    decreases n
  {
    assert forall k :: 0 <= k < 10 ==> Digit(k) as int == 48 + k;
    if n >= 10 {
      DecimalValue(n / 10);
      assert Decimal(n)[..|Decimal(n)| - 1] == Decimal(n / 10);
    } else {
      assert Decimal(n)[..0] == "";
    }
  }

  // ---- the whole system: requests, one watcher, the collector

  /** Where the watcher is: between events, after its SELECT, or after its UPDATE. */
  datatype Watch = Idle | Selected(id: nat, verdict: Verdict) | Stamped(id: nat, verdict: Verdict)

  datatype System = System(store: Store, watch: Watch)

  /** One statement of a request, of the collector or of the watcher. Rollout events may come at any
      time, which covers the gap between a digest update and its event. */
  datatype Step =
    | CreateStep(app: nat, url: string, artifact: Option<string>, sig: Option<string>, now: int)
    | DigestStep(id: nat, digest: string)
    | RolloutStep(id: nat, digest: string)
    | CollectStep(ttl: int, now: int)
    | SelectStep(id: nat, verdict: Verdict)
    | StampStep(now: int)
    | ConcludeStep

  predicate Enabled(s: System, step: Step) {
    match step
    case SelectStep(id, _) => s.watch.Idle? && id in s.store.rows && s.store.rows[id].status == Pending
    case StampStep(_) => s.watch.Selected?
    case ConcludeStep => s.watch.Stamped?
    case _ => true
  }

  function Apply(s: System, step: Step): System
    requires Enabled(s, step)
  {
    match step
    case CreateStep(app, url, digest, sig, now) => s.(store := Create(s.store, app, url, digest, sig, now))
    case DigestStep(id, digest) => s.(store := SetDigest(s.store, id, digest))
    case RolloutStep(id, digest) => s.(store := Log(s.store, id, Rollout, Some(digest)))
    case CollectStep(ttl, now) => s.(store := Gc(s.store, ttl, now))
    case SelectStep(id, verdict) => s.(watch := Selected(id, verdict))
    case StampStep(now) =>
      System(Stamp(s.store, s.watch.id, s.watch.verdict, now), Stamped(s.watch.id, s.watch.verdict))
    case ConcludeStep => System(Conclude(s.store, s.watch.id, s.watch.verdict), Idle)
  }

  /** A run from `s`: every step was enabled when it was taken. */
  predicate Possible(s: System, steps: seq<Step>)
    decreases |steps|
  {
    steps == [] || (Enabled(s, steps[0]) && Possible(Apply(s, steps[0]), steps[1..]))
  }

  function After(s: System, steps: seq<Step>): System
    requires Possible(s, steps)
    decreases |steps|
  {
    if steps == [] then s else After(Apply(s, steps[0]), steps[1..])
  }

  // ---- conservation

  function WithStatus(rows: Rows, status: Status): set<nat> {
    set id | id in rows && rows[id].status == status
  }

  function KindOf(status: Status): Kind
    requires status != Pending
  {
    if status == Running then BecameRunning else BecameFailed
  }

  /** The row that is stamped but whose event is still to come. */
  function Open(w: Watch): set<nat> {
    if w.Stamped? then {w.id} else {}
  }

  /** What the watcher still owes to the counter of one status. */
  function Owed(w: Watch, status: Status): int {
    if w.Stamped? && StatusOf(w.verdict) == status then 1 else 0
  }

  ghost predicate HasEvent(s: Store, id: nat) {
    exists e :: e in s.events && e.deployment == id && e.kind != Rollout
  }

  /** Every transition event matches its row in kind and message, and no row has two. */
  ghost predicate EventsMatch(s: Store) {
    && (forall e :: e in s.events ==> e.serial < s.nextSerial && e.deployment in s.rows)
    && (forall e :: e in s.events && e.kind != Rollout ==>
          var row := s.rows[e.deployment];
          row.status != Pending && e.kind == KindOf(row.status) && e.message == row.reason)
    && (forall e, f :: (e in s.events && f in s.events && e.deployment == f.deployment
                        && e.kind != Rollout && f.kind != Rollout) ==> e == f)
  }

  /** A row has its transition event exactly when it is settled, but for the open one. */
  ghost predicate Logged(s: Store, open: set<nat>) {
    forall id :: id in s.rows ==> (HasEvent(s, id) <==> s.rows[id].status != Pending && id !in open)
  }

  /** Counters agree with the table and the collector's history. */
  ghost predicate Counted(s: Store, w: Watch) {
    && s.running + Owed(w, Running) == |WithStatus(s.rows, Running)|
    && s.failed + Owed(w, Failed) == |WithStatus(s.rows, Failed)| + s.collected
  }

  ghost predicate RowsOk(s: Store) {
    forall id :: id in s.rows ==> id < s.nextId && (s.rows[id].reason.Some? <==> s.rows[id].status == Failed)
  }

  /** A selected row is still there and pending; a stamped one shows its verdict, unless collected. */
  ghost predicate WatchOk(s: Store, w: Watch) {
    match w
    case Idle => true
    case Selected(id, _) => id in s.rows && s.rows[id].status == Pending
    case Stamped(id, v) =>
      id < s.nextId && (id in s.rows ==> s.rows[id].status == StatusOf(v) && s.rows[id].reason == ReasonOf(v))
  }

  ghost predicate Good(s: System) {
    && RowsOk(s.store) && WatchOk(s.store, s.watch) && Counted(s.store, s.watch)
    && EventsMatch(s.store) && Logged(s.store, Open(s.watch))
  }

  /** What one step may do to the rows: settle the one that the watcher holds, change a digest, add a
      pending row, or drop superseded failures. */
  ghost predicate Evolves(s: System, s': System) {
    && s.store.nextId <= s'.store.nextId
    && (forall id :: id in s'.store.rows && id !in s.store.rows ==>
          id >= s.store.nextId && s'.store.rows[id].status == Pending)
    && (forall id :: id in s.store.rows && id in s'.store.rows ==>
          var x, y := s.store.rows[id], s'.store.rows[id];
          && x.app == y.app && x.url == y.url && x.createdAt == y.createdAt && x.signature == y.signature
          && (x.status == y.status || (x.status == Pending && s.watch.Selected? && s.watch.id == id))
          && (x.status == y.status ==> x.reason == y.reason))
    && (forall id :: id in s.store.rows && id !in s'.store.rows ==>
          s.store.rows[id].status == Failed && Superseded(s.store.rows, id))
  }

  lemma StampCounts(rows: Rows, id: nat, row: Deployment)
    requires id in rows && rows[id].status == Pending
    ensures forall status :: status != Pending ==>
              |WithStatus(rows[id := row], status)| ==
              |WithStatus(rows, status)| + (if status == row.status then 1 else 0)
  {
    forall status | status != Pending
      ensures |WithStatus(rows[id := row], status)| ==
              |WithStatus(rows, status)| + (if status == row.status then 1 else 0)
    {
      assert WithStatus(rows[id := row], status) ==
             if status == row.status then WithStatus(rows, status) + {id} else WithStatus(rows, status);
    }
  }

  /** Rollout events and those of other rows do not matter. */
  lemma SameEvents(s: Store, t: Store, id: nat)
    requires forall e: Event :: e.kind != Rollout && e.deployment == id ==> (e in s.events <==> e in t.events)
    ensures HasEvent(s, id) <==> HasEvent(t, id)
  {
  }

  lemma StampGood(s: System, now: int)
    requires Good(s) && s.watch.Selected?
    ensures Good(Apply(s, StampStep(now)))
  {
    var t := Apply(s, StampStep(now));
    if s.watch.verdict != Wait {
      StampCounts(s.store.rows, s.watch.id, t.store.rows[s.watch.id]);
    }
    forall o | o in t.store.rows
      ensures HasEvent(t.store, o) <==> t.store.rows[o].status != Pending && o !in Open(t.watch)
    {
      SameEvents(s.store, t.store, o);
    }
  }

  lemma ConcludeLogs(s: System)
    requires Good(s) && s.watch.Stamped?
    ensures var t := Apply(s, ConcludeStep).store; EventsMatch(t) && Logged(t, {})
  {
    hide Counted;
    var t := Apply(s, ConcludeStep).store;
    var id, v := s.watch.id, s.watch.verdict;
    if id in s.store.rows && v != Wait {
      var logged := Event(s.store.nextSerial, id, KindOf(StatusOf(v)), ReasonOf(v));
      assert t.events == s.store.events + {logged};
      assert !HasEvent(s.store, id);
      assert HasEvent(t, id) by { assert logged in t.events; }
    }
    forall o | o in t.rows && (o != id || v == Wait) ensures HasEvent(t, o) <==> HasEvent(s.store, o) {
      SameEvents(s.store, t, o);
    }
    hide Log;
  }

  lemma ConcludeGood(s: System)
    requires Good(s) && s.watch.Stamped?
    ensures Good(Apply(s, ConcludeStep))
  {
    hide EventsMatch, Logged;
    ConcludeLogs(s);
  }

  lemma CreateGood(s: System, step: Step)
    requires Good(s) && step.CreateStep?
    ensures Good(Apply(s, step))
  {
    var t := Apply(s, step);
    assert WithStatus(t.store.rows, Running) == WithStatus(s.store.rows, Running);
    assert WithStatus(t.store.rows, Failed) == WithStatus(s.store.rows, Failed);
    forall o | o in t.store.rows
      ensures HasEvent(t.store, o) <==> t.store.rows[o].status != Pending && o !in Open(t.watch)
    {
      SameEvents(s.store, t.store, o);
    }
  }

  lemma DigestGood(s: System, id: nat, digest: string)
    requires Good(s)
    ensures Good(Apply(s, DigestStep(id, digest)))
  {
    var t := Apply(s, DigestStep(id, digest));
    assert WithStatus(t.store.rows, Running) == WithStatus(s.store.rows, Running);
    assert WithStatus(t.store.rows, Failed) == WithStatus(s.store.rows, Failed);
    forall o ensures HasEvent(t.store, o) <==> HasEvent(s.store, o) { SameEvents(s.store, t.store, o); }
  }

  lemma RolloutGood(s: System, id: nat, digest: string)
    requires Good(s)
    ensures Good(Apply(s, RolloutStep(id, digest)))
  {
    var t := Apply(s, RolloutStep(id, digest));
    assert t.store.rows == s.store.rows;
    forall o ensures HasEvent(t.store, o) <==> HasEvent(s.store, o) { SameEvents(s.store, t.store, o); }
  }

  lemma CollectGood(s: System, ttl: int, now: int)
    requires Good(s)
    ensures Good(Apply(s, CollectStep(ttl, now)))
  {
    var t := Apply(s, CollectStep(ttl, now));
    var gone := Collectable(s.store.rows, ttl, now);
    assert WithStatus(t.store.rows, Running) == WithStatus(s.store.rows, Running);
    assert WithStatus(t.store.rows, Failed) == WithStatus(s.store.rows, Failed) - gone;
    assert gone <= WithStatus(s.store.rows, Failed);
    forall o | o in t.store.rows
      ensures HasEvent(t.store, o) <==> t.store.rows[o].status != Pending && o !in Open(t.watch)
    {
      SameEvents(s.store, t.store, o);
    }
  }

  /** Every step keeps the counters, reasons and event log right, whatever runs between the watcher's
      statements. */
  lemma StepGood(s: System, step: Step)
    requires Good(s) && Enabled(s, step)
    ensures Good(Apply(s, step))
  {
    match step
    case CreateStep(_, _, _, _, _) => CreateGood(s, step);
    case DigestStep(id, digest) => DigestGood(s, id, digest);
    case RolloutStep(id, digest) => RolloutGood(s, id, digest);
    case CollectStep(ttl, now) => CollectGood(s, ttl, now);
    case SelectStep(_, _) =>
    case StampStep(now) => StampGood(s, now);
    case ConcludeStep => ConcludeGood(s);
  }

  lemma StepEvolves(s: System, step: Step)
    requires Good(s) && Enabled(s, step)
    ensures Evolves(s, Apply(s, step))
  {
    hide EventsMatch, Logged, Counted;
  }

  /** The two statements of a digest update, with nothing in between: the row gets the digest and nothing
      else, and one event says so. An unknown id changes nothing. */
  lemma UpdateAlone(s: Store, w: Watch, id: nat, digest: string)
    ensures UpdateDigest(s, id, digest) ==
            Apply(Apply(System(s, w), DigestStep(id, digest)), RolloutStep(id, digest)).store
    ensures id in s.rows ==>
              && UpdateDigest(s, id, digest).rows == s.rows[id := s.rows[id].(digest := Some(digest))]
              && UpdateDigest(s, id, digest).events == s.events + {Event(s.nextSerial, id, Rollout, Some(digest))}
    ensures id !in s.rows ==> UpdateDigest(s, id, digest) == s
  {
  }

  /** The watcher's statements with nothing in between are the handler for one event. */
  lemma WatcherAlone(s: Store, id: nat, v: Verdict, now: int)
    requires id in s.rows && s.rows[id].status == Pending
    ensures var steps := [SelectStep(id, v), StampStep(now), ConcludeStep];
            Possible(System(s, Idle), steps) && After(System(s, Idle), steps) == System(Settle(s, id, v, now), Idle)
  {
    var steps := [SelectStep(id, v), StampStep(now), ConcludeStep];
    var a, b := System(s, Selected(id, v)), System(Stamp(s, id, v, now), Stamped(id, v));
    var c := System(Settle(s, id, v, now), Idle);
    assert steps[1..] == [StampStep(now), ConcludeStep] && steps[1..][1..] == [ConcludeStep];
    assert Apply(b, ConcludeStep) == c;
    assert Possible(c, []) && After(c, []) == c;
    assert Possible(b, [ConcludeStep]) && After(b, [ConcludeStep]) == c;
    assert Possible(a, [StampStep(now), ConcludeStep]) && After(a, [StampStep(now), ConcludeStep]) == c;
  }

  lemma {:induction false} RunGood(s: System, steps: seq<Step>)
    requires Good(s) && Possible(s, steps)
    ensures Good(After(s, steps))
    decreases |steps|
  {
    hide Good;
    if steps != [] {
      StepGood(s, steps[0]);
      RunGood(Apply(s, steps[0]), steps[1..]);
    }
  }

  lemma EmptyGood()
    ensures Good(System(EMPTY, Idle))
  {
    assert WithStatus(EMPTY.rows, Running) == {} && WithStatus(EMPTY.rows, Failed) == {};
  }

  /** Over every run of statements from empty tables: the running counter counts the running rows, the
      failed counter the failed rows and those collected (each short by one while the watcher is between
      its UPDATE and its counter), a reason is recorded exactly for failures, and a settled row has
      exactly one transition event. */
  lemma CountersConserved(steps: seq<Step>)
    requires Possible(System(EMPTY, Idle), steps)
    ensures var s := After(System(EMPTY, Idle), steps);
            && s.store.running == |WithStatus(s.store.rows, Running)| - Owed(s.watch, Running)
            && s.store.failed == |WithStatus(s.store.rows, Failed)| + s.store.collected - Owed(s.watch, Failed)
            && EventsMatch(s.store) && Logged(s.store, Open(s.watch))
            && forall id :: id in s.store.rows ==>
                 (s.store.rows[id].reason.Some? <==> s.store.rows[id].status == Failed)
  {
    EmptyGood();
    RunGood(System(EMPTY, Idle), steps);
  }

  // ---- nothing that matters is ever collected

  /** A settled deployment never changes status again, and a running one is never deleted. */
  lemma {:induction false} SettledForever(s: System, steps: seq<Step>, id: nat)
    requires Good(s) && Possible(s, steps) && id in s.store.rows && s.store.rows[id].status != Pending
    ensures var rows := After(s, steps).store.rows;
            && (s.store.rows[id].status == Running ==> id in rows)
            && (id in rows ==> rows[id].status == s.store.rows[id].status && rows[id].app == s.store.rows[id].app
                               && rows[id].createdAt == s.store.rows[id].createdAt)
    decreases |steps|
  {
    hide WatchOk, Counted, EventsMatch, Logged;
    if steps != [] {
      StepGood(s, steps[0]);
      StepEvolves(s, steps[0]);
      var t := Apply(s, steps[0]);
      if id in t.store.rows {
        SettledForever(t, steps[1..], id);
      } else {
        StaysGone(t, steps[1..], id);
      }
    }
  }

  lemma {:induction false} StaysGone(s: System, steps: seq<Step>, id: nat)
    requires Good(s) && Possible(s, steps) && id !in s.store.rows && id < s.store.nextId
    ensures id !in After(s, steps).store.rows
    decreases |steps|
  {
    hide Good;
    if steps != [] {
      StepGood(s, steps[0]);
      StepEvolves(s, steps[0]);
      StaysGone(Apply(s, steps[0]), steps[1..], id);
    }
  }

  /** Some running deployment of the same application, newer than the given one. */
  ghost predicate Replaced(rows: Rows, app: nat, createdAt: int) {
    exists r :: r in rows && rows[r].app == app && rows[r].status == Running && rows[r].createdAt > createdAt
  }

  /** Whatever a run has deleted is, at its end, superseded by a deployment that is still there, still
      running, of the same application and newer. */
  lemma {:induction false} DeletedWasReplaced(s: System, steps: seq<Step>, id: nat)
    requires Good(s) && Possible(s, steps) && id in s.store.rows && id !in After(s, steps).store.rows
    ensures Replaced(After(s, steps).store.rows, s.store.rows[id].app, s.store.rows[id].createdAt)
    decreases |steps|
  {
    hide RowsOk, WatchOk, Counted, EventsMatch, Logged;
    if steps != [] {
      var row := s.store.rows[id];
      StepGood(s, steps[0]);
      StepEvolves(s, steps[0]);
      var t := Apply(s, steps[0]);
      if id in t.store.rows {
        DeletedWasReplaced(t, steps[1..], id);
      } else {
        var r :| r in s.store.rows && s.store.rows[r].app == row.app && s.store.rows[r].status == Running
                 && s.store.rows[r].createdAt > row.createdAt;
        SettledForever(s, steps, r);
        assert r in After(s, steps).store.rows;
      }
    }
  }

  /** A collection deletes every expired failure that is superseded, as seen from the tables it leaves,
      and nothing else. */
  lemma CollectorIsExact(s: Store, ttl: int, now: int)
    ensures var t := Gc(s, ttl, now).rows;
            && (forall id :: id in s.rows ==>
                  (id !in t <==> s.rows[id].status == Failed && s.rows[id].createdAt < now - ttl * MICROS
                                 && Replaced(t, s.rows[id].app, s.rows[id].createdAt)))
            && (forall id :: id in t ==> id in s.rows && t[id] == s.rows[id])
  {
    var t := Gc(s, ttl, now).rows;
    forall id | id in s.rows ensures Superseded(s.rows, id) <==> Replaced(t, s.rows[id].app, s.rows[id].createdAt) {
      if Superseded(s.rows, id) {
        var r :| r in s.rows && s.rows[r].app == s.rows[id].app && s.rows[r].status == Running
                 && s.rows[r].createdAt > s.rows[id].createdAt;
        assert r in t;
      }
    }
  }

  /** An application's newest deployment, or any of several newest, is never collected. */
  lemma NewestStays(s: Store, id: nat, ttl: int, now: int)
    requires id in s.rows
    requires forall o :: o in s.rows && s.rows[o].app == s.rows[id].app ==> s.rows[o].createdAt <= s.rows[id].createdAt
    ensures id in Gc(s, ttl, now).rows
  {
    CollectorIsExact(s, ttl, now);
  }

  /** A second collection at the same instant changes nothing at all. */
  lemma CollectTwice(s: Store, ttl: int, now: int)
    ensures Gc(Gc(s, ttl, now), ttl, now) == Gc(s, ttl, now)
  {
    var t := Gc(s, ttl, now);
    assert Collectable(t.rows, ttl, now) == {} by {
      CollectorIsExact(s, ttl, now);
    }
    assert Gc(t, ttl, now).rows == t.rows;
    assert Gc(t, ttl, now).events == t.events;
  }

  // ---- POST /deployments

  datatype CreateError = NoDigest | BadSignature | AppUnknown | NoKeys | NotVerified

  ghost function ActiveKeys(keys: map<(nat, string), bool>, app: nat): set<string> {
    set k | k in keys && k.0 == app && keys[k] :: k.1
  }

  ghost function VerifyIfPresent(cfg: Handlers.Config, db: Schema.Db, app: string, digest: Option<string>,
                                 sig: Option<string>): Option<CreateError>
  {
    if sig.None? then None
    else if digest.None? then Some(NoDigest)
    else if !IsHex(sig.value, 128) then Some(BadSignature)
    else if app !in db.apps then Some(AppUnknown)
    else if ActiveKeys(db.keys, db.apps[app]) == {} then Some(NoKeys)
    else if !Handlers.SignedBy(cfg, db.keys, db.apps[app], digest.value, sig.value) then Some(NotVerified)
    else None
  }

  /** The handler: resolves the digest, verifies the signature, inserts a pending deployment. */
  ghost function CreateDeployment(cfg: Handlers.Config, db: Schema.Db, s: Store, app: string, url: string,
                                  sig: Option<string>, now: int): (Store, Option<CreateError>)
  {
    var digest := Paths.ResolveDigest(db.rows, url);
    var error := VerifyIfPresent(cfg, db, app, digest, sig);
    if error.Some? then (s, error)
    else if app !in db.apps then (s, Some(AppUnknown))
    else (Create(s, db.apps[app], url, digest, sig, now), None)
  }

  /** What POST /deployments answers, check by check, and the row that it makes. */
  lemma PostAnswers(cfg: Handlers.Config, db: Schema.Db, s: Store, app: string, url: string,
                    sig: Option<string>, now: int)
    ensures var (store, error) := CreateDeployment(cfg, db, s, app, url, sig, now);
            var digest := Paths.ResolveDigest(db.rows, url);
            var formed := sig.Some? && digest.Some? && IsHex(sig.value, 128); var known := app in db.apps;
            var keyed := known && exists k :: k in db.keys && k.0 == db.apps[app] && db.keys[k];
            && (error == Some(NoDigest) <==> sig.Some? && digest.None?)
            && (error == Some(BadSignature) <==> sig.Some? && digest.Some? && !IsHex(sig.value, 128))
            && (error == Some(AppUnknown) <==> (sig.None? || formed) && !known)
            && (error == Some(NoKeys) <==> formed && known && !keyed)
            && (error == Some(NotVerified) <==>
                  formed && keyed
                  && !exists k :: (k in db.keys && k.0 == db.apps[app] && db.keys[k]
                                   && cfg.verifies(k.1, digest.value, sig.value)))
            && (error.Some? ==> store == s)
            && (error.None? ==>
                  && store == s.(rows := store.rows, nextId := s.nextId + 1)
                  && var made := Deployment(db.apps[app], url, Pending, now, digest, None, now, sig);
                     store.rows == s.rows[s.nextId := made])
  {
    hide IsHex, Paths.ResolveDigest;
    if app in db.apps { KeysOfApp(db.keys, db.apps[app]); }
    hide ActiveKeys;
  }

  lemma KeysOfApp(keys: map<(nat, string), bool>, a: nat)
    ensures ActiveKeys(keys, a) != {} <==> exists k :: k in keys && k.0 == a && keys[k]
  {
    if k :| k in keys && k.0 == a && keys[k] { assert k.1 in ActiveKeys(keys, a); }
  }

  // ---- the services as methods on the tables

  class DeploymentService {
    var rows: Rows
    var events: set<Event>
    var running: int
    var failed: int
    ghost var collected: int
    var nextId: nat
    var nextSerial: nat

    ghost function State(): Store
      reads this
    {
      Store(rows, events, running, failed, collected, nextId, nextSerial)
    }

    constructor ()
      ensures State() == EMPTY
    {
      rows, events, running, failed, collected, nextId, nextSerial := map[], {}, 0, 0, 0, 0, 0;
    }

    method InsertEvent(id: nat, kind: Kind, message: Option<string>)
      modifies this`events, this`nextSerial
      ensures State() == Log(old(State()), id, kind, message)
    {
      if id in rows {
        events := events + {Event(nextSerial, id, kind, message)};
        nextSerial := nextSerial + 1;
      }
    }

    method CreatePending(app: nat, url: string, digest: Option<string>, sig: Option<string>, now: int) returns (id: nat)
      modifies this
      ensures State() == Create(old(State()), app, url, digest, sig, now) && id == old(nextId)
    {
      id := nextId;
      rows := rows[id := Deployment(app, url, Pending, now, digest, None, now, sig)];
      nextId := nextId + 1;
    }

    method SetRunning(id: nat, now: int)
      modifies this
      ensures State() == Settle(old(State()), id, Run, now)
    {
      if id in rows { rows := rows[id := rows[id].(status := Running, reason := None, lastTransition := now)]; }
      InsertEvent(id, BecameRunning, None);
      running := running + 1;
    }

    method SetFailed(id: nat, reason: string, now: int)
      modifies this
      ensures State() == Settle(old(State()), id, Fail(reason), now)
    {
      if id in rows { rows := rows[id := rows[id].(status := Failed, reason := Some(reason), lastTransition := now)]; }
      InsertEvent(id, BecameFailed, Some(reason));
      failed := failed + 1;
    }

    method ChangeDigest(id: nat, digest: string) returns (ok: bool)
      modifies this
      ensures State() == UpdateDigest(old(State()), id, digest) && ok == (id in old(rows))
    {
      ok := id in rows;
      if ok {
        rows := rows[id := rows[id].(digest := Some(digest))];
        InsertEvent(id, Rollout, Some(digest));
      }
    }

    method CollectFailed(ttl: int, now: int) returns (deleted: nat)
      modifies this
      ensures State() == Gc(old(State()), ttl, now) && deleted == |Collectable(old(rows), ttl, now)|
    {
      var gone := Collectable(rows, ttl, now);
      rows := rows - gone;
      events := set e | e in events && e.deployment !in gone;
      deleted := |gone|;
      collected := collected + deleted;
    }

    /** One Applied event: any pending deployment of the application is judged, and at most that one
        changes. */
    method OnApplied(app: nat, available: int, conds: seq<Condition>, pods: seq<Pod>, now: int)
      modifies this
      ensures if exists id :: id in old(rows) && old(rows)[id].app == app && old(rows)[id].status == Pending then
                exists id, v :: id in old(rows) && old(rows)[id].app == app && old(rows)[id].status == Pending
                  && VerdictOk(available, conds, pods, now - old(rows)[id].createdAt, v)
                  && State() == Settle(old(State()), id, v, now)
              else State() == old(State())
    {
      if id :| id in rows && rows[id].app == app && rows[id].status == Pending {
        var v := Decide(available, conds, pods, now - rows[id].createdAt);
        match v {
          case Run => SetRunning(id, now);
          case Fail(reason) => SetFailed(id, reason, now);
          case Wait =>
        }
        assert State() == Settle(old(State()), id, v, now);
      }
    }
  }
}
