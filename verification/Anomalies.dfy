/** Runs from empty tables in which overlapping requests break what separate requests keep. */
module Anomalies {
  import opened Prelude
  import opened Schema
  import opened Handlers
  import opened Invariant
  import opened Statements
  import opened QuotaRuns
  import opened Interleaving
  import opened Tables
  import opened Scenarios
  import opened Races
  import opened Overshoot

  // ---- two completions of one presigned row

  /** The system after registering an application and presigning one digest. */
  ghost function OnePresigned(cfg: Config, name: string): System {
    Idle(cfg, Presigned(name, 1))
  }

  /** The configuration lets an upload of this size in, when nothing is stored yet. */
  predicate Fits(cfg: Config, size: nat) {
    !cfg.TooLarge(size) && (cfg.MaxBytes().Some? ==> size <= cfg.MaxBytes().value <= I64_MAX)
  }

  lemma OneReady(cfg: Config, name: string, size: nat)
    requires !Blank(name) && Fits(cfg, size)
    ensures var s := OnePresigned(cfg, name);
            && s.frames == map[] && s.inits == map[] && Ready(cfg, s.db, name, 0, Digest(0), size)
            && s.db.rows[Digest(0)].id == 0 && s.db.rows[Digest(0)].completedAt.None? && Inv(cfg, s.db)
            && forall d :: d in s.db.rows ==> s.db.rows[d].idem.None?
  {
    hide Ready, Prepared, Digest, Inv, Handle;
    var s := OnePresigned(cfg, name);
    EmptyInv(cfg);
    RunKeeps(cfg, EMPTY_DB, Presigned(name, 1));
    PresignedRun(cfg, name, 1);
    PreparedReady(cfg, s.db, name, 1, 0, size);
    assert Ready(cfg, s.db, name, 0, DigestsFrom(0, 1)[0], size);
    RowAt(s.db, name, 1, 0, 0, 0);
    PendingIncomplete(cfg, s.db, Digest(0));
    NoKeys(s.db, name, 1);
  }

  lemma NoKeys(db: Db, name: string, n: nat)
    requires Prepared(db, name, n, 0, 0)
    ensures forall d :: d in db.rows ==> db.rows[d].idem.None?
  {
    forall d | d in db.rows ensures db.rows[d].idem.None? {
      var i: nat :| i < n && d == Digest(i);
      assert RowIs(db.rows[d], name, i, false);
    }
  }

  lemma PendingIncomplete(cfg: Config, db: Db, d: string)
    requires Inv(cfg, db) && d in db.rows && db.rows[d].status == Pending
    ensures db.rows[d].completedAt.None? && db.rows[d].idem.None?
  {
    assert RowOk(db.rows[d]);
  }

  /** Both requests have passed all checks and are about to write. */
  lemma BothArmed(cfg: Config, k: nat, traffic: Traffic, name: string, x: nat, y: nat) returns (two: System)
    requires k >= 2 && !Blank(name) && Fits(cfg, x) && Fits(cfg, y)
    ensures var s := OnePresigned(cfg, name);
            && Reach(cfg, k, traffic, s, two) && two.db == s.db && two.frames.Keys == {0, 1}
            && Digest(0) in s.db.rows && s.db.rows[Digest(0)].idem.None? && s.db.rows[Digest(0)].id == 0
            && StillThere(two.db, two.frames[0]) && StillThere(two.db, two.frames[1])
            && var row, n := s.db.rows[Digest(0)], CountSeen(cfg, s.db, 0);
               && two.frames[0] == Armed(JobFor(name, Digest(0), x), 0, row, n)
               && two.frames[1] == Armed(JobFor(name, Digest(0), y), 0, row, n)
  {
    OneReady(cfg, name, x);
    OneReady(cfg, name, y);
    hide OnePresigned, Reach, Quota, Admissible, Digest, StoredBytes, Inv, CountSeen;
    var s, d := OnePresigned(cfg, name), Digest(0);
    ReachSelf(cfg, k, traffic, s);
    ArmOne(cfg, k, traffic, s, s, 0, name, 0, d, x);
    var one := s.(frames := s.frames[0 := Armed(JobFor(name, d, x), 0, s.db.rows[d], CountSeen(cfg, s.db, 0))]);
    ArmOne(cfg, k, traffic, s, one, 1, name, 0, d, y);
    two := one.(frames := one.frames[1 := Armed(JobFor(name, d, y), 0, s.db.rows[d], CountSeen(cfg, s.db, 0))]);
  }

  /** In every configuration, with at least two connections, two completions of one presigned digest that
      report different sizes both succeed: the second overwrites the row that the first has stored. */
  lemma StoredRowOverwritten(cfg: Config, k: nat, traffic: Traffic, name: string, x: nat, y: nat)
    returns (t: System, u: System)
    requires k >= 2 && !Blank(name) && Fits(cfg, x) && Fits(cfg, y)
    ensures var s, d := OnePresigned(cfg, name), Digest(0);
            && Reach(cfg, k, traffic, s, t) && Next(cfg, k, traffic, t, u) && Reach(cfg, k, traffic, s, u)
            && StoredAt(t.db.rows, d) && t.db.rows[d].size == x
            && StoredAt(u.db.rows, d) && u.db.rows[d].size == y && u.db.rows[d].id == t.db.rows[d].id == 0
            && u.frames.Keys == {0, 1}
            && forall c :: c in u.frames ==> u.frames[c].pc == LogStored && u.frames[c].id == Some(0)
  {
    var s := OnePresigned(cfg, name);
    var two := BothArmed(cfg, k, traffic, name, x, y);
    hide OnePresigned, Reach, Next, Apply, Digest, CountSeen, StorageKey;
    t := WriteOne(cfg, k, traffic, s, two, 0, 0, 0);
    u := WriteOne(cfg, k, traffic, s, t, 1, 0, 0);
  }

  lemma LogNow(cfg: Config, k: nat, traffic: Traffic, s: System, t: System, c: nat, id: nat) returns (u: System)
    requires Reach(cfg, k, traffic, s, t) && c in t.frames && t.frames[c].pc == LogStored && t.frames[c].id == Some(id)
    requires HasId(t.db.rows, id)
    ensures Reach(cfg, k, traffic, s, u) && u.db.rows == t.db.rows && u.db.nextSerial == t.db.nextSerial + 1
    ensures u.db.events == t.db.events + {Event(t.db.nextSerial, id, StoredEvent)}
    ensures u.frames.Keys == t.frames.Keys && forall o :: o in t.frames && o != c ==> u.frames[o] == t.frames[o]
  {
    hide Reach;
    ReachStep(cfg, k, traffic, s, t, Statement(c, Calm(0)));
    u := Apply(cfg, t, Statement(c, Calm(0)));
  }

  /** The event log is then no longer in bijection with the completed rows: both requests log. */
  lemma TwoStoredEvents(cfg: Config, k: nat, traffic: Traffic, name: string) returns (v: System, e: Event, f: Event)
    requires k >= 2 && !Blank(name)
    requires cfg.MaxBytes().Some? ==> cfg.MaxBytes().value <= I64_MAX
    ensures Reach(cfg, k, traffic, OnePresigned(cfg, name), v)
    ensures e in v.db.events && f in v.db.events && e != f
    ensures e.artifact == f.artifact == 0 && e.kind == f.kind == StoredEvent && HasId(v.db.rows, 0)
  {
    var t, u := StoredRowOverwritten(cfg, k, traffic, name, 0, 0);
    hide Reach, OnePresigned, Digest, Next;
    assert u.db.rows[Digest(0)].id == 0;
    var w := LogNow(cfg, k, traffic, OnePresigned(cfg, name), u, 0, 0);
    v := LogNow(cfg, k, traffic, OnePresigned(cfg, name), w, 1, 0);
    e, f := Event(u.db.nextSerial, 0, StoredEvent), Event(w.db.nextSerial, 0, StoredEvent);
  }

  // ---- a completion and a multipart init

  /** A multipart init that read the pending row and upserts after the completion gives the stored row
      another storage key, under which nothing has been uploaded, and an upload id. */
  lemma InitOverwritesStored(cfg: Config, k: nat, traffic: Traffic, name: string, other: string, x: nat)
    returns (t: System, u: System)
    requires k >= 2 && !Blank(name) && Fits(cfg, x)
    ensures var s, d := OnePresigned(cfg, name), Digest(0);
            && Reach(cfg, k, traffic, s, t) && Next(cfg, k, traffic, t, u) && Reach(cfg, k, traffic, s, u)
            && StoredAt(t.db.rows, d) && t.db.rows[d].storageKey == Some(StorageKey(name, d))
            && StoredAt(u.db.rows, d) && u.db.rows[d].storageKey == Some(StorageKey(other, d))
            && u.db.rows[d].id == t.db.rows[d].id && u.db.rows[d].uploadId == Some("u")
  {
    var s := OnePresigned(cfg, name);
    var two := InitThenArmed(cfg, k, traffic, name, other, x);
    hide OnePresigned, Reach, Digest, CountSeen, StorageKey, Next, Apply;
    t := WriteOne(cfg, k, traffic, s, two, 1, 0, 0);
    u := UpsertNow(cfg, k, traffic, s, t, 0);
  }

  /** The init has read, and then the completion has passed all its checks. */
  lemma InitThenArmed(cfg: Config, k: nat, traffic: Traffic, name: string, other: string, x: nat) returns (two: System)
    requires k >= 2 && !Blank(name) && Fits(cfg, x)
    ensures var s, d := OnePresigned(cfg, name), Digest(0);
            && Reach(cfg, k, traffic, s, two) && two.db == s.db && two.inits == map[0 := InitJob(other, d)]
            && d in s.db.rows && s.db.rows[d].idem.None? && 1 in two.frames && StillThere(two.db, two.frames[1])
            && two.frames[1] == Armed(JobFor(name, d, x), 0, s.db.rows[d], CountSeen(cfg, s.db, 0))
  {
    OneReady(cfg, name, x);
    DigestHex(0);
    hide OnePresigned, Reach, Quota, Admissible, Digest, StoredBytes, Inv, CountSeen, IsHex, Next, Apply, Enabled;
    var s, d := OnePresigned(cfg, name), Digest(0);
    ReachSelf(cfg, k, traffic, s);
    ReadNow(cfg, k, traffic, s, s, 0, other, d);
    var one := s.(inits := s.inits[0 := InitJob(other, d)]);
    ArmOne(cfg, k, traffic, s, one, 1, name, 0, d, x);
    two := one.(frames := one.frames[1 := Armed(JobFor(name, d, x), 0, s.db.rows[d], CountSeen(cfg, s.db, 0))]);
  }

  lemma ReadNow(cfg: Config, k: nat, traffic: Traffic, s: System, t: System, c: nat, app: string, d: string)
    requires Reach(cfg, k, traffic, s, t) && Free(k, t, c) && IsHex(d, 64) && !StoredAt(t.db.rows, d)
    ensures Reach(cfg, k, traffic, s, t.(inits := t.inits[c := InitJob(app, d)]))
  {
    hide Reach, Next, IsHex;
    ReachStep(cfg, k, traffic, s, t, InitRead(c, app, d));
  }

  /** The upsert of an init whose digest has a row by now. */
  lemma UpsertNow(cfg: Config, k: nat, traffic: Traffic, s: System, t: System, c: nat) returns (u: System)
    requires Reach(cfg, k, traffic, s, t) && c in t.inits && t.inits[c].digest in t.db.rows
    ensures Reach(cfg, k, traffic, s, u) && Next(cfg, k, traffic, t, u)
    ensures var job := t.inits[c]; var row := t.db.rows[job.digest];
            u.db.rows == t.db.rows[job.digest :=
              row.(uploadId := Some("u"), storageKey := Some(StorageKey(job.app, job.digest)))]
  {
    hide Reach, StorageKey, Next;
    ReachStep(cfg, k, traffic, s, t, InitUpsert(c, "u", 0));
    u := Apply(cfg, t, InitUpsert(c, "u", 0));
  }

  // ---- two keys for one row

  function KeyedJob(name: string, digest: string, key: string): Job {
    Single(Upload(name, digest, 0, None, Some(key)))
  }

  /** A request with a key that has found the pending row. */
  function Found(job: Job, a: nat, row: Row): Frame {
    Start(job).(app := Some(a), id := Some(row.id), storageKey := row.storageKey, pc := ReadKey)
  }

  lemma KeyedSteps(cfg: Config, db: Db, name: string, a: nat, digest: string, key: string)
    requires Ready(cfg, db, name, a, digest, 0)
    ensures var f0 := Start(KeyedJob(name, digest, key)); var f1 := f0.(app := Some(a), pc := FindRow);
            var f2 := Found(f0.job, a, db.rows[digest]);
            && Advance(cfg, db, f0, Calm(0)) == (db, f1)
            && Advance(cfg, db, f1, Calm(0)) == (db, f2)
            && Advance(cfg, db, f2, Calm(0)) == (db, f2.(pc := Link))
            && Advance(cfg, db, f2.(pc := Link), Calm(0)) == (db, f2.(pc := Inspect))
            && Advance(cfg, db, f2.(pc := Inspect), Calm(0)) ==
               (db, f2.(pc := if cfg.MaxCount().Some? || cfg.MaxBytes().Some? then CountRows else Write))
  {
    hide Admissible, Quota, StoredBytes;
    assert db.rows[digest := db.rows[digest]] == db.rows;
  }

  lemma FindKeyed(cfg: Config, k: nat, traffic: Traffic, s: System, t: System, c: nat, name: string, a: nat,
                  digest: string, key: string)
    requires Reach(cfg, k, traffic, s, t) && Free(k, t, c) && Ready(cfg, t.db, name, a, digest, 0) && !traffic.derived
    ensures var f := Found(KeyedJob(name, digest, key), a, t.db.rows[digest]);
            Reach(cfg, k, traffic, s, t.(frames := t.frames[c := f]))
  {
    var f0 := Start(KeyedJob(name, digest, key));
    KeyedSteps(cfg, t.db, name, a, digest, key);
    hide Reach, Advance, Quota, IsHex, Blank;
    ReachStep(cfg, k, traffic, s, t, Begin(c, f0.job));
    hide Apply;
    var f1 := f0.(app := Some(a), pc := FindRow);
    PathStep(cfg, k, traffic, s, t, c, Calm(0), f0, f1);
    PathStep(cfg, k, traffic, s, t, c, Calm(0), f1, Found(f0.job, a, t.db.rows[digest]));
  }

  lemma ArmKeyed(cfg: Config, k: nat, traffic: Traffic, s: System, t: System, c: nat, name: string, a: nat,
                 digest: string, key: string)
    requires Reach(cfg, k, traffic, s, t) && Free(k, t, c) && Ready(cfg, t.db, name, a, digest, 0) && !traffic.derived
    ensures var f := Found(KeyedJob(name, digest, key), a, t.db.rows[digest])
                       .(pc := Write, count := CountSeen(cfg, t.db, a));
            Reach(cfg, k, traffic, s, t.(frames := t.frames[c := f]))
  {
    var f2, env := Found(KeyedJob(name, digest, key), a, t.db.rows[digest]), Calm(0);
    FindKeyed(cfg, k, traffic, s, t, c, name, a, digest, key);
    KeyedSteps(cfg, t.db, name, a, digest, key);
    QuotaSteps(cfg, t.db, a, f2, 0);
    hide Reach, Advance, Quota, Admissible, StoredCount, StoredBytes;
    PathStep(cfg, k, traffic, s, t, c, env, f2, f2.(pc := Link));
    PathStep(cfg, k, traffic, s, t, c, env, f2.(pc := Link), f2.(pc := Inspect));
    if cfg.MaxCount().Some? || cfg.MaxBytes().Some? {
      var n := StoredCount(t.db.rows, a);
      PathStep(cfg, k, traffic, s, t, c, env, f2.(pc := Inspect), f2.(pc := CountRows));
      PathStep(cfg, k, traffic, s, t, c, env, f2.(pc := CountRows), f2.(count := n, pc := SumBytes));
      PathStep(cfg, k, traffic, s, t, c, env, f2.(count := n, pc := SumBytes), f2.(count := n, pc := Write));
    } else {
      PathStep(cfg, k, traffic, s, t, c, env, f2.(pc := Inspect), f2.(pc := Write));
    }
  }

  /** Two completions of one presigned row with different keys: the second finds the row pending, and then
      compares its key with the one that the first has bound meanwhile. Only overlap reaches this conflict. */
  lemma SameRowConflict(cfg: Config, k: nat, traffic: Traffic, name: string) returns (u: System)
    requires k >= 2 && !traffic.derived && !Blank(name)
    requires cfg.MaxBytes().Some? ==> cfg.MaxBytes().value <= I64_MAX
    ensures Reach(cfg, k, traffic, OnePresigned(cfg, name), u)
    ensures 1 in u.frames && u.frames[1].reply == Some(Fail(IdempotencyConflict))
  {
    OneReady(cfg, name, 0);
    hide OnePresigned, Reach, Digest, Ready, CountSeen, StorageKey, Inv, Quota;
    var s, d := OnePresigned(cfg, name), Digest(0);
    assert d in s.db.rows && !IdemTaken(s.db.rows, d, Some("a")) by { ReadyRow(cfg, s.db, name, 0, d, 0); }
    var b := Found(KeyedJob(name, d, "b"), 0, s.db.rows[d]);
    var a := Found(KeyedJob(name, d, "a"), 0, s.db.rows[d]).(pc := Write, count := CountSeen(cfg, s.db, 0));
    ReachSelf(cfg, k, traffic, s);
    FindKeyed(cfg, k, traffic, s, s, 1, name, 0, d, "b");
    var one := s.(frames := s.frames[1 := b]);
    ArmKeyed(cfg, k, traffic, s, one, 0, name, 0, d, "a");
    var two := one.(frames := one.frames[0 := a]);
    hide Advance, Apply;
    var t := WriteOne(cfg, k, traffic, s, two, 0, 0, 0);
    assert t.db.rows[d].idem == Some("a") && t.db.rows[d].id == s.db.rows[d].id && t.frames[1] == b;
    u := CompareNow(cfg, k, traffic, s, t, 1);
  }

  lemma ReadyRow(cfg: Config, db: Db, name: string, a: nat, d: string, size: int)
    requires Ready(cfg, db, name, a, d, size)
    ensures d in db.rows && db.rows[d].idem.None?
  {
  }

  lemma CompareNow(cfg: Config, k: nat, traffic: Traffic, s: System, t: System, c: nat) returns (u: System)
    requires Reach(cfg, k, traffic, s, t) && c in t.frames && t.frames[c].pc == ReadKey && StillThere(t.db, t.frames[c])
    requires var row, up := t.db.rows[t.frames[c].job.up.digest], t.frames[c].job.up;
             row.idem.Some? && row.idem != up.idem
    ensures Reach(cfg, k, traffic, s, u)
    ensures c in u.frames && u.frames[c].reply == Some(Fail(IdempotencyConflict))
  {
    hide Reach;
    ReachStep(cfg, k, traffic, s, t, Statement(c, Calm(0)));
    u := Apply(cfg, t, Statement(c, Calm(0)));
  }

  // ---- a handler that is dropped between its write and its clean-up

  lemma PendingUnlogged(cfg: Config, db: Db, d: string)
    requires Inv(cfg, db) && d in db.rows && db.rows[d].status == Pending
    ensures forall e :: e in db.events ==> e.artifact != db.rows[d].id
  {
    assert RowOk(db.rows[d]);
    forall e | e in db.events ensures e.artifact != db.rows[d].id { assert CompletedId(db.rows, e.artifact); }
  }

  /** One handler is dropped right after its write: without any request in flight, its row has no event, and
      the application has one row more than retention allows. */
  lemma DroppedHandler(cfg: Config, k: nat, traffic: Traffic, name: string) returns (u: System)
    requires k >= 1 && traffic.aborts && !Blank(name) && 0 < cfg.Retain() && cfg.Retain() + 1 < DIGESTS
    requires cfg.MaxCount().Some? ==> cfg.Retain() < cfg.MaxCount().value
    requires cfg.MaxBytes().Some? ==> cfg.MaxBytes().value <= I64_MAX
    ensures var n := cfg.Retain(); Reach(cfg, k, traffic, Idle(cfg, Filled(name, n + 1, 0, n)), u)
    ensures u.frames == map[] && StoredCount(u.db.rows, 0) == cfg.Retain() + 1
    ensures var d := Digest(cfg.Retain());
            && d in u.db.rows && u.db.rows[d].completedAt.Some?
            && forall e :: e in u.db.events ==> e.artifact != u.db.rows[d].id
  {
    hide Reach, Digest, Ready, CountSeen, StorageKey, Inv, Quota, Filled, Prepared, StoredCount, Blank, StoredBytes;
    var n := cfg.Retain();
    var s, d := Idle(cfg, Filled(name, n + 1, 0, n)), Digest(n);
    FilledRun(cfg, name, n + 1, 0, n);
    PreparedReady(cfg, s.db, name, n + 1, n, 0);
    assert Ready(cfg, s.db, name, 0, DigestsFrom(n, 1)[0], 0);
    RowAt(s.db, name, n + 1, 0, n, n);
    PendingUnlogged(cfg, s.db, d);
    ReachSelf(cfg, k, traffic, s);
    ArmOne(cfg, k, traffic, s, s, 0, name, 0, d, 0);
    var one := s.(frames := s.frames[0 := Armed(JobFor(name, d, 0), 0, s.db.rows[d], CountSeen(cfg, s.db, 0))]);
    assert !IdemTaken(s.db.rows, d, None);
    hide Advance, Apply;
    var t := WriteOne(cfg, k, traffic, s, one, 0, 0, 0);
    InsertAdds(s.db.rows, d, t.db.rows[d], 0);
    u := DropNow(cfg, k, traffic, s, t, 0);
  }

  lemma DropNow(cfg: Config, k: nat, traffic: Traffic, s: System, t: System, c: nat) returns (u: System)
    requires Reach(cfg, k, traffic, s, t) && c in t.frames && traffic.aborts
    ensures Reach(cfg, k, traffic, s, u) && u == t.(frames := t.frames - {c})
  {
    hide Reach;
    ReachStep(cfg, k, traffic, s, t, Abort(c));
    u := Apply(cfg, t, Abort(c));
  }

  // ---- completions that name an application before it is registered

  const NOTHING: System := System(EMPTY_DB, map[], map[])

  /** A digest without a row, up to the point where the keys are loaded; the application is unknown. */
  lemma UnknownApp(cfg: Config, k: nat, traffic: Traffic, job: Job) returns (t: System)
    requires k >= 1 && !traffic.named && job.Single? && job.up.idem.None? && Admissible(cfg, job) && !cfg.requirePresign
    ensures t == NOTHING.(frames := map[0 := Start(job).(pc := LoadKeys)])
    ensures Reach(cfg, k, traffic, NOTHING, t)
  {
    hide Reach, Next, Admissible;
    var f0 := Start(job);
    ReachSelf(cfg, k, traffic, NOTHING);
    ReachStep(cfg, k, traffic, NOTHING, NOTHING, Begin(0, job));
    assert NOTHING.frames[0 := f0] == map[0 := f0];
    hide Apply;
    PathStep(cfg, k, traffic, NOTHING, NOTHING, 0, Calm(0), f0, f0.(pc := FindRow));
    PathStep(cfg, k, traffic, NOTHING, NOTHING, 0, Calm(0), f0.(pc := FindRow), f0.(pc := LoadKeys));
    t := NOTHING.(frames := NOTHING.frames[0 := f0.(pc := LoadKeys)]);
  }

  /** The request verifies the signature for the application that has been registered meanwhile, and then
      inserts a row without one. */
  lemma LateVerdict(cfg: Config, db: Db, up: Upload, publicKey: string)
    requires db.rows == map[] && up.signature.Some? && up.idem.None? && IsHex(up.signature.value, 128)
    requires up.app in db.apps && (db.apps[up.app], publicKey) in db.keys && db.keys[(db.apps[up.app], publicKey)]
    requires cfg.verifies(publicKey, up.digest, up.signature.value)
    ensures var f := Start(Single(up)).(pc := LoadKeys); var g := f.(verified := true, pc := Write);
            && Advance(cfg, db, f, Calm(0)) == (db, g)
            && var rows' := Advance(cfg, db, g, Calm(0)).0.rows;
               up.digest in rows' && rows'[up.digest].verified && rows'[up.digest].app.None?
  {
    hide StorageKey, IsHex;
    assert SignedBy(cfg, db.keys, db.apps[up.app], up.digest, up.signature.value);
  }

  /** Even with one connection, a completion may name an application that is registered only after it looked
      for it: its row is then marked verified and belongs to no application. */
  lemma VerifiedWithoutApp(cfg: Config, k: nat, traffic: Traffic, name: string, publicKey: string, sig: string)
    returns (u: System)
    requires k >= 1 && !traffic.named && !Blank(name) && !cfg.requirePresign && IsHex(sig, 128)
    requires cfg.verifies(publicKey, Digest(0), sig)
    ensures Reach(cfg, k, traffic, NOTHING, u)
    ensures Digest(0) in u.db.rows && u.db.rows[Digest(0)].verified && u.db.rows[Digest(0)].app.None?
  {
    DigestHex(0);
    hide Reach, Next, IsHex, Digest, Blank;
    var up := Upload(name, Digest(0), 0, Some(sig), None);
    var f := Start(Single(up)).(pc := LoadKeys);
    var t := UnknownApp(cfg, k, traffic, Single(up));
    ReachStep(cfg, k, traffic, NOTHING, t, Register(name));
    var db1 := RegisterApp(EMPTY_DB, name).db;
    ReachStep(cfg, k, traffic, NOTHING, t.(db := db1), RegisterKey(0, publicKey));
    var v := t.(db := db1.(keys := db1.keys[(0, publicKey) := true]));
    LateVerdict(cfg, v.db, up, publicKey);
    hide Advance;
    assert v.frames[0 := f] == v.frames;
    PathStep(cfg, k, traffic, NOTHING, v, 0, Calm(0), f, f.(verified := true, pc := Write));
    var w := v.(frames := v.frames[0 := f.(verified := true, pc := Write)]);
    ReachStep(cfg, k, traffic, NOTHING, w, Statement(0, Calm(0)));
    u := Apply(cfg, w, Statement(0, Calm(0)));
  }

  /** A presigned row of an application that is not registered. */
  function Orphan(name: string, d: string): Db {
    InsertRow(EMPTY_DB, d, PendingRow(None, StorageKey(name, d), None, 0))
  }

  lemma OrphanSteps(cfg: Config, name: string, d: string, size: nat)
    ensures var f0, row := Start(JobFor(name, d, size)), Orphan(name, d).rows[d];
            var f1 := f0.(pc := FindRow);
            var f2 := f0.(id := Some(0), storageKey := row.storageKey, pc := Inspect);
            && Advance(cfg, Orphan(name, d), f0, Calm(0)) == (Orphan(name, d), f1)
            && Advance(cfg, Orphan(name, d), f1, Calm(0)) == (Orphan(name, d), f2)
            && Advance(cfg, Orphan(name, d), f2, Calm(0)) == (Orphan(name, d), f2.(pc := Write))
  {
    hide StorageKey;
  }

  /** The first request has passed all its checks, none of which was about a quota. */
  lemma OrphanArmed(cfg: Config, k: nat, traffic: Traffic, name: string, size: nat) returns (t: System)
    requires k >= 1 && !traffic.named && !Blank(name) && !cfg.TooLarge(size)
    ensures Reach(cfg, k, traffic, NOTHING, t) && t.inits == map[] && t.db == Orphan(name, Digest(0))
    ensures var row := t.db.rows[Digest(0)];
            t.frames == map[0 := Start(JobFor(name, Digest(0), size))
                                   .(id := Some(0), storageKey := row.storageKey, pc := Write)]
  {
    DigestHex(0);
    hide Reach, Next, IsHex, Digest, Blank, StorageKey;
    var d, f0 := Digest(0), Start(JobFor(name, Digest(0), size));
    ReachSelf(cfg, k, traffic, NOTHING);
    ReachStep(cfg, k, traffic, NOTHING, NOTHING, PresignInsert(name, d, false, 0));
    var p := NOTHING.(db := Orphan(name, d));
    ReachStep(cfg, k, traffic, NOTHING, p, Begin(0, JobFor(name, d, size)));
    OrphanSteps(cfg, name, d, size);
    hide Advance, Apply;
    var f2 := f0.(id := Some(0), storageKey := p.db.rows[d].storageKey, pc := Inspect);
    PathStep(cfg, k, traffic, NOTHING, p, 0, Calm(0), f0, f0.(pc := FindRow));
    PathStep(cfg, k, traffic, NOTHING, p, 0, Calm(0), f0.(pc := FindRow), f2);
    PathStep(cfg, k, traffic, NOTHING, p, 0, Calm(0), f2, f2.(pc := Write));
    t := p.(frames := p.frames[0 := f2.(pc := Write)]);
  }

  /** The second request finds the row, and the application that has been registered meanwhile. */
  lemma OrphanFound(cfg: Config, k: nat, traffic: Traffic, name: string, size: nat) returns (t: System)
    requires k >= 2 && !traffic.named && !Blank(name) && !cfg.TooLarge(size)
    ensures Reach(cfg, k, traffic, NOTHING, t) && t.frames.Keys == {0, 1}
    ensures var d, key := Digest(0), Some(StorageKey(name, Digest(0))); var f := Start(JobFor(name, d, size));
            && t.db == RegisterApp(Orphan(name, d), name).db
            && t.frames[0] == f.(id := Some(0), storageKey := key, pc := Write)
            && t.frames[1] == f.(app := Some(0), id := Some(0), storageKey := key, pc := Link)
  {
    var u := OrphanArmed(cfg, k, traffic, name, size);
    DigestHex(0);
    hide Reach, Next, IsHex, Digest, Blank, StorageKey;
    var d := Digest(0);
    var f := Start(JobFor(name, d, size));
    var f1 := f.(app := Some(0), pc := FindRow);
    var f2 := f1.(id := Some(0), storageKey := Some(StorageKey(name, d)), pc := Link);
    ReachStep(cfg, k, traffic, NOTHING, u, Register(name));
    var v := u.(db := RegisterApp(Orphan(name, d), name).db);
    ReachStep(cfg, k, traffic, NOTHING, v, Begin(1, JobFor(name, d, size)));
    assert Advance(cfg, v.db, f, Calm(0)) == (v.db, f1) && Advance(cfg, v.db, f1, Calm(0)) == (v.db, f2);
    hide Advance, Apply;
    PathStep(cfg, k, traffic, NOTHING, v, 1, Calm(0), f, f1);
    PathStep(cfg, k, traffic, NOTHING, v, 1, Calm(0), f1, f2);
    t := v.(frames := v.frames[1 := f2]);
  }

  /** With two connections, a completion that looked for its application too early, and another that came
      late enough to link the row that the first has stored, bring any number of bytes past any quota. */
  lemma UnregisteredBypass(cfg: Config, k: nat, traffic: Traffic, name: string, size: nat) returns (w: System)
    requires k >= 2 && !traffic.named && !Blank(name) && !cfg.TooLarge(size)
    ensures Reach(cfg, k, traffic, NOTHING, w) && w.db.apps == map[name := 0] && StoredBytes(w.db.rows, 0) == size
  {
    var t := OrphanFound(cfg, k, traffic, name, size);
    OrphanStored(cfg, t, name, size);
    hide Reach, Next, Digest, Blank, StorageKey;
    ReachStep(cfg, k, traffic, NOTHING, t, Statement(0, Calm(0)));
    hide Advance;
    var v := Apply(cfg, t, Statement(0, Calm(0)));
    ReachStep(cfg, k, traffic, NOTHING, v, Statement(1, Calm(0)));
    w := Apply(cfg, v, Statement(1, Calm(0)));
  }

  /** The first writes, then the second links. */
  lemma OrphanStored(cfg: Config, t: System, name: string, size: nat)
    requires t.frames.Keys == {0, 1} && t.db == RegisterApp(Orphan(name, Digest(0)), name).db
    requires var d, key := Digest(0), Some(StorageKey(name, Digest(0))); var f := Start(JobFor(name, d, size));
             && t.frames[0] == f.(id := Some(0), storageKey := key, pc := Write)
             && t.frames[1] == f.(app := Some(0), id := Some(0), storageKey := key, pc := Link)
    ensures var v := Apply(cfg, t, Statement(0, Calm(0))); var w := Apply(cfg, v, Statement(1, Calm(0)));
            && v.frames.Keys == {0, 1} && w.db.apps == map[name := 0] && StoredBytes(w.db.rows, 0) == size
  {
    hide Digest, StorageKey;
    var d := Digest(0);
    assert !IdemTaken(t.db.rows, d, None);
    var final := Finalized(t.db.rows[d], None, UploadOf(name, d, size), Some(StorageKey(name, d)), 0);
    assert Advance(cfg, t.db, t.frames[0], Calm(0)).0 == t.db.(rows := map[d := final]);
    var v := Apply(cfg, t, Statement(0, Calm(0)));
    assert Advance(cfg, v.db, v.frames[1], Calm(0)).0 == v.db.(rows := map[d := final.(app := Some(0))]);
    hide Advance;
    SingleRowBytes(d, final, 0);
  }

  lemma SingleRowBytes(d: string, row: Row, a: nat)
    requires row.app.None? && row.status == Stored
    ensures StoredBytes(map[d := row.(app := Some(a))], a) == row.size
  {
    var rows: Rows := map[d := row];
    assert StoredOf(rows, a) == {} && SizesOf(rows, a) == map[];
    InsertAdds(rows, d, row.(app := Some(a)), a);
    assert rows[d := row.(app := Some(a))] == map[d := row.(app := Some(a))];
  }
}
