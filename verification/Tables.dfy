/** Which table invariants survive when statements of different requests interleave, and which do not. */
module Tables {
  import opened Prelude
  import opened Schema
  import opened Handlers
  import opened Invariant
  import opened Statements
  import opened Interleaving

  // ---- where runs start

  /** No request is in flight, and the tables are as separate requests leave them. */
  ghost predicate Quiescent(cfg: Config, s: System) {
    s.frames == map[] && s.inits == map[] && Inv(cfg, s.db)
  }

  /** The system after a run of requests that never overlapped. */
  ghost function Idle(cfg: Config, calls: seq<Call>): System {
    System(Run(cfg, EMPTY_DB, calls), map[], map[])
  }

  lemma IdleIsQuiescent(cfg: Config, calls: seq<Call>)
    ensures Quiescent(cfg, Idle(cfg, calls))
  {
    EmptyInv(cfg);
    RunKeeps(cfg, EMPTY_DB, calls);
  }

  // ---- what one statement may do

  function FinalRow(db: Db, f: Frame, now: int): Row
    requires f.job.up.digest in db.rows
  {
    var up, row := f.job.up, db.rows[f.job.up.digest];
    Finalized(row, f.app, up, if f.job.Single? then Some(StorageKey(up.app, up.digest)) else row.storageKey, now)
  }

  function FreshRow(f: Frame, now: int): Row {
    var up := f.job.up;
    Row(0, f.app, up.size, up.signature, f.verified, Some(StorageKey(up.app, up.digest)), Stored,
        now, Some(now), up.idem, None)
  }

  /** The write is the UPDATE of the row that the request found. */
  predicate Updates(db: Db, f: Frame, now: int, db': Db) {
    && StillThere(db, f) && !IdemTaken(db.rows, f.job.up.digest, FinalRow(db, f, now).idem)
    && db' == db.(rows := db.rows[f.job.up.digest := FinalRow(db, f, now)])
  }

  /** The write is the INSERT of a row that nobody else has inserted meanwhile. */
  predicate Inserts(db: Db, f: Frame, now: int, db': Db) {
    && f.id.None? && f.job.up.digest !in db.rows && !IdemTaken(db.rows, f.job.up.digest, f.job.up.idem)
    && db' == InsertRow(db, f.job.up.digest, FreshRow(f, now))
  }

  /** Only these statements change anything, and this is all they change. */
  lemma StatementEffect(cfg: Config, db: Db, f: Frame, env: Env)
    ensures var db' := Advance(cfg, db, f, env).0;
            && (f.pc !in {Link, Write, LogStored, LogDelete, DeleteObsolete} ==> db' == db)
            && (f.pc == Link ==> db' == db || (StillThere(db, f) && db' == Backfill(db, f.job.up.digest, f.app)))
            && (f.pc == Write ==> db' == db || Updates(db, f, env.now, db') || Inserts(db, f, env.now, db'))
            && (f.pc == DeleteObsolete ==> db' == DeleteIds(db, f.obsolete))
            && (f.pc == LogStored ==> db' == if f.id.Some? then LogEvent(db, f.id.value, StoredEvent) else db)
            && (f.pc == LogDelete ==>
                  db' == db || exists id :: id in f.left && db' == LogEvent(db, id, RetentionDelete))
  {
    hide SignatureOk, IdemTaken, RemoteCheck, StorageKey, OrElse, StoredCount, StoredBytes, Wrap64, Obsolete, IdsOf,
         LogEvent, DeleteIds, Finalized, InsertRow, FindStep;
  }

  predicate BeforeWrite(f: Frame) {
    f.pc !in {LogStored, PickObsolete, LogDelete, DeleteObsolete, Done}
  }

  /** How a frame moves on: it keeps its job; it takes an id only from a pending row that it finds, or from
      its own insert; and it never goes back before its write. */
  lemma FrameEffect(cfg: Config, db: Db, f: Frame, env: Env)
    ensures var (db', f') := Advance(cfg, db, f, env); var d := f.job.up.digest;
            && f'.job == f.job
            && (f'.id == f.id
                || (f.pc == FindRow && d in db.rows && db.rows[d].status == Pending && f'.id == Some(db.rows[d].id))
                || (f.pc == Write && f'.pc == LogStored && Inserts(db, f, env.now, db') && f'.id == Some(db.nextId)))
            && (BeforeWrite(f') ==> BeforeWrite(f))
            && (f'.pc == LogStored ==>
                  f.pc == Write && f'.id.Some? && (Updates(db, f, env.now, db') || Inserts(db, f, env.now, db')))
            && (f.pc == Write ==> f'.pc == LogStored || (f'.pc == Done && db' == db))
  {
    hide SignatureOk, IdemTaken, RemoteCheck, StorageKey, OrElse, StoredCount, StoredBytes, Wrap64, Obsolete, IdsOf,
         LogEvent, DeleteIds, Finalized, Backfill;
  }

  // ---- ids and idempotency keys

  /** Ids are issued once, and requests hold only issued ones. */
  ghost predicate IdsSound(s: System) {
    IdsOk(s.db) && forall c :: c in s.frames && s.frames[c].id.Some? ==> s.frames[c].id.value < s.db.nextId
  }

  lemma UpdateKeeps(db: Db, f: Frame, now: int, db': Db)
    requires IdsOk(db) && IdemsOk(db.rows) && (Updates(db, f, now, db') || Inserts(db, f, now, db'))
    ensures IdsOk(db') && IdemsOk(db'.rows) && db.nextId <= db'.nextId
  {
    var d := f.job.up.digest;
    assert forall e :: e in db.rows && e != d ==> db'.rows[e] == db.rows[e];
    assert forall e :: e in db'.rows && e != d ==> e in db.rows;
    hide StorageKey;
  }

  lemma StatementKeepsKeys(cfg: Config, s: System, c: nat, env: Env)
    requires IdsSound(s) && IdemsOk(s.db.rows) && c in s.frames
    ensures var s' := Apply(cfg, s, Statement(c, env)); IdsSound(s') && IdemsOk(s'.db.rows)
  {
    var f := s.frames[c];
    StatementEffect(cfg, s.db, f, env);
    FrameEffect(cfg, s.db, f, env);
    hide Advance, Updates, Inserts;
    var db' := Advance(cfg, s.db, f, env).0;
    if f.pc == Write && db' != s.db {
      UpdateKeeps(s.db, f, env.now, db');
      IssuedId(s.db, f, env.now, db');
    } else if f.pc == Link && db' != s.db {
      TouchKeepsKeys(s.db, f.job.up.digest, s.db.rows[f.job.up.digest].(app := f.app));
    } else if f.pc == DeleteObsolete {
      DeleteKeepsKeys(s.db, f.obsolete);
    }
    hide IdsOk, IdemsOk, HasId, StillThere, DeleteIds;
  }

  lemma DeleteKeepsKeys(db: Db, ids: set<nat>)
    requires IdsOk(db) && IdemsOk(db.rows)
    ensures var db' := DeleteIds(db, ids); IdsOk(db') && IdemsOk(db'.rows) && db'.nextId == db.nextId
  {
  }

  lemma IssuedId(db: Db, f: Frame, now: int, db': Db)
    ensures Inserts(db, f, now, db') ==> db'.nextId == db.nextId + 1
  {
  }

  lemma InsertKeepsKeys(db: Db, d: string, row: Row)
    requires IdsOk(db) && IdemsOk(db.rows) && d !in db.rows && row.idem.None?
    ensures var db' := InsertRow(db, d, row); IdsOk(db') && IdemsOk(db'.rows)
  {
  }

  lemma TouchKeepsKeys(db: Db, d: string, row: Row)
    requires IdsOk(db) && IdemsOk(db.rows) && d in db.rows && row.id == db.rows[d].id && row.idem == db.rows[d].idem
    ensures var db' := db.(rows := db.rows[d := row]); IdsOk(db') && IdemsOk(db'.rows)
  {
  }

  lemma UpsertKeepsKeys(db: Db, job: InitJob, uploadId: string, now: int)
    requires IdsOk(db) && IdemsOk(db.rows)
    ensures var db' := Upsert(db, job, uploadId, now); IdsOk(db') && IdemsOk(db'.rows) && db.nextId <= db'.nextId
  {
    var key := Some(StorageKey(job.app, job.digest));
    if job.digest in db.rows {
      TouchKeepsKeys(db, job.digest, db.rows[job.digest].(uploadId := Some(uploadId), storageKey := key));
    } else {
      InsertKeepsKeys(db, job.digest, PendingRow(None, key.value, Some(uploadId), now));
    }
    hide IdsOk, IdemsOk;
  }

  lemma StepKeepsKeys(cfg: Config, k: nat, s: System, step: Step)
    requires IdsSound(s) && IdemsOk(s.db.rows) && Enabled(cfg, k, s, step)
    ensures var s' := Apply(cfg, s, step); IdsSound(s') && IdemsOk(s'.db.rows)
  {
    match step
    case Statement(c, env) => StatementKeepsKeys(cfg, s, c, env);
    case InitUpsert(c, uploadId, now) =>
      UpsertKeepsKeys(s.db, s.inits[c], uploadId, now);
      hide Upsert, IdsOk, IdemsOk;
    case PresignInsert(app, digest, linked, now) =>
      if digest !in s.db.rows {
        var link := if linked then AppNamed(s.db.apps, app) else None;
        InsertKeepsKeys(s.db, digest, PendingRow(link, StorageKey(app, digest), None, now));
        hide IdsOk, IdemsOk, StorageKey, IsHex, Blank;
      }
    case LegacyInsert(app, digest, size, sig, linked, verified, now) =>
      if digest !in s.db.rows {
        var link := if linked then AppNamed(s.db.apps, app) else None;
        InsertKeepsKeys(s.db, digest, LegacyRow(link, size, sig, verified, now));
        hide IdsOk, IdemsOk, IsHex, SignedBy;
      }
    case PendingGc(_) =>
    case _ => hide IdsOk, IdemsOk, Admissible;
  }

  lemma {:induction false} KeysKept(cfg: Config, k: nat, t: Traffic, states: seq<System>, i: nat)
    requires Behavior(cfg, k, t, states) && Quiescent(cfg, states[0]) && i < |states|
    ensures IdsSound(states[i]) && IdemsOk(states[i].db.rows)
    decreases i
  {
    if i > 0 {
      hide IdsSound, IdemsOk, Enabled, Apply, Allowed;
      KeysKept(cfg, k, t, states, i - 1);
      var step := StepAt(cfg, k, t, states, i - 1);
      StepKeepsKeys(cfg, k, states[i - 1], step);
    }
  }

  /** Over every interleaving, whatever it contains, rows have distinct ids and bound idempotency keys belong
      to one row each: the unique index holds where the handlers' own checks are overtaken. */
  lemma KeysStayInjective(cfg: Config, k: nat, t: Traffic, states: seq<System>, i: nat)
    requires Behavior(cfg, k, t, states) && Quiescent(cfg, states[0]) && i < |states|
    ensures DistinctIds(states[i].db.rows) && IdemsOk(states[i].db.rows)
  {
    KeysKept(cfg, k, t, states, i);
  }

  // ---- verified rows

  /** The request's application is registered and the one it resolved, and its verdict on the signature,
      if positive, is right for that application. */
  ghost predicate FrameSigned(cfg: Config, apps: map<string, nat>, keys: map<(nat, string), bool>, f: Frame) {
    var up := f.job.up;
    && up.app in apps
    && (Unresolved(f) || f.app == Some(apps[up.app]))
    && (f.verified && BeforeWrite(f) ==>
          && f.app == Some(apps[up.app]) && up.signature.Some?
          && SignedBy(cfg, keys, apps[up.app], up.digest, up.signature.value))
  }

  ghost predicate Signed(cfg: Config, s: System) {
    && VerifiedOk(cfg, s.db)
    && forall c :: c in s.frames ==> FrameSigned(cfg, s.db.apps, s.db.keys, s.frames[c])
  }

  lemma FrameStaysSigned(cfg: Config, db: Db, f: Frame, env: Env)
    requires FrameSigned(cfg, db.apps, db.keys, f)
    ensures FrameSigned(cfg, db.apps, db.keys, Advance(cfg, db, f, env).1)
  {
    hide SignedBy, IdemTaken, RemoteCheck, StorageKey, OrElse, StoredCount, StoredBytes, Wrap64, Obsolete, IdsOf,
         LogEvent, DeleteIds, Finalized, Backfill, InsertRow;
  }

  lemma WriteKeepsSigned(cfg: Config, db: Db, f: Frame, now: int, db': Db)
    requires VerifiedOk(cfg, db) && FrameSigned(cfg, db.apps, db.keys, f) && f.pc in {Link, Write}
    requires Updates(db, f, now, db') || Inserts(db, f, now, db')
             || (StillThere(db, f) && db' == Backfill(db, f.job.up.digest, f.app))
    ensures VerifiedOk(cfg, db')
  {
    hide SignedBy, StorageKey, IdemTaken;
    var d := f.job.up.digest;
    assert VerifiedRow(cfg, db'.keys, d, db'.rows[d]);
    forall e | e in db'.rows && e != d ensures VerifiedRow(cfg, db'.keys, e, db'.rows[e]) {
      assert db'.rows[e] == db.rows[e] && VerifiedRow(cfg, db.keys, e, db.rows[e]);
    }
  }

  lemma StatementKeepsSigned(cfg: Config, s: System, c: nat, env: Env)
    requires Signed(cfg, s) && c in s.frames
    ensures Signed(cfg, Apply(cfg, s, Statement(c, env)))
  {
    var f := s.frames[c];
    var db' := Advance(cfg, s.db, f, env).0;
    StatementEffect(cfg, s.db, f, env);
    FrameStaysSigned(cfg, s.db, f, env);
    SameApps(cfg, s.db, f, env);
    hide Advance, Updates, Inserts, SignedBy, VerifiedRow, Backfill;
    if f.pc in {Link, Write} && db' != s.db { WriteKeepsSigned(cfg, s.db, f, env.now, db'); }
  }

  lemma SameApps(cfg: Config, db: Db, f: Frame, env: Env)
    ensures var db' := Advance(cfg, db, f, env).0; db'.apps == db.apps && db'.keys == db.keys
  {
    hide SignatureOk, IdemTaken, RemoteCheck, StorageKey, OrElse, StoredCount, StoredBytes, Wrap64, Obsolete, IdsOf,
         Finalized, FindStep;
  }

  /** A registered key verifies what it verified before, and so do the older ones. */
  lemma KeyKeepsSigned(cfg: Config, s: System, owner: nat, publicKey: string)
    requires Signed(cfg, s)
    ensures Signed(cfg, Apply(cfg, s, RegisterKey(owner, publicKey)))
  {
    var keys, keys' := s.db.keys, s.db.keys[(owner, publicKey) := true];
    forall a, d, sig | SignedBy(cfg, keys, a, d, sig) ensures SignedBy(cfg, keys', a, d, sig) {
      var k :| k in keys && k.0 == a && keys[k] && cfg.verifies(k.1, d, sig);
      assert k in keys' && keys'[k];
    }
    hide SignedBy;
    forall d | d in s.db.rows ensures VerifiedRow(cfg, keys', d, s.db.rows[d]) {
      assert VerifiedRow(cfg, keys, d, s.db.rows[d]);
    }
  }

  lemma BackgroundKeepsSigned(cfg: Config, k: nat, t: Traffic, s: System, step: Step)
    requires Signed(cfg, s) && Enabled(cfg, k, s, step) && !step.Statement? && !step.RegisterKey?
    requires t.named && Allowed(cfg, t, s, step)
    ensures Signed(cfg, Apply(cfg, s, step))
  {
    hide SignedBy, StorageKey, Admissible, IsHex, Blank, FrameSigned;
    if step.Begin? { BeginSigned(cfg, s.db, step.job); }
    if step.Register? { RegisterSigned(cfg, s, step.name); }
  }

  lemma BeginSigned(cfg: Config, db: Db, job: Job)
    requires job.up.app in db.apps
    ensures FrameSigned(cfg, db.apps, db.keys, Start(job))
  {
  }

  lemma RegisterSigned(cfg: Config, s: System, name: string)
    requires forall c :: c in s.frames ==> FrameSigned(cfg, s.db.apps, s.db.keys, s.frames[c])
    ensures var db' := RegisterApp(s.db, name).db;
            forall c :: c in s.frames ==> FrameSigned(cfg, db'.apps, db'.keys, s.frames[c])
  {
    hide SignedBy;
  }

  lemma StepKeepsSigned(cfg: Config, k: nat, t: Traffic, s: System, step: Step)
    requires Signed(cfg, s) && Enabled(cfg, k, s, step) && t.named && Allowed(cfg, t, s, step)
    ensures Signed(cfg, Apply(cfg, s, step))
  {
    hide Signed, Enabled, Allowed, Apply;
    match step
    case Statement(c, env) => StatementEnabled(cfg, k, s, step); StatementKeepsSigned(cfg, s, c, env);
    case RegisterKey(owner, publicKey) => KeyKeepsSigned(cfg, s, owner, publicKey);
    case _ => BackgroundKeepsSigned(cfg, k, t, s, step);
  }

  lemma StatementEnabled(cfg: Config, k: nat, s: System, step: Step)
    requires Enabled(cfg, k, s, step) && step.Statement?
    ensures step.c in s.frames
  {
  }

  lemma {:induction false} SignedKept(cfg: Config, k: nat, t: Traffic, states: seq<System>, i: nat)
    requires Behavior(cfg, k, t, states) && t.named && Quiescent(cfg, states[0]) && i < |states|
    ensures Signed(cfg, states[i])
    decreases i
  {
    if i > 0 {
      hide Signed, Enabled, Apply, Allowed, Quiescent;
      SignedKept(cfg, k, t, states, i - 1);
      var step := StepAt(cfg, k, t, states, i - 1);
      StepKeepsSigned(cfg, k, t, states[i - 1], step);
    }
  }

  /** Over every interleaving in which uploads name registered applications, a row marked verified has an
      application one of whose active keys verifies its signature over its digest. */
  lemma VerifiedStaySigned(cfg: Config, k: nat, t: Traffic, states: seq<System>, i: nat)
    requires Behavior(cfg, k, t, states) && t.named && Quiescent(cfg, states[0]) && i < |states|
    ensures VerifiedOk(cfg, states[i].db)
  {
    SignedKept(cfg, k, t, states, i);
  }
}
