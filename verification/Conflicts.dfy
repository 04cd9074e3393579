/** Idempotency keys that another digest holds: what each endpoint answers, and what overlap changes. */
module Conflicts {
  import opened Prelude
  import opened Schema
  import opened Handlers
  import opened Invariant
  import opened Lifecycle
  import opened Replies
  import opened Statements
  import opened Interleaving
  import opened Tables
  import opened Scenarios

  // ---- requests that do not overlap

  /** The key comes to be compared with those of other digests: there is no row and none is required, or the
      row is pending and neither the remote checks nor the quota refuse first. */
  ghost predicate KeyIsCompared(cfg: Config, db: Db, up: Upload, env: Env) {
    var app := AppNamed(db.apps, up.app);
    && CompleteError(cfg, up).None?
    && if up.digest !in db.rows then !cfg.requirePresign
       else
         var row := db.rows[up.digest];
         && row.status == Pending && RemoteAgrees(cfg, up.size, up.digest, env)
         && QuotaIfLinked(cfg, Backfill(db, up.digest, app).rows, app, up.size).None?
  }

  /** The single-part endpoint reports the conflict exactly when another digest holds the key and the request
      gets as far as comparing it. */
  lemma SingleConflictIff(cfg: Config, db: Db, up: Upload, env: Env)
    requires Inv(cfg, db)
    ensures Handle(cfg, db, Complete(up), env).reply == Fail(IdempotencyConflict) <==>
              IdemTaken(db.rows, up.digest, up.idem) && KeyIsCompared(cfg, db, up, env)
  {
    hide Inv, CompletePending, CompleteFresh, CompleteError, RemoteAgrees, IdemTaken, Backfill;
    if CompleteError(cfg, up).None? {
      if up.digest !in db.rows {
        FreshConflictIff(cfg, db, up, env);
      } else if db.rows[up.digest].status == Pending {
        PendingConflictIff(cfg, db, up, env);
      }
    } else {
      ErrorIsNoConflict(cfg, up);
    }
  }

  lemma ErrorIsNoConflict(cfg: Config, up: Upload)
    ensures CompleteError(cfg, up) != Some(IdempotencyConflict)
  {
    hide IsHex, Blank;
  }

  lemma FreshConflictIff(cfg: Config, db: Db, up: Upload, env: Env)
    ensures CompleteFresh(cfg, db, up, env).reply == Fail(IdempotencyConflict) <==>
              IdemTaken(db.rows, up.digest, up.idem)
  {
    hide LogAndRetain, StorageKey, IsHex, IdemTaken, SignatureOk;
  }

  lemma PendingConflictIff(cfg: Config, db: Db, up: Upload, env: Env)
    requires Inv(cfg, db) && up.digest in db.rows && db.rows[up.digest].status == Pending
    ensures CompletePending(cfg, db, up, env).reply == Fail(IdempotencyConflict) <==>
              && IdemTaken(db.rows, up.digest, up.idem) && RemoteAgrees(cfg, up.size, up.digest, env)
              && QuotaIfLinked(cfg, Backfill(db, up.digest, AppNamed(db.apps, up.app)).rows,
                               AppNamed(db.apps, up.app), up.size).None?
  {
    assert RowOk(db.rows[up.digest]);
    BackfillKeepsIdems(db, up.digest, AppNamed(db.apps, up.app), up.idem);
    hide Inv, RowOk, Backfill, LogAndRetain, StorageKey, IdemTaken;
  }

  /** A digest that is stored already is answered as a duplicate that echoes the key, whoever holds it. */
  lemma StoredEchoesKey(cfg: Config, db: Db, up: Upload, env: Env)
    requires CompleteError(cfg, up).None? && StoredAt(db.rows, up.digest)
    ensures var row := db.rows[up.digest];
            Handle(cfg, db, Complete(up), env) ==
            Outcome(db, Completed(row.id, true, row.verified, OrElse(row.storageKey, ""), up.idem))
  {
    hide CompleteError;
  }

  /** With a key that another digest holds, the single-part endpoint reports success exactly when the digest is
      stored already: as a duplicate, with that key, and without any change. */
  lemma TakenKeySucceedsIff(cfg: Config, db: Db, up: Upload, env: Env)
    requires Inv(cfg, db) && IdemTaken(db.rows, up.digest, up.idem)
    ensures var out := Handle(cfg, db, Complete(up), env);
            && (out.reply.Completed? <==> CompleteError(cfg, up).None? && StoredAt(db.rows, up.digest))
            && (out.reply.Completed? ==> out.reply.duplicate && out.reply.idem == up.idem && out.db == db)
  {
    TakenKeyNeverBinds(cfg, db, Complete(up), env);
    if CompleteError(cfg, up).None? && StoredAt(db.rows, up.digest) { StoredEchoesKey(cfg, db, up, env); }
    hide Inv, CompletePending, CompleteFresh, CompleteError, IdemTaken;
  }

  /** The multipart endpoint never reports the conflict. It answers with a failed update exactly when the
      key is taken and the request would otherwise write. */
  lemma MultipartConflictIff(cfg: Config, db: Db, up: Upload, uploadId: string, parts: seq<(int, string)>, env: Env)
    requires Inv(cfg, db)
    ensures var reply := Handle(cfg, db, MultipartComplete(up, uploadId, parts), env).reply;
            && reply != Fail(IdempotencyConflict)
            && (reply == Fail(DbUpdate) <==>
                  && IdemTaken(db.rows, up.digest, up.idem)
                  && IsHex(up.digest, 64) && up.size >= 0 && up.digest in db.rows
                  && db.rows[up.digest].status == Pending && db.rows[up.digest].uploadId == Some(uploadId)
                  && env.assembleOk && QuotaIfLinked(cfg, db.rows, AppNamed(db.apps, up.app), up.size).None?)
  {
    if up.digest in db.rows { assert RowOk(db.rows[up.digest]); }
    hide Inv, RowOk, LogAndRetain, IsHex, IdemTaken;
  }

  // ---- the two endpoints, in runs from empty tables

  function Keyed(name: string, digest: string, key: string): Upload {
    Upload(name, digest, 0, None, Some(key))
  }

  /** Two digests presigned, and the first completed under the key. */
  function KeyBound(name: string, key: string): seq<Call> {
    Presigned(name, 2) + [Call(Complete(Keyed(name, Digest(0), key)), Calm(2))]
  }

  ghost predicate BoundTables(cfg: Config, db: Db, name: string, key: string) {
    && Inv(cfg, db) && db.apps == map[name := 0] && Digest(0) != Digest(1)
    && StoredAt(db.rows, Digest(0)) && db.rows[Digest(0)].idem == Some(key)
    && Digest(1) in db.rows && RowIs(db.rows[Digest(1)], name, 1, false)
    && StoredCount(db.rows, 0) == 1 && StoredBytes(db.rows, 0) == 0
  }

  lemma KeyBoundRun(cfg: Config, name: string, key: string)
    requires !Blank(name)
    ensures BoundTables(cfg, Run(cfg, EMPTY_DB, KeyBound(name, key)), name, key)
  {
    var calls, up := Presigned(name, 2), Keyed(name, Digest(0), key);
    PresignedRun(cfg, name, 2);
    DigestsDiffer(0, 1);
    hide Digest, Run, Calm, Presigned, Blank;
    EmptyInv(cfg);
    RunKeeps(cfg, EMPTY_DB, calls);
    var db := Run(cfg, EMPTY_DB, calls);
    RunAppend(cfg, EMPTY_DB, calls, Call(Complete(up), Calm(2)));
    BindFirst(cfg, db, name, key);
    HandleKeeps(cfg, db, Complete(up), Calm(2));
  }

  lemma BindFirst(cfg: Config, db: Db, name: string, key: string)
    requires Inv(cfg, db) && Prepared(db, name, 2, 0, 0) && !Blank(name) && Digest(0) != Digest(1)
    ensures var out := Handle(cfg, db, Complete(Keyed(name, Digest(0), key)), Calm(2)).db;
            && out.apps == map[name := 0] && StoredAt(out.rows, Digest(0)) && out.rows[Digest(0)].idem == Some(key)
            && Digest(1) in out.rows && RowIs(out.rows[Digest(1)], name, 1, false)
            && StoredCount(out.rows, 0) == 1 && StoredBytes(out.rows, 0) == 0
  {
    var up := Keyed(name, Digest(0), key);
    DigestHex(0);
    assert CompleteError(cfg, up).None?;
    RowAt(db, name, 2, 0, 0, 0);
    RowAt(db, name, 2, 0, 0, 1);
    KeyFree(db, name, key);
    hide Handle, Inv, Digest, StorageKey, StoredCount, StoredBytes, CompleteError, Prepared, IdemTaken, IsHex, Blank;
    CompleteOne(cfg, db, up, 0, 2);
  }

  lemma KeyFree(db: Db, name: string, key: string)
    requires Prepared(db, name, 2, 0, 0)
    ensures !IdemTaken(db.rows, Digest(0), Some(key))
  {
    forall d | d in db.rows ensures db.rows[d].idem.None? {
      var i: nat :| i < 2 && d == Digest(i);
      assert RowIs(db.rows[d], name, i, false);
    }
  }

  /** A multipart upload of the second digest under the same key: the completion answers with a failed update,
      the server error that stands for a conflict here. */
  lemma MultipartKeyReused(cfg: Config, name: string, key: string)
    requires !Blank(name) && (cfg.MaxCount().Some? ==> cfg.MaxCount().value >= 2)
    ensures var init := Call(MultipartInit(name, Digest(1)), Calm(3));
            var last := Call(MultipartComplete(Keyed(name, Digest(1), key), "u", []), Calm(4));
            var calls := KeyBound(name, key) + [init];
            ReplyAt(cfg, EMPTY_DB, calls + [last], |calls|) == Fail(DbUpdate)
  {
    var calls := KeyBound(name, key);
    var init := Call(MultipartInit(name, Digest(1)), Calm(3));
    var last := Call(MultipartComplete(Keyed(name, Digest(1), key), "u", []), Calm(4));
    DigestHex(1);
    KeyBoundRun(cfg, name, key);
    RunAppend(cfg, EMPTY_DB, calls, init);
    RunAppend(cfg, EMPTY_DB, calls + [init], last);
    hide KeyBound, Digest, Run;
    ReuseMultipart(cfg, Run(cfg, EMPTY_DB, calls), name, key);
  }

  lemma ReuseMultipart(cfg: Config, db: Db, name: string, key: string)
    requires BoundTables(cfg, db, name, key) && IsHex(Digest(1), 64)
    requires cfg.MaxCount().Some? ==> cfg.MaxCount().value >= 2
    ensures var db1 := Handle(cfg, db, MultipartInit(name, Digest(1)), Calm(3)).db;
            Handle(cfg, db1, MultipartComplete(Keyed(name, Digest(1), key), "u", []), Calm(4)).reply == Fail(DbUpdate)
  {
    hide Handle, Inv, IsHex, StoredCount, StoredBytes, Digest, StorageKey;
    var d, db1 := Digest(1), Handle(cfg, db, MultipartInit(name, Digest(1)), Calm(3)).db;
    InitSecond(cfg, db, name, d);
    HandleKeeps(cfg, db, MultipartInit(name, d), Calm(3));
    assert IdemTaken(db1.rows, d, Some(key)) by { assert db1.rows[Digest(0)].idem == Some(key); }
    MultipartConflictIff(cfg, db1, Keyed(name, d, key), "u", [], Calm(4));
  }

  lemma InitSecond(cfg: Config, db: Db, name: string, d: string)
    requires IsHex(d, 64) && d in db.rows && db.rows[d].status == Pending
    ensures var db1 := Handle(cfg, db, MultipartInit(name, d), Calm(3)).db;
            && db1 == db.(rows := db.rows[d := db1.rows[d]]) && d in db1.rows
            && db1.rows[d].status == Pending && db1.rows[d].uploadId == Some("u")
            && StoredCount(db1.rows, 0) == StoredCount(db.rows, 0)
            && StoredBytes(db1.rows, 0) == StoredBytes(db.rows, 0)
  {
    hide StorageKey, IsHex;
    var db1 := Handle(cfg, db, MultipartInit(name, d), Calm(3)).db;
    assert db1.rows == db.rows[d := db.rows[d].(uploadId := Some("u"), storageKey := Some(StorageKey(name, d)))];
    hide Handle;
    assert StoredOf(db1.rows, 0) == StoredOf(db.rows, 0) && SizesOf(db1.rows, 0) == SizesOf(db.rows, 0);
  }

  /** A second digest, completed without a key and then again with the key that the first one holds: the
      answer is success, and carries that key. */
  lemma DuplicateEchoesForeignKey(cfg: Config, name: string, key: string)
    requires !Blank(name) && (cfg.MaxCount().Some? ==> cfg.MaxCount().value >= 2)
    requires cfg.Retain() == 0 || cfg.Retain() >= 2
    ensures var again := Call(Complete(UploadOf(name, Digest(1), 0)), Calm(3));
            var last := Call(Complete(Keyed(name, Digest(1), key)), Calm(4));
            var calls := KeyBound(name, key) + [again];
            var rows, reply := Run(cfg, EMPTY_DB, calls).rows, ReplyAt(cfg, EMPTY_DB, calls + [last], |calls|);
            && IdemTaken(rows, Digest(1), Some(key))
            && reply.Completed? && reply.duplicate && reply.idem == Some(key)
  {
    var calls := KeyBound(name, key);
    var again := Call(Complete(UploadOf(name, Digest(1), 0)), Calm(3));
    DigestHex(1);
    KeyBoundRun(cfg, name, key);
    RunAppend(cfg, EMPTY_DB, calls, again);
    RunAppend(cfg, EMPTY_DB, calls + [again], Call(Complete(Keyed(name, Digest(1), key)), Calm(4)));
    hide KeyBound, Digest, Run;
    ReuseStored(cfg, Run(cfg, EMPTY_DB, calls), name, key);
  }

  lemma ReuseStored(cfg: Config, db: Db, name: string, key: string)
    requires BoundTables(cfg, db, name, key) && IsHex(Digest(1), 64) && !Blank(name)
    requires (cfg.MaxCount().Some? ==> cfg.MaxCount().value >= 2) && (cfg.Retain() == 0 || cfg.Retain() >= 2)
    ensures var db1 := Handle(cfg, db, Complete(UploadOf(name, Digest(1), 0)), Calm(3)).db;
            var reply := Handle(cfg, db1, Complete(Keyed(name, Digest(1), key)), Calm(4)).reply;
            && IdemTaken(db1.rows, Digest(1), Some(key))
            && reply.Completed? && reply.duplicate && reply.idem == Some(key)
  {
    var d, up := Digest(1), UploadOf(name, Digest(1), 0);
    assert CompleteError(cfg, up).None? && CompleteError(cfg, Keyed(name, d, key)).None?;
    hide Handle, Inv, Digest, StorageKey, StoredCount, StoredBytes, CompleteError, IsHex, Blank;
    CompleteOne(cfg, db, up, 0, 3);
    var db1 := Handle(cfg, db, Complete(up), Calm(3)).db;
    assert db1.rows[Digest(0)].idem == Some(key);
    StoredEchoesKey(cfg, db1, Keyed(name, d, key), Calm(4));
  }

  // ---- requests that overlap

  /** Every bound key is its own digest's, every request has derived its key, and none has failed for it. */
  ghost predicate KeysOwn(s: System) {
    && OwnKeys(s.db.rows)
    && forall c :: c in s.frames ==> FrameOwn(s.frames[c])
  }

  predicate FrameOwn(f: Frame) {
    && KeyDerived(f.job.up) && (f.pc == ReadKey ==> f.job.up.idem.Some?)
    && f.reply != Some(Fail(IdempotencyConflict))
  }

  lemma FrameStaysOwn(cfg: Config, db: Db, f: Frame, env: Env)
    requires OwnKeys(db.rows) && FrameOwn(f)
    ensures FrameOwn(Advance(cfg, db, f, env).1)
  {
    var d := f.job.up.digest;
    OwnKeyFree(db.rows, d, f.job.up.idem);
    if d in db.rows { OwnKeyFree(db.rows, d, FinalRow(db, f, env.now).idem); }
    assert OwnAt(db.rows, d);
    hide OwnKeys, SignatureOk, IdemTaken, RemoteCheck, StorageKey, OrElse, StoredCount, StoredBytes, Wrap64, Obsolete,
         IdsOf, LogEvent, DeleteIds, Backfill, InsertRow, DerivedKey;
  }

  predicate OwnAt(rows: Rows, d: string) {
    d in rows && rows[d].idem.Some? ==> rows[d].idem == Some(DerivedKey(d))
  }

  lemma StatementKeepsOwn(cfg: Config, s: System, c: nat, env: Env)
    requires KeysOwn(s) && c in s.frames
    ensures KeysOwn(Apply(cfg, s, Statement(c, env)))
  {
    FrameStaysOwn(cfg, s.db, s.frames[c], env);
    StatementEffect(cfg, s.db, s.frames[c], env);
    assert FrameOwn(s.frames[c]);
    hide Advance, FrameOwn, StorageKey, IdemTaken, HasId, DerivedKey;
  }

  lemma StepKeepsOwn(cfg: Config, k: nat, t: Traffic, s: System, step: Step)
    requires KeysOwn(s) && Enabled(cfg, k, s, step) && t.derived && Allowed(cfg, t, s, step)
    ensures KeysOwn(Apply(cfg, s, step))
  {
    if step.Statement? {
      StatementKeepsOwn(cfg, s, step.c, step.env);
    } else {
      hide Advance, StorageKey, IsHex, Blank, SignedBy, DerivedKey, SumFits, Admissible;
    }
  }

  /** Over every interleaving in which clients derive their keys from the digest, whatever else it contains:
      bound keys are their digests' own, no request is refused for its key, and none that is about to write
      could be. */
  lemma {:induction false} DerivedKeysNeverClash(cfg: Config, k: nat, t: Traffic, states: seq<System>, i: nat)
    requires Behavior(cfg, k, t, states) && t.derived && i < |states|
    requires Quiescent(cfg, states[0]) && OwnKeys(states[0].db.rows)
    ensures KeysOwn(states[i])
    ensures forall c :: c in states[i].frames ==>
              && states[i].frames[c].reply != Some(Fail(IdempotencyConflict))
              && !IdemTaken(states[i].db.rows, states[i].frames[c].job.up.digest, states[i].frames[c].job.up.idem)
    decreases i
  {
    if i > 0 {
      hide KeysOwn, Enabled, Apply, Allowed, Quiescent, IdemTaken, OwnKeys;
      DerivedKeysNeverClash(cfg, k, t, states, i - 1);
      var step := StepAt(cfg, k, t, states, i - 1);
      StepKeepsOwn(cfg, k, t, states[i - 1], step);
    }
    NoneTaken(states[i]);
  }

  lemma NoneTaken(s: System)
    requires KeysOwn(s)
    ensures forall c :: c in s.frames ==>
              && s.frames[c].reply != Some(Fail(IdempotencyConflict))
              && !IdemTaken(s.db.rows, s.frames[c].job.up.digest, s.frames[c].job.up.idem)
  {
    forall c | c in s.frames ensures !IdemTaken(s.db.rows, s.frames[c].job.up.digest, s.frames[c].job.up.idem) {
      assert FrameOwn(s.frames[c]);
      OwnKeyFree(s.db.rows, s.frames[c].job.up.digest, s.frames[c].job.up.idem);
    }
    hide IdemTaken;
  }

  /** In particular after any run of separate requests with such keys. */
  lemma NoClashFromEmpty(cfg: Config, calls: seq<Call>, k: nat, t: Traffic, states: seq<System>, i: nat)
    requires forall j :: 0 <= j < |calls| ==> Derived(calls[j].req)
    requires Behavior(cfg, k, t, states) && t.derived && states[0] == Idle(cfg, calls) && i < |states|
    ensures forall c :: c in states[i].frames ==> states[i].frames[c].reply != Some(Fail(IdempotencyConflict))
  {
    hide Quiescent, OwnKeys, KeysOwn, IdemTaken, Run, Derived, Allowed, Apply, Enabled;
    IdleIsQuiescent(cfg, calls);
    RunOwnKeys(cfg, calls);
    DerivedKeysNeverClash(cfg, k, t, states, i);
  }
}
