/** What one completion request leaves behind when it is refused, and how long its row lasts when it is
    accepted. Neither is what the words suggest, so both are stated with their exact conditions. */
module Completion {
  import opened Prelude
  import opened Schema
  import opened Handlers
  import opened Invariant
  import opened Scenarios
  import opened QuotaRuns

  // ---- refused completions

  /** A refused complete changes the tables exactly when it names a registered application and finds a
      pending row without one; then it links that row and does nothing else. */
  lemma RefusedCompleteLinks(cfg: Config, db: Db, up: Upload, env: Env)
    requires Inv(cfg, db) && Handle(cfg, db, Complete(up), env).reply.Fail?
    ensures var db' := Handle(cfg, db, Complete(up), env).db;
            && (db' != db <==>
                  && CompleteError(cfg, up).None? && up.app in db.apps
                  && up.digest in db.rows && db.rows[up.digest].status == Pending && db.rows[up.digest].app.None?)
            && (db' != db ==>
                  db' == db.(rows := db.rows[up.digest := db.rows[up.digest].(app := Some(db.apps[up.app]))]))
  {
    if CompleteError(cfg, up).None? && up.digest in db.rows && db.rows[up.digest].status == Pending {
      assert db.rows[up.digest].idem.None?;
      RefusedPending(cfg, db, up, env);
    }
    hide Inv, CompletePending, CompleteError, LogAndRetain, IsHex, Blank, IdemTaken, QuotaIfLinked, SignatureOk;
  }

  lemma RefusedPending(cfg: Config, db: Db, up: Upload, env: Env)
    requires up.digest in db.rows && db.rows[up.digest].idem.None?
    ensures var out := CompletePending(cfg, db, up, env);
            out.reply.Fail? ==> out.db == Backfill(db, up.digest, AppNamed(db.apps, up.app))
  {
    hide Backfill, LogAndRetain, IdemTaken, QuotaIfLinked, RemoteCheck;
  }

  /** Such a refusal, in a run from empty tables: a multipart init leaves a pending row without application,
      and the storage backend reports another size than the complete does. */
  lemma RefusalLinks(cfg: Config, name: string)
    requires cfg.verifySize && !Blank(name)
    ensures var calls := [Call(CreateApp(name), Calm(0))] + [Call(MultipartInit(name, Digest(0)), Calm(1))];
            var last := Call(Complete(UploadOf(name, Digest(0), 0)), Calm(2).(headSize := Some(1)));
            var before, after := Run(cfg, EMPTY_DB, calls), Run(cfg, EMPTY_DB, calls + [last]);
            && ReplyAt(cfg, EMPTY_DB, calls + [last], |calls|) == Fail(SizeMismatch)
            && Digest(0) in before.rows && before.rows[Digest(0)].app.None?
            && Digest(0) in after.rows && after.rows[Digest(0)].app == Some(0)
  {
    var calls := [Call(CreateApp(name), Calm(0))];
    var init := Call(MultipartInit(name, Digest(0)), Calm(1));
    var last := Call(Complete(UploadOf(name, Digest(0), 0)), Calm(2).(headSize := Some(1)));
    Registered(cfg, name);
    RunAppend(cfg, EMPTY_DB, calls, init);
    RunAppend(cfg, EMPTY_DB, calls + [init], last);
    DigestHex(0);
    UploadValid(cfg, name, 0, 0);
    hide Run, Digest, Blank;
    LinkRefused(cfg, Run(cfg, EMPTY_DB, calls), name);
  }

  lemma LinkRefused(cfg: Config, db: Db, name: string)
    requires db.apps == map[name := 0] && Digest(0) !in db.rows && IsHex(Digest(0), 64) && cfg.verifySize
    requires CompleteError(cfg, UploadOf(name, Digest(0), 0)).None?
    ensures var db1 := Handle(cfg, db, MultipartInit(name, Digest(0)), Calm(1)).db;
            var out := Handle(cfg, db1, Complete(UploadOf(name, Digest(0), 0)), Calm(2).(headSize := Some(1)));
            && out.reply == Fail(SizeMismatch)
            && Digest(0) in db1.rows && db1.rows[Digest(0)].app.None?
            && Digest(0) in out.db.rows && out.db.rows[Digest(0)].app == Some(0)
  {
    hide Digest, StorageKey, IsHex, CompleteError, QuotaIfLinked, LogAndRetain;
  }

  /** A refused multipart complete changes nothing. */
  lemma RefusedMultipartIsNoop(cfg: Config, db: Db, up: Upload, uploadId: string, parts: seq<(int, string)>, env: Env)
    requires Handle(cfg, db, MultipartComplete(up, uploadId, parts), env).reply.Fail?
    ensures Handle(cfg, db, MultipartComplete(up, uploadId, parts), env).db == db
  {
  }

  // ---- accepted completions and retention

  /** The row's place in retention's order: when it was first presigned, not when it was completed. */
  function Place(db: Db, d: string, now: int): Row {
    if d in db.rows then db.rows[d] else PendingRow(None, "", None, now).(id := db.nextId)
  }

  /** The stored rows of `a` that retention prefers to the row being completed. */
  function Preferred(db: Db, d: string, a: nat, env: Env): set<string> {
    set e | e in StoredOf(db.rows, a) && Newer(db.rows[e], Place(db, d, env.now), env.tie)
  }

  /** A completion that reports success still has its row afterwards exactly when fewer stored rows than
      the retention limit are listed before it. */
  lemma CompletedRowSurvives(cfg: Config, db: Db, req: Request, env: Env)
    requires Inv(cfg, db) && (req.Complete? || req.MultipartComplete?)
    requires NewlyStored(db, req, Handle(cfg, db, req, env).reply)
    ensures var app := AppNamed(db.apps, req.up.app);
            req.up.digest in Handle(cfg, db, req, env).db.rows <==>
            app.None? || cfg.Retain() == 0 || |Preferred(db, req.up.digest, app.value, env)| < cfg.Retain()
  {
    hide Handle, Inv, VerifiedRow, RowOk, QuotaIfLinked, IsHex, IdemTaken;
    var base, written := CompletionStages(cfg, db, req, env);
    var app, d := AppNamed(db.apps, req.up.app), req.up.digest;
    if app.Some? && cfg.Retain() > 0 {
      WrittenPlace(cfg, db, req.up, env, base, written, Handle(cfg, db, req, env).db);
      hide Preferred, Ahead, Stores;
      DistinctAfterWrite(cfg, base, written, d);
      RetainRows(cfg, LogEvent(written, written.rows[d].id, StoredEvent), app.value, env.tie);
    }
  }

  /** The written row has the place in retention's order that its row, or its clock, had before. */
  lemma WrittenPlace(cfg: Config, db: Db, up: Upload, env: Env, base: Db, written: Db, out: Db)
    requires Stores(cfg, db, up, env, base, written, out) && up.app in db.apps
    ensures Ahead(written.rows, db.apps[up.app], env.tie, up.digest) == Preferred(db, up.digest, db.apps[up.app], env)
  {
    hide Inv, VerifiedRow, RowOk, QuotaIfLinked, IsHex, IdemTaken, LogAndRetain;
    var a, d := db.apps[up.app], up.digest;
    assert forall e :: e != d ==> (e in StoredOf(written.rows, a) <==> e in StoredOf(db.rows, a));
    assert forall e :: e != d && e in StoredOf(db.rows, a) ==> written.rows[e] == db.rows[e];
    var place := Place(db, d, env.now);
    assert written.rows[d].id == place.id && written.rows[d].createdAt == place.createdAt;
  }

  lemma DistinctAfterWrite(cfg: Config, db: Db, db1: Db, d: string)
    requires Inv(cfg, db) && WritesRow(cfg, db, db1, d)
    ensures DistinctIds(db1.rows)
  {
    WriteKeepsTables(cfg, db, db1, d);
  }

  // ---- the case where success is reported and the row is gone

  /** For every retention limit N: presign N + 1 uploads, complete all but the first, and then the first.
      It is told that it succeeded, and its row is gone. */
  lemma SuccessThenGone(cfg: Config, name: string)
    requires 0 < cfg.Retain() < DIGESTS - 1 && !Blank(name)
    requires cfg.MaxCount().Some? ==> cfg.Retain() < cfg.MaxCount().value
    ensures var n := cfg.Retain();
            var calls := Filled(name, n + 1, 1, n + 1);
            var last := Call(Complete(UploadOf(name, Digest(0), 0)), Calm(2 * n + 3));
            var reply := ReplyAt(cfg, EMPTY_DB, calls + [last], |calls|);
            && reply.Completed? && !reply.duplicate
            && Digest(0) !in Run(cfg, EMPTY_DB, calls + [last]).rows
  {
    hide Handle, Prepared, Inv, Digest, Blank, StoredCount, StoredBytes, Run, Filled, Calm, StorageKey, LogAndRetain,
         Preferred, CompleteError;
    var n := cfg.Retain();
    var calls, up := Filled(name, n + 1, 1, n + 1), UploadOf(name, Digest(0), 0);
    var db := Run(cfg, EMPTY_DB, calls);
    FilledRun(cfg, name, n + 1, 1, n + 1);
    RunAppend(cfg, EMPTY_DB, calls, Call(Complete(up), Calm(2 * n + 3)));
    RowAt(db, name, n + 1, 1, n + 1, 0);
    UploadValid(cfg, name, 0, 0);
    CompleteReply(cfg, db, up, 0, 2 * n + 3);
    FirstIsLast(db, name, n, Calm(2 * n + 3));
    CompletedRowSurvives(cfg, db, Complete(up), Calm(2 * n + 3));
  }

  /** A request for one of the digests is well formed, if its size is allowed. */
  lemma UploadValid(cfg: Config, name: string, i: nat, size: nat)
    requires !Blank(name) && !cfg.TooLarge(size)
    ensures CompleteError(cfg, UploadOf(name, Digest(i), size)).None?
  {
    DigestHex(i);
    hide Digest;
  }

  /** Retention prefers all stored rows to the one that was presigned first. */
  lemma FirstIsLast(db: Db, name: string, n: nat, env: Env)
    requires Prepared(db, name, n + 1, 1, n + 1)
    ensures |Preferred(db, Digest(0), 0, env)| == n
  {
    hide Digest, StoredBytes;
    forall d | d in StoredOf(db.rows, 0) ensures db.rows[d].createdAt >= 1 {
      var i: nat :| i < n + 1 && d == Digest(i);
      assert RowIs(db.rows[d], name, i, 1 <= i < n + 1);
    }
    assert RowIs(db.rows[Digest(0)], name, 0, false);
    assert Preferred(db, Digest(0), 0, env) == StoredOf(db.rows, 0);
  }

  // ---- the case where the byte check wraps around

  /** Two uploads of 1 byte and of 2^63 - 1 reported bytes are both admitted, whatever the byte quota. */
  lemma ByteQuotaBypassed(cfg: Config, name: string)
    requires cfg.MaxBytes().Some? && cfg.MaxBytes().value <= I64_MAX && !cfg.TooLarge(I64_MAX) && !Blank(name)
    requires (cfg.MaxCount().Some? ==> cfg.MaxCount().value >= 2) && (cfg.Retain() == 0 || cfg.Retain() >= 2)
    ensures var first := Call(Complete(UploadOf(name, Digest(0), 1)), Calm(2));
            var second := Call(Complete(UploadOf(name, Digest(1), I64_MAX)), Calm(3));
            var calls := Presigned(name, 2) + [first] + [second];
            && NoLegacy(calls)
            && StoredBytes(Run(cfg, EMPTY_DB, calls).rows, 0) == I64_MAX + 1 > cfg.MaxBytes().value
  {
    var calls, first := Presigned(name, 2), Call(Complete(UploadOf(name, Digest(0), 1)), Calm(2));
    PresignsOnly(name, 2);
    hide Handle, Inv, Digest, Blank, StoredBytes, Prepared, Presigned, Run, Calm, UploadOf, NoLegacy;
    OneMore(Presigned(name, 2), first);
    OneMore(Presigned(name, 2) + [first], Call(Complete(UploadOf(name, Digest(1), I64_MAX)), Calm(3)));
    EmptyInv(cfg);
    RunKeeps(cfg, EMPTY_DB, calls);
    PresignedRun(cfg, name, 2);
    RunAppend(cfg, EMPTY_DB, calls, first);
    RunAppend(cfg, EMPTY_DB, calls + [first], Call(Complete(UploadOf(name, Digest(1), I64_MAX)), Calm(3)));
    BypassFrom(cfg, Run(cfg, EMPTY_DB, calls), name);
  }

  /** The check passes with nothing stored and 1 byte incoming, and with 1 byte stored and 2^63 - 1. */
  lemma QuotaPasses(cfg: Config, rows: Rows, a: nat, size: int)
    requires cfg.MaxCount().Some? ==> StoredCount(rows, a) < cfg.MaxCount().value
    requires (StoredBytes(rows, a) == 0 && size == 1) || (StoredBytes(rows, a) == 1 && size == I64_MAX)
    ensures Quota(cfg, rows, a, size).None?
  {
    hide StoredCount, StoredBytes;
  }

  /** The same from the tables that the two presigns leave. */
  lemma BypassFrom(cfg: Config, db: Db, name: string)
    requires Inv(cfg, db) && Prepared(db, name, 2, 0, 0)
    requires cfg.MaxBytes().Some? && cfg.MaxBytes().value <= I64_MAX && !cfg.TooLarge(I64_MAX) && !Blank(name)
    requires (cfg.MaxCount().Some? ==> cfg.MaxCount().value >= 2) && (cfg.Retain() == 0 || cfg.Retain() >= 2)
    ensures var db1 := Handle(cfg, db, Complete(UploadOf(name, Digest(0), 1)), Calm(2)).db;
            var db2 := Handle(cfg, db1, Complete(UploadOf(name, Digest(1), I64_MAX)), Calm(3)).db;
            StoredBytes(db2.rows, 0) == I64_MAX + 1
  {
    var first, second := UploadOf(name, Digest(0), 1), UploadOf(name, Digest(1), I64_MAX);
    RowAt(db, name, 2, 0, 0, 0);
    RowAt(db, name, 2, 0, 0, 1);
    DigestsDiffer(0, 1);
    UploadValid(cfg, name, 0, 1);
    UploadValid(cfg, name, 1, I64_MAX);
    QuotaPasses(cfg, db.rows, 0, 1);
    hide Handle, Inv, Digest, Blank, StorageKey, StoredCount, StoredBytes, NewlyStored, CompleteError, Prepared, Quota;
    CompleteOne(cfg, db, first, 0, 2);
    var db1 := Handle(cfg, db, Complete(first), Calm(2)).db;
    HandleKeeps(cfg, db, Complete(first), Calm(2));
    QuotaPasses(cfg, db1.rows, 0, I64_MAX);
    CompleteOne(cfg, db1, second, 0, 3);
  }

  lemma OneMore(calls: seq<Call>, last: Call)
    requires NoLegacy(calls) && last.req.Complete?
    ensures NoLegacy(calls + [last])
  {
  }

  lemma {:induction false} PresignsOnly(name: string, n: nat)
    ensures NoLegacy(Presigned(name, n))
    decreases n
  {
    if n > 0 { PresignsOnly(name, n - 1); }
  }
}
