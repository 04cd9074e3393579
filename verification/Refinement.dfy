/** The two levels agree: a completion whose statements run without interruption does exactly what
    the handler of module Handlers does. */
module Refinement {
  import opened Prelude
  import opened Schema
  import opened Handlers
  import opened Statements

  function FinalReply(f: Frame): Reply {
    if f.reply.Some? then f.reply.value else Fail(NotFound)
  }

  lemma StepAlone(cfg: Config, db: Db, f: Frame, env: Env)
    requires f.pc != Done
    ensures RunAlone(cfg, db, f, env) ==
            RunAlone(cfg, Advance(cfg, db, f, env).0, Advance(cfg, db, f, env).1, env)
  {
    hide Advance;
  }

  lemma DoneAlone(cfg: Config, db: Db, f: Frame, env: Env)
    requires f.pc == Done
    ensures RunAlone(cfg, db, f, env) == Outcome(db, FinalReply(f))
  {
  }

  /** Events logged for rows that are about to be deleted vanish with them. */
  lemma LogThenDelete(db: Db, id: nat, ids: set<nat>)
    requires id in ids && HasId(db.rows, id)
    ensures DeleteIds(LogEvent(db, id, RetentionDelete), ids) ==
            DeleteIds(db, ids).(nextSerial := db.nextSerial + 1)
    ensures LogEvent(db, id, RetentionDelete).rows == db.rows
    ensures LogEvent(db, id, RetentionDelete).nextSerial == db.nextSerial + 1
  {
  }

  lemma DeleteSteps(cfg: Config, db: Db, f: Frame, env: Env)
    ensures f.pc == LogDelete && f.left == {} ==> Advance(cfg, db, f, env) == (db, f.(pc := DeleteObsolete))
    ensures f.pc == LogDelete && f.left != {} ==>
              exists id :: id in f.left &&
                Advance(cfg, db, f, env) == (LogEvent(db, id, RetentionDelete), f.(left := f.left - {id}))
    ensures f.pc == DeleteObsolete ==> Advance(cfg, db, f, env) == (DeleteIds(db, f.obsolete), f.(pc := Done))
  {
    hide LogEvent, DeleteIds;
  }

  lemma DeleteNow(cfg: Config, db: Db, f: Frame, env: Env)
    requires f.pc == LogDelete && f.left == {}
    ensures RunAlone(cfg, db, f, env) == Outcome(DeleteIds(db, f.obsolete), FinalReply(f))
  {
    hide DeleteIds, Advance, RunAlone;
    var g := f.(pc := DeleteObsolete);
    StepAlone(cfg, db, f, env);
    DeleteSteps(cfg, db, f, env);
    StepAlone(cfg, db, g, env);
    DeleteSteps(cfg, db, g, env);
    DoneAlone(cfg, DeleteIds(db, f.obsolete), g.(pc := Done), env);
  }

  lemma LogOneAlone(cfg: Config, db: Db, f: Frame, env: Env) returns (id: nat)
    requires f.pc == LogDelete && f.left != {}
    ensures id in f.left
    ensures RunAlone(cfg, db, f, env) ==
            RunAlone(cfg, LogEvent(db, id, RetentionDelete), f.(left := f.left - {id}), env)
  {
    hide DeleteIds, Advance, RunAlone, LogEvent;
    StepAlone(cfg, db, f, env);
    DeleteSteps(cfg, db, f, env);
    id :| id in f.left && Advance(cfg, db, f, env) == (LogEvent(db, id, RetentionDelete), f.(left := f.left - {id}));
  }

  lemma {:induction false} DeletesAlone(cfg: Config, db: Db, f: Frame, env: Env)
    requires f.pc == LogDelete && f.left <= f.obsolete
    requires forall id :: id in f.left ==> HasId(db.rows, id)
    ensures RunAlone(cfg, db, f, env) ==
            Outcome(DeleteIds(db, f.obsolete).(nextSerial := db.nextSerial + |f.left|), FinalReply(f))
    decreases f.left
  {
    hide DeleteIds, RunAlone, LogEvent, HasId;
    if f.left == {} {
      DeleteNow(cfg, db, f, env);
      SerialUntouched(db, f.obsolete);
    } else {
      var id := LogOneAlone(cfg, db, f, env);
      LogThenDelete(db, id, f.obsolete);
      DeletesAlone(cfg, LogEvent(db, id, RetentionDelete), f.(left := f.left - {id}), env);
      assert |f.left - {id}| == |f.left| - 1;
    }
  }

  lemma SerialUntouched(db: Db, ids: set<nat>)
    ensures DeleteIds(db, ids).nextSerial == db.nextSerial
  {
  }

  /** From the "stored" event to the end: the event, then retention. */
  lemma TailAlone(cfg: Config, db: Db, f: Frame, env: Env)
    requires f.pc == LogStored && f.id.Some? && f.left == {}
    ensures RunAlone(cfg, db, f, env) == Outcome(LogAndRetain(cfg, db, f.id.value, f.app, env.tie), FinalReply(f))
  {
    hide DeleteIds, Obsolete;
    StepAlone(cfg, db, f, env);
    var db1 := LogEvent(db, f.id.value, StoredEvent);
    var g := f.(pc := if f.app.Some? && cfg.Retain() > 0 then PickObsolete else Done);
    if g.pc == Done {
      DoneAlone(cfg, db1, g, env);
    } else {
      StepAlone(cfg, db1, g, env);
      var gone := Obsolete(db1.rows, f.app.value, cfg.Retain(), env.tie);
      var ids := IdsOf(db1.rows, gone);
      var h := g.(obsolete := ids, left := ids, pc := if ids == {} then Done else LogDelete);
      if ids == {} {
        DoneAlone(cfg, db1, h, env);
      } else {
        forall id | id in ids ensures HasId(db1.rows, id) {
          var d :| d in gone && db1.rows[d].id == id;
        }
        DeletesAlone(cfg, db1, h, env);
      }
    }
  }

  // ---- the quota queries and the write

  /** The quota statements decide what Quota decides; an admitted request goes on to its write. */
  lemma QuotaAlone(cfg: Config, db: Db, f: Frame, env: Env) returns (count: int)
    ensures var verdict := QuotaIfLinked(cfg, db.rows, f.app, f.job.up.size);
            RunAlone(cfg, db, ToQuota(cfg, f), env) ==
            if verdict.Some? then Outcome(db, Fail(verdict.value))
            else RunAlone(cfg, db, f.(pc := Write, count := count), env)
  {
    hide RunAlone, Advance, StoredBytes, Wrap64;
    var g := ToQuota(cfg, f);
    if g.pc == Write {
      count := f.count;
    } else {
      count := StoredCount(db.rows, f.app.value);
      QuotaSteps(cfg, db, g, env);
      var h := g.(count := count, pc := SumBytes);
      StepAlone(cfg, db, g, env);
      QuotaSteps(cfg, db, h, env);
      StepAlone(cfg, db, h, env);
      var verdict := QuotaIfLinked(cfg, db.rows, f.app, f.job.up.size);
      if verdict.Some? { DoneAlone(cfg, db, Fin(h, Fail(verdict.value)), env); }
    }
  }

  lemma QuotaSteps(cfg: Config, db: Db, f: Frame, env: Env)
    requires f.app.Some?
    ensures f.pc == CountRows ==>
              Advance(cfg, db, f, env) == (db, f.(count := StoredCount(db.rows, f.app.value), pc := SumBytes))
    ensures f.pc == SumBytes && f.count == StoredCount(db.rows, f.app.value) ==>
              Advance(cfg, db, f, env) ==
              (db, var verdict := Quota(cfg, db.rows, f.app.value, f.job.up.size);
                   if verdict.Some? then Fin(f, Fail(verdict.value)) else f.(pc := Write))
  {
    hide StoredBytes, Wrap64, StoredCount;
  }

  /** The write and everything after it, for a row that is still there or a digest still without one. */
  lemma WriteAlone(cfg: Config, db: Db, f: Frame, env: Env)
    requires f.pc == Write && f.left == {}
    requires f.id.Some? ==> StillThere(db, f)
    ensures var next := WriteStep(cfg, db, f, env);
            RunAlone(cfg, db, f, env) ==
            if next.1.pc == Done then Outcome(next.0, FinalReply(next.1))
            else Outcome(LogAndRetain(cfg, next.0, next.1.id.value, f.app, env.tie), FinalReply(next.1))
  {
    WriteShape(cfg, db, f, env);
    hide RunAlone, Advance, WriteStep, LogAndRetain, StillThere;
    StepAlone(cfg, db, f, env);
    WriteIsStep(cfg, db, f, env);
    var next := WriteStep(cfg, db, f, env);
    if next.1.pc == Done {
      DoneAlone(cfg, next.0, next.1, env);
    } else {
      TailAlone(cfg, next.0, next.1, env);
    }
  }

  lemma WriteShape(cfg: Config, db: Db, f: Frame, env: Env)
    requires f.pc == Write
    ensures var g := WriteStep(cfg, db, f, env).1;
            g.left == f.left && g.app == f.app && (g.pc == Done || (g.pc == LogStored && g.id.Some?))
  {
    hide IdemTaken, Finalized, InsertRow, StorageKey;
  }

  lemma WriteIsStep(cfg: Config, db: Db, f: Frame, env: Env)
    requires f.pc == Write
    ensures Advance(cfg, db, f, env) == WriteStep(cfg, db, f, env)
  {
    hide WriteStep;
  }

  // ---- the branches before the quota

  /** A multipart request with the row that it found. */
  lemma MultipartAlone(cfg: Config, db: Db, job: Job, env: Env)
    requires Admissible(cfg, job) && job.Multi?
    ensures RunAlone(cfg, db, Start(job), env) == CompleteMultipart(cfg, db, job.up, job.uploadId, env)
  {
    hide RunAlone, Advance, LogAndRetain, QuotaIfLinked, IdemTaken, Finalized, IsHex;
    var f := Start(job);
    StepAlone(cfg, db, f, env);
    EarlySteps(cfg, db, f, env);
    var g := FindStep(cfg, db, f, env);
    if g.pc == Done {
      DoneAlone(cfg, db, g, env);
    } else {
      StepAlone(cfg, db, g, env);
      EarlySteps(cfg, db, g, env);
      var h := g.(app := AppNamed(db.apps, job.up.app));
      var count := QuotaAlone(cfg, db, h, env);
      WriteAlone(cfg, db, h.(pc := Write, count := count), env);
    }
  }

  lemma EarlySteps(cfg: Config, db: Db, f: Frame, env: Env)
    ensures f.pc == FindRow ==> Advance(cfg, db, f, env) == (db, FindStep(cfg, db, f, env))
    ensures f.pc == ResolveApp ==>
              Advance(cfg, db, f, env) ==
              (db, var g := f.(app := AppNamed(db.apps, f.job.up.app));
                   if f.job.Single? then g.(pc := FindRow) else ToQuota(cfg, g))
  {
    hide FindStep, ToQuota;
  }

  /** From the remote check to the end, for a pending row already linked to its application. */
  lemma InspectAlone(cfg: Config, db: Db, f: Frame, env: Env)
    requires f.pc == Inspect && f.job.Single? && f.left == {} && StillThere(db, f)
    ensures RunAlone(cfg, db, f, env) ==
            var up := f.job.up;
            var remote := RemoteCheck(cfg, f.storageKey, up.size, up.digest, env);
            var quota := QuotaIfLinked(cfg, db.rows, f.app, up.size);
            var key := StorageKey(up.app, up.digest);
            var final := Finalized(db.rows[up.digest], f.app, up, Some(key), env.now);
            if remote.Some? then Outcome(db, Fail(remote.value))
            else if quota.Some? then Outcome(db, Fail(quota.value))
            else if IdemTaken(db.rows, up.digest, final.idem) then Outcome(db, Fail(IdempotencyConflict))
            else Outcome(LogAndRetain(cfg, db.(rows := db.rows[up.digest := final]), f.id.value, f.app, env.tie),
                         Completed(f.id.value, false, false, key, final.idem))
  {
    hide RunAlone, Advance, LogAndRetain, QuotaIfLinked, IdemTaken, Finalized, RemoteCheck, StorageKey;
    StepAlone(cfg, db, f, env);
    LinkSteps(cfg, db, f, env);
    var remote := RemoteCheck(cfg, f.storageKey, f.job.up.size, f.job.up.digest, env);
    if remote.Some? {
      DoneAlone(cfg, db, Fin(f, Fail(remote.value)), env);
    } else {
      var count := QuotaAlone(cfg, db, f, env);
      WriteAlone(cfg, db, f.(pc := Write, count := count), env);
    }
  }

  lemma LinkSteps(cfg: Config, db: Db, f: Frame, env: Env)
    ensures f.pc == ReadKey && StillThere(db, f) ==>
              Advance(cfg, db, f, env) ==
              (db, if db.rows[f.job.up.digest].idem.Some? && db.rows[f.job.up.digest].idem != f.job.up.idem then
                     Fin(f, Fail(IdempotencyConflict)) else AfterKeyCheck(f))
    ensures f.pc == Link && StillThere(db, f) ==>
              Advance(cfg, db, f, env) == (Backfill(db, f.job.up.digest, f.app), f.(pc := Inspect))
    ensures f.pc == Inspect ==>
              Advance(cfg, db, f, env) ==
              (db, var remote := RemoteCheck(cfg, f.storageKey, f.job.up.size, f.job.up.digest, env);
                   if remote.Some? then Fin(f, Fail(remote.value)) else ToQuota(cfg, f))
  {
    hide RemoteCheck, ToQuota, Backfill, AfterKeyCheck;
  }

  /** Linking the row, when the application is known, and then the rest. */
  lemma LinkAlone(cfg: Config, db: Db, f: Frame, env: Env)
    requires f.job.Single? && StillThere(db, f)
    ensures RunAlone(cfg, db, AfterKeyCheck(f), env) ==
            RunAlone(cfg, Backfill(db, f.job.up.digest, f.app), f.(pc := Inspect), env)
  {
    hide RunAlone, Advance;
    if f.app.Some? {
      var g := f.(pc := Link);
      StepAlone(cfg, db, g, env);
      LinkSteps(cfg, db, g, env);
    }
  }

  lemma PendingAlone(cfg: Config, db: Db, f: Frame, env: Env)
    requires f.pc == FindRow && f.job.Single? && f.left == {} && f.app == AppNamed(db.apps, f.job.up.app)
    requires f.job.up.digest in db.rows && db.rows[f.job.up.digest].status == Pending
    ensures RunAlone(cfg, db, f, env) == CompletePending(cfg, db, f.job.up, env)
  {
    hide RunAlone, Advance, LogAndRetain, QuotaIfLinked, IdemTaken, RemoteCheck, StorageKey;
    var up := f.job.up;
    var row := db.rows[up.digest];
    StepAlone(cfg, db, f, env);
    EarlySteps(cfg, db, f, env);
    var g := f.(id := Some(row.id), storageKey := row.storageKey);
    var db1 := Backfill(db, up.digest, f.app);
    var h := g.(pc := Inspect);
    if up.idem.Some? {
      var r := g.(pc := ReadKey);
      StepAlone(cfg, db, r, env);
      LinkSteps(cfg, db, r, env);
      if row.idem.Some? && row.idem != up.idem {
        DoneAlone(cfg, db, Fin(r, Fail(IdempotencyConflict)), env);
        return;
      }
      assert AfterKeyCheck(r) == AfterKeyCheck(g);
    }
    LinkAlone(cfg, db, g, env);
    InspectAlone(cfg, db1, h, env);
  }

  lemma FreshSteps(cfg: Config, db: Db, f: Frame, env: Env)
    ensures f.pc == LoadKeys ==>
              Advance(cfg, db, f, env) ==
              (db, var g := f.(verified := SignatureOk(cfg, db, AppNamed(db.apps, f.job.up.app), f.job.up.digest,
                                                       f.job.up.signature));
                   if f.job.up.idem.Some? then g.(pc := FindKey) else ToQuota(cfg, g))
    ensures f.pc == FindKey ==>
              Advance(cfg, db, f, env) ==
              (db, if IdemTaken(db.rows, f.job.up.digest, f.job.up.idem) then Fin(f, Fail(IdempotencyConflict))
                   else ToQuota(cfg, f))
  {
    hide SignatureOk, ToQuota, IdemTaken;
  }

  lemma FreshAlone(cfg: Config, db: Db, f: Frame, env: Env)
    requires f.pc == LoadKeys && f.job.Single? && f.left == {} && f.app == AppNamed(db.apps, f.job.up.app)
    requires f.id.None? && f.job.up.digest !in db.rows
    ensures RunAlone(cfg, db, f, env) == CompleteFresh(cfg, db, f.job.up, env)
  {
    hide RunAlone, Advance, LogAndRetain, QuotaIfLinked, StorageKey, SignatureOk;
    var up := f.job.up;
    StepAlone(cfg, db, f, env);
    FreshSteps(cfg, db, f, env);
    var g := f.(verified := SignatureOk(cfg, db, f.app, up.digest, up.signature));
    if up.idem.Some? {
      var r := g.(pc := FindKey);
      StepAlone(cfg, db, r, env);
      FreshSteps(cfg, db, r, env);
      if IdemTaken(db.rows, up.digest, up.idem) {
        DoneAlone(cfg, db, Fin(r, Fail(IdempotencyConflict)), env);
        return;
      }
      assert ToQuota(cfg, r) == ToQuota(cfg, g);
    }
    var count := QuotaAlone(cfg, db, g, env);
    WriteAlone(cfg, db, g.(pc := Write, count := count), env);
  }

  lemma SingleAlone(cfg: Config, db: Db, job: Job, env: Env)
    requires Admissible(cfg, job) && job.Single?
    ensures RunAlone(cfg, db, Start(job), env) == CompleteArtifact(cfg, db, job.up, env)
  {
    hide RunAlone, Advance, CompletePending, CompleteFresh, CompleteError;
    var f := Start(job);
    StepAlone(cfg, db, f, env);
    EarlySteps(cfg, db, f, env);
    var g := f.(app := AppNamed(db.apps, job.up.app), pc := FindRow);
    if job.up.digest in db.rows && db.rows[job.up.digest].status == Pending {
      PendingAlone(cfg, db, g, env);
    } else {
      StepAlone(cfg, db, g, env);
      EarlySteps(cfg, db, g, env);
      var h := FindStep(cfg, db, g, env);
      if h.pc == Done { DoneAlone(cfg, db, h, env); } else { FreshAlone(cfg, db, h, env); }
    }
  }

  function RequestOf(job: Job, parts: seq<(int, string)>): Request {
    if job.Single? then Complete(job.up) else MultipartComplete(job.up, job.uploadId, parts)
  }

  /** Uninterrupted, the statements of a completion do what its handler does: same tables, same reply. */
  lemma StatementsRefineHandler(cfg: Config, db: Db, job: Job, parts: seq<(int, string)>, env: Env)
    requires Admissible(cfg, job)
    ensures RunAlone(cfg, db, Start(job), env) == Handle(cfg, db, RequestOf(job, parts), env)
  {
    hide RunAlone, Advance, CompleteArtifact, CompleteMultipart, CompleteError, IsHex;
    if job.Single? { SingleAlone(cfg, db, job, env); } else { MultipartAlone(cfg, db, job, env); }
  }
}
