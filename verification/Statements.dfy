/** The completion handlers as the sequences of SQL statements they are. Each request in flight holds
    one pool connection; between two of its statements any other statement may run. */
module Statements {
  import opened Prelude
  import opened Schema
  import opened Handlers

  datatype Job = Single(up: Upload) | Multi(up: Upload, uploadId: string)

  /** The next statement of a request in flight. */
  datatype Pc =
    | ResolveApp | FindRow
    | ReadKey | Link | Inspect        // complete, for a pending row
    | LoadKeys | FindKey              // complete, for a digest without a row
    | CountRows | SumBytes | Write    // quota and the final write
    | LogStored | PickObsolete | LogDelete | DeleteObsolete
    | Done

  /** A request in flight with what it has read so far: its application, the id and storage key of the
      row it found, the row count, and the ids it will delete. */
  datatype Frame = Frame(
    job: Job, pc: Pc, app: Option<nat>, id: Option<nat>, storageKey: Option<string>,
    verified: bool, count: int, obsolete: set<nat>, left: set<nat>, reply: Option<Reply>)

  predicate Admissible(cfg: Config, job: Job) {
    if job.Single? then CompleteError(cfg, job.up).None? else IsHex(job.up.digest, 64) && job.up.size >= 0
  }

  function Start(job: Job): Frame {
    Frame(job, if job.Single? then ResolveApp else FindRow, None, None, None, false, 0, {}, {}, None)
  }

  function Fin(f: Frame, reply: Reply): Frame {
    f.(pc := Done, reply := Some(reply))
  }

  /** Quotas are queried only for a linked request under a configured limit. */
  function ToQuota(cfg: Config, f: Frame): Frame {
    f.(pc := if f.app.Some? && (cfg.MaxCount().Some? || cfg.MaxBytes().Some?) then CountRows else Write)
  }

  function AfterKeyCheck(f: Frame): Frame {
    f.(pc := if f.app.Some? then Link else Inspect)
  }

  /** The row under the request's digest, if it still has the id that the request found. */
  predicate StillThere(db: Db, f: Frame) {
    f.job.up.digest in db.rows && f.id == Some(db.rows[f.job.up.digest].id)
  }

  function FindStep(cfg: Config, db: Db, f: Frame, env: Env): Frame {
    var up := f.job.up;
    if up.digest !in db.rows then
      if f.job.Multi? then Fin(f, Fail(UnknownDigest))
      else if cfg.requirePresign then Fin(f, Fail(PresignRequired))
      else f.(pc := LoadKeys)
    else
      var row := db.rows[up.digest];
      if f.job.Single? then
        if row.status == Stored then
          Fin(f, Completed(row.id, true, row.verified, OrElse(row.storageKey, ""), up.idem))
        else
          var g := f.(id := Some(row.id), storageKey := row.storageKey);
          if up.idem.Some? then g.(pc := ReadKey) else AfterKeyCheck(g)
      else if row.status == Stored then Fin(f, Assembled(OrElse(row.storageKey, "")))
      else if row.storageKey.None? then Fin(f, Fail(MissingStorageKey))
      else if row.uploadId != Some(f.job.uploadId) then Fin(f, Fail(UploadIdMismatch))
      else if !env.assembleOk then Fin(f, Fail(MultipartUnsupported))
      else f.(id := Some(row.id), storageKey := row.storageKey, pc := ResolveApp)
  }

  /** The final UPDATE (of a row found before) or INSERT. */
  function WriteStep(cfg: Config, db: Db, f: Frame, env: Env): (Db, Frame) {
    var up := f.job.up;
    if f.id.Some? then
      if !StillThere(db, f) then (db, Fin(f, Fail(DbUpdate)))
      else
        var row := db.rows[up.digest];
        var key := if f.job.Single? then Some(StorageKey(up.app, up.digest)) else row.storageKey;
        var final := Finalized(row, f.app, up, key, env.now);
        if IdemTaken(db.rows, up.digest, final.idem) then
          (db, Fin(f, Fail(if f.job.Single? then IdempotencyConflict else DbUpdate)))
        else
          var reply := if f.job.Single? then
                         Completed(f.id.value, false, false, StorageKey(up.app, up.digest), final.idem)
                       else Assembled(OrElse(f.storageKey, ""));
          (db.(rows := db.rows[up.digest := final]), f.(pc := LogStored, reply := Some(reply)))
    else if up.digest in db.rows then (db, Fin(f, Fail(DbInsert)))
    else if IdemTaken(db.rows, up.digest, up.idem) then (db, Fin(f, Fail(IdempotencyConflict)))
    else
      var key := StorageKey(up.app, up.digest);
      var row := Row(0, f.app, up.size, up.signature, f.verified, Some(key), Stored,
                     env.now, Some(env.now), up.idem, None);
      (InsertRow(db, up.digest, row),
       f.(pc := LogStored, id := Some(db.nextId),
          reply := Some(Completed(db.nextId, false, f.verified, key, up.idem))))
  }

  /** Runs the next statement of a request. */
  ghost function Advance(cfg: Config, db: Db, f: Frame, env: Env): (Db, Frame) {
    var up := f.job.up;
    match f.pc
    case ResolveApp =>
      var g := f.(app := AppNamed(db.apps, up.app));
      (db, if f.job.Single? then g.(pc := FindRow) else ToQuota(cfg, g))
    case FindRow => (db, FindStep(cfg, db, f, env))
    case ReadKey =>
      (db, if StillThere(db, f) && db.rows[up.digest].idem.Some? && db.rows[up.digest].idem != up.idem then
             Fin(f, Fail(IdempotencyConflict))
           else AfterKeyCheck(f))
    case Link =>
      (if StillThere(db, f) then Backfill(db, up.digest, f.app) else db, f.(pc := Inspect))
    case Inspect =>
      var remote := RemoteCheck(cfg, f.storageKey, up.size, up.digest, env);
      (db, if remote.Some? then Fin(f, Fail(remote.value)) else ToQuota(cfg, f))
    case LoadKeys =>
      var verified := SignatureOk(cfg, db, AppNamed(db.apps, up.app), up.digest, up.signature);
      var g := f.(verified := verified);
      (db, if up.idem.Some? then g.(pc := FindKey) else ToQuota(cfg, g))
    case FindKey =>
      (db, if IdemTaken(db.rows, up.digest, up.idem) then Fin(f, Fail(IdempotencyConflict)) else ToQuota(cfg, f))
    case CountRows =>
      (db, if f.app.Some? then f.(count := StoredCount(db.rows, f.app.value), pc := SumBytes) else f.(pc := Write))
    case SumBytes =>
      (db, if cfg.MaxCount().Some? && f.count >= cfg.MaxCount().value then Fin(f, Fail(CountQuota))
           else if f.app.Some? && cfg.MaxBytes().Some?
                && Wrap64(StoredBytes(db.rows, f.app.value) + up.size) > cfg.MaxBytes().value then
             Fin(f, Fail(ByteQuota))
           else f.(pc := Write))
    case Write => WriteStep(cfg, db, f, env)
    case LogStored =>
      (if f.id.Some? then LogEvent(db, f.id.value, StoredEvent) else db,
       f.(pc := if f.app.Some? && cfg.Retain() > 0 then PickObsolete else Done))
    case PickObsolete =>
      var ids := if f.app.Some? then IdsOf(db.rows, Obsolete(db.rows, f.app.value, cfg.Retain(), env.tie)) else {};
      (db, f.(obsolete := ids, left := ids, pc := if ids == {} then Done else LogDelete))
    case LogDelete =>
      if f.left == {} then (db, f.(pc := DeleteObsolete))
      else
        var id :| id in f.left;
        (LogEvent(db, id, RetentionDelete), f.(left := f.left - {id}))
    case DeleteObsolete => (DeleteIds(db, f.obsolete), f.(pc := Done))
    case Done => (db, f)
  }

  // ---- a request that runs alone

  function Rank(pc: Pc): nat {
    match pc
    case Done => 0
    case DeleteObsolete => 1
    case LogDelete => 2
    case PickObsolete => 3
    case LogStored => 4
    case Write => 5
    case SumBytes => 6
    case CountRows => 7
    case Inspect => 8
    case FindKey => 8
    case Link => 9
    case LoadKeys => 9
    case ReadKey => 10
    case FindRow => 12
    case ResolveApp => 13
  }

  /** Remaining work; a multipart request resolves its application after it found its row. */
  function Remaining(f: Frame): nat {
    if f.job.Multi? && f.pc == ResolveApp then 11 else Rank(f.pc)
  }

  lemma AdvanceProgress(cfg: Config, db: Db, f: Frame, env: Env)
    requires f.pc != Done
    ensures var g := Advance(cfg, db, f, env).1;
            g.job == f.job &&
            (Remaining(g) < Remaining(f) || (Remaining(g) == Remaining(f) && g.left < f.left))
  {
    hide SignatureOk, IdemTaken, RemoteCheck, LogEvent, DeleteIds, StoredBytes, Wrap64, InsertRow, Finalized,
         Backfill, Obsolete, StorageKey, OrElse, IdsOf;
  }

  /** All remaining statements of one request, with nothing in between. */
  ghost function RunAlone(cfg: Config, db: Db, f: Frame, env: Env): Outcome
    decreases Remaining(f), f.left
  {
    if f.pc == Done then Outcome(db, if f.reply.Some? then f.reply.value else Fail(NotFound))
    else
      AdvanceProgress(cfg, db, f, env);
      hide Advance;
      var next := Advance(cfg, db, f, env);
      RunAlone(cfg, next.0, next.1, env)
  }
}
