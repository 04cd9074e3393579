/** What each HTTP handler of the artifact registry does to the tables and what it answers,
    when its SQL statements run without interruption. */
module Handlers {
  import opened Prelude
  import opened Schema

  const MICROS: int := 1_000_000

  /** Environment variables as parsed integers and flags, and the two cryptographic primitives.
      `verifies(key, message, signature)` is Ed25519 verification; `sha` is SHA-256 in lower-case hex. */
  datatype Config = Config(
    maxCountVar: Option<int>, maxBytesVar: Option<int>, retainVar: Option<int>, maxSizeVar: Option<int>,
    requirePresign: bool, verifySize: bool, verifyDigest: bool, verifyHash: bool, hashMaxBytes: int,
    verifies: (string, string, string) -> bool, sha: seq<Byte> -> string)
  {
    /** A limit that is absent, zero or negative is no limit. */
    static function Positive(v: Option<int>): Option<int> {
      if v.Some? && v.value > 0 then v else None
    }

    function MaxCount(): Option<int> { Positive(maxCountVar) }

    function MaxBytes(): Option<int> { Positive(maxBytesVar) }

    function Retain(): nat { if retainVar.Some? && retainVar.value > 0 then retainVar.value else 0 }

    predicate TooLarge(size: int) {
      maxSizeVar.Some? && maxSizeVar.value > 0 && size > maxSizeVar.value
    }
  }

  /** What one request sees of the world outside the tables: the clock, the database's choice among
      equal timestamps, and the answers of the storage backend. */
  datatype Env = Env(
    now: int, tie: TieBreak, presignOk: bool, headSize: Option<int>, metaSha: Option<string>,
    remoteSha: Option<string>, newUpload: Option<string>, partOk: bool, assembleOk: bool)

  /** The fields common to both completion requests. */
  datatype Upload = Upload(app: string, digest: string, size: int, signature: Option<string>, idem: Option<string>)

  datatype Request =
    | Presign(app: string, digest: string)
    | Complete(up: Upload)
    | LegacyUpload(name: Option<string>, header: Option<string>, content: Option<seq<Byte>>, sig: Option<string>)
    | MultipartInit(app: string, digest: string)
    | PresignPart(digest: string, uploadId: string, number: int)
    | MultipartComplete(up: Upload, uploadId: string, parts: seq<(int, string)>)
    | SweepPending(ttl: int)
    | Head(digest: string)
    | AddKey(app: string, publicKey: string)
    | CreateApp(app: string)

  datatype Error =
    | AppNameRequired | InvalidDigest | NegativeSize | SizeExceeded | PresignBackend | PresignRequired
    | IdempotencyConflict | SizeMismatch | DigestMismatch | HashMismatch | CountQuota | ByteQuota
    | DbUpdate | DbInsert | UnknownDigest | AlreadyStored | MissingStorageKey | UploadIdMismatch
    | MultipartUnsupported | BadPartNumber | MissingDigest | MissingApp | MissingFile | NotFound
    | BadKey | AppUnknown | AppExists

  datatype Reply =
    | Fail(error: Error)
    | PutUrl(storageKey: string)
    | NoUpload(storageKey: string)
    | Completed(id: nat, duplicate: bool, verified: bool, storageKey: string, idem: Option<string>)
    | Uploaded(duplicate: bool, linked: bool, verified: bool)
    | Initiated(uploadId: string, storageKey: string)
    | PartUrl
    | Assembled(storageKey: string)
    | Swept(deleted: nat)
    | Exists
    | KeyAdded(app: nat)
    | AppCreated(app: nat)

  datatype Outcome = Outcome(db: Db, reply: Reply)

  function StorageKey(app: string, digest: string): string {
    "artifacts/" + app + "/" + digest + "/app.tar.gz"
  }

  function OrElse(o: Option<string>, default: string): string {
    if o.Some? then o.value else default
  }

  /** SQL COALESCE. */
  function Coalesce(x: Option<string>, y: Option<string>): Option<string> {
    if x.Some? then x else y
  }

  function PendingRow(app: Option<nat>, storageKey: string, uploadId: Option<string>, now: int): Row {
    Row(0, app, 0, None, false, Some(storageKey), Pending, now, None, None, uploadId)
  }

  // ---- presign and complete (single part)

  function PresignArtifact(db: Db, app: string, digest: string, env: Env): Outcome {
    if Blank(app) then Outcome(db, Fail(AppNameRequired))
    else if !IsHex(digest, 64) then Outcome(db, Fail(InvalidDigest))
    else if digest in db.rows then
      var row := db.rows[digest];
      if row.status == Stored then Outcome(db, NoUpload(OrElse(row.storageKey, "")))
      else if !env.presignOk then Outcome(db, Fail(PresignBackend))
      else Outcome(db, PutUrl(OrElse(row.storageKey, StorageKey(app, digest))))
    else if !env.presignOk then Outcome(db, Fail(PresignBackend))
    else
      var key := StorageKey(app, digest);
      Outcome(InsertRow(db, digest, PendingRow(AppNamed(db.apps, app), key, None, env.now)), PutUrl(key))
  }

  /** The quota decision; the byte comparison is an i64 addition. */
  ghost function Quota(cfg: Config, rows: Rows, a: nat, size: int): Option<Error> {
    if cfg.MaxCount().Some? && StoredCount(rows, a) >= cfg.MaxCount().value then Some(CountQuota)
    else if cfg.MaxBytes().Some? && Wrap64(StoredBytes(rows, a) + size) > cfg.MaxBytes().value then Some(ByteQuota)
    else None
  }

  ghost function QuotaIfLinked(cfg: Config, rows: Rows, app: Option<nat>, size: int): Option<Error> {
    if app.Some? then Quota(cfg, rows, app.value, size) else None
  }

  /** Logs one event for each obsolete row, then deletes the rows, which removes the events again. */
  function Retain(cfg: Config, db: Db, app: Option<nat>, tie: TieBreak): Db {
    if app.None? || cfg.Retain() == 0 then db
    else
      var ids := IdsOf(db.rows, Obsolete(db.rows, app.value, cfg.Retain(), tie));
      if ids == {} then db else DeleteIds(db, ids).(nextSerial := db.nextSerial + |ids|)
  }

  function LogAndRetain(cfg: Config, db: Db, id: nat, app: Option<nat>, tie: TieBreak): Db {
    Retain(cfg, LogEvent(db, id, StoredEvent), app, tie)
  }

  /** The three optional checks of the remote object against the reported size and digest. */
  function RemoteCheck(cfg: Config, sk: Option<string>, size: int, digest: string, env: Env): Option<Error> {
    if sk.None? then None
    else if cfg.verifySize && env.headSize.Some? && env.headSize.value != size then Some(SizeMismatch)
    else if cfg.verifyDigest && env.metaSha.Some? && env.metaSha.value != digest then Some(DigestMismatch)
    else if cfg.verifyHash && cfg.hashMaxBytes > 0 && env.remoteSha.Some? && env.remoteSha.value != digest then
      Some(HashMismatch)
    else None
  }

  function Backfill(db: Db, digest: string, app: Option<nat>): Db
    requires digest in db.rows
  {
    if app.Some? && db.rows[digest].app.None? then
      db.(rows := db.rows[digest := db.rows[digest].(app := app)])
    else db
  }

  /** The row that the finalizing UPDATE writes; only complete passes a new storage key. */
  function Finalized(row: Row, app: Option<nat>, up: Upload, storageKey: Option<string>, now: int): Row {
    row.(app := app, size := up.size, signature := up.signature, verified := false,
         storageKey := storageKey, status := Stored, completedAt := Some(now),
         idem := Coalesce(row.idem, up.idem))
  }

  function CompleteError(cfg: Config, up: Upload): Option<Error> {
    if Blank(up.app) then Some(AppNameRequired)
    else if !IsHex(up.digest, 64) then Some(InvalidDigest)
    else if up.size < 0 then Some(NegativeSize)
    else if cfg.TooLarge(up.size) then Some(SizeExceeded)
    else None
  }

  ghost function CompletePending(cfg: Config, db: Db, up: Upload, env: Env): Outcome
    requires up.digest in db.rows
  {
    var app := AppNamed(db.apps, up.app);
    var row := db.rows[up.digest];
    if up.idem.Some? && row.idem.Some? && row.idem != up.idem then Outcome(db, Fail(IdempotencyConflict))
    else
      var db1 := Backfill(db, up.digest, app);
      var remote := RemoteCheck(cfg, row.storageKey, up.size, up.digest, env);
      if remote.Some? then Outcome(db1, Fail(remote.value))
      else
        var quota := QuotaIfLinked(cfg, db1.rows, app, up.size);
        if quota.Some? then Outcome(db1, Fail(quota.value))
        else
          var key := StorageKey(up.app, up.digest);
          var final := Finalized(db1.rows[up.digest], app, up, Some(key), env.now);
          if IdemTaken(db1.rows, up.digest, final.idem) then Outcome(db1, Fail(IdempotencyConflict))
          else
            var db2 := db1.(rows := db1.rows[up.digest := final]);
            Outcome(LogAndRetain(cfg, db2, row.id, app, env.tie),
                    Completed(row.id, false, false, key, final.idem))
  }

  /** Some active key of the application verifies the signature over the digest. */
  predicate SignedBy(cfg: Config, keys: map<(nat, string), bool>, a: nat, digest: string, sig: string) {
    exists k :: k in keys && k.0 == a && keys[k] && cfg.verifies(k.1, digest, sig)
  }

  predicate SignatureOk(cfg: Config, db: Db, app: Option<nat>, digest: string, sig: Option<string>) {
    && sig.Some? && IsHex(sig.value, 128) && app.Some?
    && SignedBy(cfg, db.keys, app.value, digest, sig.value)
  }

  ghost function CompleteFresh(cfg: Config, db: Db, up: Upload, env: Env): Outcome {
    var app := AppNamed(db.apps, up.app);
    if IdemTaken(db.rows, up.digest, up.idem) then Outcome(db, Fail(IdempotencyConflict))
    else
      var quota := QuotaIfLinked(cfg, db.rows, app, up.size);
      if quota.Some? then Outcome(db, Fail(quota.value))
      else
        var key := StorageKey(up.app, up.digest);
        var verified := SignatureOk(cfg, db, app, up.digest, up.signature);
        var row := Row(0, app, up.size, up.signature, verified, Some(key), Stored,
                       env.now, Some(env.now), up.idem, None);
        Outcome(LogAndRetain(cfg, InsertRow(db, up.digest, row), db.nextId, app, env.tie),
                Completed(db.nextId, false, verified, key, up.idem))
  }

  ghost function CompleteArtifact(cfg: Config, db: Db, up: Upload, env: Env): Outcome {
    var error := CompleteError(cfg, up);
    if error.Some? then Outcome(db, Fail(error.value))
    else if up.digest !in db.rows then
      if cfg.requirePresign then Outcome(db, Fail(PresignRequired)) else CompleteFresh(cfg, db, up, env)
    else
      var row := db.rows[up.digest];
      if row.status == Stored then
        Outcome(db, Completed(row.id, true, row.verified, OrElse(row.storageKey, ""), up.idem))
      else CompletePending(cfg, db, up, env)
  }

  // ---- legacy upload (its effect on the tables)

  function UploadArtifact(cfg: Config, db: Db, name: Option<string>, header: Option<string>,
                          content: Option<seq<Byte>>, sig: Option<string>, env: Env): Outcome
  {
    if header.None? then Outcome(db, Fail(MissingDigest))
    else if !IsHex(header.value, 64) then Outcome(db, Fail(InvalidDigest))
    else if name.None? then Outcome(db, Fail(MissingApp))
    else if content.None? then Outcome(db, Fail(MissingFile))
    else if cfg.sha(content.value) != header.value then Outcome(db, Fail(DigestMismatch))
    else
      var digest := header.value;
      if digest in db.rows then
        Outcome(db, Uploaded(true, db.rows[digest].app.Some?, db.rows[digest].verified))
      else if cfg.TooLarge(|content.value|) then Outcome(db, Fail(SizeExceeded))
      else
        var app := AppNamed(db.apps, name.value);
        var verified := SignatureOk(cfg, db, app, digest, sig);
        var row := Row(0, app, |content.value|, sig, verified, None, Stored, env.now, None, None, None);
        Outcome(InsertRow(db, digest, row), Uploaded(false, app.Some?, verified))
  }

  // ---- multipart

  function InitMultipart(db: Db, app: string, digest: string, env: Env): Outcome {
    if !IsHex(digest, 64) then Outcome(db, Fail(InvalidDigest))
    else if digest in db.rows && db.rows[digest].status == Stored then Outcome(db, Fail(AlreadyStored))
    else if env.newUpload.None? then Outcome(db, Fail(MultipartUnsupported))
    else
      var key := StorageKey(app, digest);
      Outcome(
        if digest in db.rows then
          db.(rows := db.rows[digest := db.rows[digest].(uploadId := env.newUpload, storageKey := Some(key))])
        else InsertRow(db, digest, PendingRow(None, key, env.newUpload, env.now)),
        Initiated(env.newUpload.value, key))
  }

  function PresignMultipartPart(db: Db, digest: string, uploadId: string, number: int, env: Env): Reply {
    if !IsHex(digest, 64) then Fail(InvalidDigest)
    else if number <= 0 then Fail(BadPartNumber)
    else if digest !in db.rows then Fail(UnknownDigest)
    else if db.rows[digest].status == Stored then Fail(AlreadyStored)
    else if db.rows[digest].storageKey.None? then Fail(MissingStorageKey)
    else if db.rows[digest].uploadId != Some(uploadId) then Fail(UploadIdMismatch)
    else if !env.partOk then Fail(MultipartUnsupported)
    else PartUrl
  }

  ghost function CompleteMultipart(cfg: Config, db: Db, up: Upload, uploadId: string, env: Env): Outcome {
    if !IsHex(up.digest, 64) then Outcome(db, Fail(InvalidDigest))
    else if up.size < 0 then Outcome(db, Fail(NegativeSize))
    else if up.digest !in db.rows then Outcome(db, Fail(UnknownDigest))
    else
      var row := db.rows[up.digest];
      if row.status == Stored then Outcome(db, Assembled(OrElse(row.storageKey, "")))
      else if row.storageKey.None? then Outcome(db, Fail(MissingStorageKey))
      else if row.uploadId != Some(uploadId) then Outcome(db, Fail(UploadIdMismatch))
      else if !env.assembleOk then Outcome(db, Fail(MultipartUnsupported))
      else
        var app := AppNamed(db.apps, up.app);
        var quota := QuotaIfLinked(cfg, db.rows, app, up.size);
        if quota.Some? then Outcome(db, Fail(quota.value))
        else
          var final := Finalized(row, app, up, row.storageKey, env.now);
          if IdemTaken(db.rows, up.digest, final.idem) then Outcome(db, Fail(DbUpdate))
          else
            var db1 := db.(rows := db.rows[up.digest := final]);
            Outcome(LogAndRetain(cfg, db1, row.id, app, env.tie), Assembled(row.storageKey.value))
  }

  // ---- the remaining requests

  function SweepStale(db: Db, ttl: int, env: Env): Outcome {
    var stale := Stale(db.rows, env.now - MICROS * (if ttl > 0 then ttl else 0));
    Outcome(DeleteIds(db, IdsOf(db.rows, stale)), Swept(|stale|))
  }

  function HeadArtifact(db: Db, digest: string): Reply {
    if !IsHex(digest, 64) then Fail(InvalidDigest)
    else if digest in db.rows && db.rows[digest].status == Stored then Exists
    else Fail(NotFound)
  }

  function AddPublicKey(db: Db, app: string, publicKey: string): Outcome {
    if !IsHex(publicKey, 64) then Outcome(db, Fail(BadKey))
    else if app !in db.apps then Outcome(db, Fail(AppUnknown))
    else Outcome(db.(keys := db.keys[(db.apps[app], publicKey) := true]), KeyAdded(db.apps[app]))
  }

  function RegisterApp(db: Db, app: string): Outcome {
    if app in db.apps then Outcome(db, Fail(AppExists))
    else Outcome(db.(apps := db.apps[app := db.nextApp], nextApp := db.nextApp + 1), AppCreated(db.nextApp))
  }

  /** One request handled from start to end. */
  ghost function Handle(cfg: Config, db: Db, req: Request, env: Env): Outcome {
    match req
    case Presign(app, digest) => PresignArtifact(db, app, digest, env)
    case Complete(up) => CompleteArtifact(cfg, db, up, env)
    case LegacyUpload(name, header, content, sig) => UploadArtifact(cfg, db, name, header, content, sig, env)
    case MultipartInit(app, digest) => InitMultipart(db, app, digest, env)
    case PresignPart(digest, uploadId, number) => Outcome(db, PresignMultipartPart(db, digest, uploadId, number, env))
    case MultipartComplete(up, uploadId, _) => CompleteMultipart(cfg, db, up, uploadId, env)
    case SweepPending(ttl) => SweepStale(db, ttl, env)
    case Head(digest) => Outcome(db, HeadArtifact(db, digest))
    case AddKey(app, publicKey) => AddPublicKey(db, app, publicKey)
    case CreateApp(app) => RegisterApp(db, app)
  }

  // ---- runs of requests

  datatype Call = Call(req: Request, env: Env)

  /** The tables after handling `calls` one after the other. */
  ghost function Run(cfg: Config, db: Db, calls: seq<Call>): Db {
    if calls == [] then db
    else
      var before := Run(cfg, db, calls[..|calls| - 1]);
      Handle(cfg, before, calls[|calls| - 1].req, calls[|calls| - 1].env).db
  }

  /** The reply to the `i`-th request of a run. */
  ghost function ReplyAt(cfg: Config, db: Db, calls: seq<Call>, i: nat): Reply
    requires i < |calls|
  {
    Handle(cfg, Run(cfg, db, calls[..i]), calls[i].req, calls[i].env).reply
  }
}
