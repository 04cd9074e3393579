/** What every request of the registry answers and writes, field by field, in terms of the request, the tables
    and the world outside, without the functions that the handlers are made of. */
module Replies {
  import opened Prelude
  import opened Schema
  import opened Handlers
  import opened Invariant

  // ---- the environment variables

  /** An unset, zero or negative limit is none; any other is itself. */
  lemma LimitsFromVariables(cfg: Config, n: int)
    ensures cfg.MaxCount() == Some(n) <==> cfg.maxCountVar == Some(n) && n >= 1
    ensures cfg.MaxBytes() == Some(n) <==> cfg.maxBytesVar == Some(n) && n >= 1
    ensures cfg.Retain() == n && n != 0 <==> cfg.retainVar == Some(n) && n >= 1
    ensures cfg.TooLarge(n) <==> cfg.maxSizeVar.Some? && 1 <= cfg.maxSizeVar.value < n
  {
  }

  // ---- vocabulary of the checks

  lemma HexDigits(c: char)
    ensures IsHexDigit(c) <==> c in "0123456789abcdefABCDEF"
  {
  }

  /** The 25 characters that Unicode calls white space; a name made of them counts as empty. */
  lemma Blanks(s: string, c: char)
    ensures IsSpace(c) <==>
              || c in "\t\n\U{B}\U{C}\r \U{85}\U{A0}\U{1680}\U{2000}\U{2001}\U{2002}\U{2003}\U{2004}\U{2005}"
              || c in "\U{2006}\U{2007}\U{2008}\U{2009}\U{200A}\U{2028}\U{2029}\U{202F}\U{205F}\U{3000}"
    ensures Blank("")
    ensures Blank(s + [c]) <==> Blank(s) && IsSpace(c)
  {
    assert (s + [c])[|s|] == c && forall i :: 0 <= i < |s| ==> (s + [c])[i] == s[i];
  }

  lemma WordSize(x: int)
    ensures Wrap64(9_223_372_036_854_775_807) == 9_223_372_036_854_775_807
    ensures Wrap64(9_223_372_036_854_775_808) == -9_223_372_036_854_775_808
    ensures Wrap64(x + 18_446_744_073_709_551_616) == Wrap64(x)
  {
  }

  // ---- the object in the storage backend

  /** Whatever the backend reports, as far as it is to be checked, is what the client reports. */
  predicate RemoteAgrees(cfg: Config, size: int, digest: string, env: Env) {
    && (cfg.verifySize && env.headSize.Some? ==> env.headSize.value == size)
    && (cfg.verifyDigest && env.metaSha.Some? ==> env.metaSha.value == digest)
    && (cfg.verifyHash && cfg.hashMaxBytes > 0 && env.remoteSha.Some? ==> env.remoteSha.value == digest)
  }

  lemma RemoteCheckIff(cfg: Config, sk: string, size: int, digest: string, env: Env)
    ensures RemoteCheck(cfg, Some(sk), size, digest, env).None? <==> RemoteAgrees(cfg, size, digest, env)
  {
  }

  /** A pending row is completed only if each thing that the backend reports, and that is to be checked, is
      what the client reports. */
  lemma StoredAgreesWithRemote(cfg: Config, db: Db, up: Upload, env: Env)
    requires Inv(cfg, db) && up.digest in db.rows && db.rows[up.digest].status == Pending
    requires Handle(cfg, db, Complete(up), env).reply.Completed?
    ensures cfg.verifySize && env.headSize.Some? ==> env.headSize.value == up.size
    ensures cfg.verifyDigest && env.metaSha.Some? ==> env.metaSha.value == up.digest
    ensures cfg.verifyHash && cfg.hashMaxBytes > 0 && env.remoteSha.Some? ==> env.remoteSha.value == up.digest
  {
    assert RowOk(db.rows[up.digest]);
    hide Inv, RowOk, Backfill, LogAndRetain, StorageKey, IsHex, Blank, IdemTaken, QuotaIfLinked, Finalized;
  }

  /** For a valid request on a pending row, each mismatch is reported exactly when its comparison is the first
      that fails. */
  lemma MismatchIff(cfg: Config, db: Db, up: Upload, env: Env)
    requires Inv(cfg, db) && CompleteError(cfg, up).None?
    requires up.digest in db.rows && db.rows[up.digest].status == Pending
    ensures var reply := Handle(cfg, db, Complete(up), env).reply;
            var sizeOff := cfg.verifySize && env.headSize.Some? && env.headSize.value != up.size;
            var digestOff := cfg.verifyDigest && env.metaSha.Some? && env.metaSha.value != up.digest;
            var hashOff :=
              cfg.verifyHash && cfg.hashMaxBytes > 0 && env.remoteSha.Some? && env.remoteSha.value != up.digest;
            && (reply == Fail(SizeMismatch) <==> sizeOff)
            && (reply == Fail(DigestMismatch) <==> !sizeOff && digestOff)
            && (reply == Fail(HashMismatch) <==> !sizeOff && !digestOff && hashOff)
  {
    assert RowOk(db.rows[up.digest]);
    hide Inv, RowOk, CompleteError, Backfill, LogAndRetain, StorageKey, IdemTaken, Finalized;
  }

  // ---- presign

  lemma PresignAnswers(cfg: Config, db: Db, app: string, d: string, env: Env)
    ensures var out := Handle(cfg, db, Presign(app, d), env);
            var valid := !Blank(app) && IsHex(d, 64); var stored := d in db.rows && db.rows[d].status == Stored;
            && (out.reply == Fail(AppNameRequired) <==> Blank(app))
            && (out.reply == Fail(InvalidDigest) <==> !Blank(app) && !IsHex(d, 64))
            && (out.reply == Fail(PresignBackend) <==> valid && !stored && !env.presignOk)
            && (out.reply.NoUpload? <==> valid && stored)
            && (out.reply.NoUpload? && db.rows[d].storageKey.Some? ==>
                  Some(out.reply.storageKey) == db.rows[d].storageKey)
            && (out.reply.PutUrl? <==> valid && !stored && env.presignOk)
            && (out.reply.PutUrl? && d in db.rows && db.rows[d].storageKey.Some? ==>
                  Some(out.reply.storageKey) == db.rows[d].storageKey)
            && (out.reply.PutUrl? && (d !in db.rows || db.rows[d].storageKey.None?) ==>
                  out.reply.storageKey == "artifacts/" + app + "/" + d + "/app.tar.gz")
            && (out.db != db <==> out.reply.PutUrl? && d !in db.rows)
  {
    hide IsHex, Blank;
    if d !in db.rows { assert InsertRow(db, d, PendingRow(None, "", None, 0)).nextId != db.nextId; }
  }

  /** The row that presign inserts. */
  lemma PresignedRow(cfg: Config, db: Db, app: string, d: string, env: Env)
    requires d !in db.rows && Handle(cfg, db, Presign(app, d), env).reply.PutUrl?
    ensures var db' := Handle(cfg, db, Presign(app, d), env).db;
            && d in db'.rows && db' == db.(rows := db.rows[d := db'.rows[d]], nextId := db.nextId + 1)
            && var row := db'.rows[d];
               && row.id == db.nextId && row.status == Pending && row.createdAt == env.now
               && row.app == (if app in db.apps then Some(db.apps[app]) else None)
               && row.size == 0 && row.signature.None? && !row.verified && row.completedAt.None?
               && row.idem.None? && row.uploadId.None?
               && row.storageKey == Some("artifacts/" + app + "/" + d + "/app.tar.gz")
  {
    hide IsHex, Blank;
  }

  // ---- complete

  /** The checks that come first, in their order. */
  lemma CompleteRefusals(cfg: Config, db: Db, up: Upload, env: Env)
    ensures var reply := Handle(cfg, db, Complete(up), env).reply;
            var named, hex, sized := !Blank(up.app), IsHex(up.digest, 64), up.size >= 0;
            var large := cfg.maxSizeVar.Some? && cfg.maxSizeVar.value > 0 && up.size > cfg.maxSizeVar.value;
            && (reply == Fail(AppNameRequired) <==> !named)
            && (reply == Fail(InvalidDigest) <==> named && !hex)
            && (reply == Fail(NegativeSize) <==> named && hex && !sized)
            && (reply == Fail(SizeExceeded) <==> named && hex && sized && large)
            && (reply == Fail(PresignRequired) <==>
                  named && hex && sized && !large && up.digest !in db.rows && cfg.requirePresign)
  {
    hide IsHex, Blank, StoredCount, StoredBytes, Wrap64, LogAndRetain, Backfill, IdemTaken, Finalized, StorageKey,
         SignatureOk;
  }

  /** The row of a completed upload, if retention is off: what was presigned keeps its id and its place in
      time; all else is as the request has it. */
  lemma CompletedRow(cfg: Config, db: Db, up: Upload, env: Env)
    requires Inv(cfg, db) && cfg.Retain() == 0
    requires NewlyStored(db, Complete(up), Handle(cfg, db, Complete(up), env).reply)
    ensures var out := Handle(cfg, db, Complete(up), env); var d := up.digest;
            && d in out.db.rows && out.db.rows == db.rows[d := out.db.rows[d]]
            && var row := out.db.rows[d];
               && row.status == Stored && row.size == up.size && row.signature == up.signature
               && row.app == (if up.app in db.apps then Some(db.apps[up.app]) else None)
               && row.storageKey == Some("artifacts/" + up.app + "/" + d + "/app.tar.gz")
               && row.idem == up.idem && row.completedAt == Some(env.now)
               && row.id == (if d in db.rows then db.rows[d].id else db.nextId)
               && row.createdAt == (if d in db.rows then db.rows[d].createdAt else env.now)
               && row.uploadId == (if d in db.rows then db.rows[d].uploadId else None)
               && out.reply == Completed(row.id, false, row.verified, row.storageKey.value, row.idem)
  {
    if up.digest in db.rows { assert RowOk(db.rows[up.digest]); }
    hide Inv, RowOk, IsHex, Blank, Quota, IdemTaken, SignatureOk, RemoteCheck;
  }

  // ---- legacy upload

  lemma LegacyAnswers(cfg: Config, db: Db, name: Option<string>, header: Option<string>,
                      content: Option<seq<Byte>>, sig: Option<string>, env: Env)
    ensures var out := Handle(cfg, db, LegacyUpload(name, header, content, sig), env);
            var hex := header.Some? && IsHex(header.value, 64);
            var whole := hex && name.Some? && content.Some?;
            var right := whole && cfg.sha(content.value) == header.value;
            var known := right && header.value in db.rows;
            var large := right && cfg.maxSizeVar.Some? && 0 < cfg.maxSizeVar.value < |content.value|;
            && (out.reply == Fail(MissingDigest) <==> header.None?)
            && (out.reply == Fail(InvalidDigest) <==> header.Some? && !hex)
            && (out.reply == Fail(MissingApp) <==> hex && name.None?)
            && (out.reply == Fail(MissingFile) <==> hex && name.Some? && content.None?)
            && (out.reply == Fail(DigestMismatch) <==> whole && !right)
            && (out.reply == Fail(SizeExceeded) <==> large && !known)
            && (known ==>
                  var row := db.rows[header.value]; out == Outcome(db, Uploaded(true, row.app.Some?, row.verified)))
            && (out.reply.Uploaded? <==> known || (right && !large))
            && (out.reply.Uploaded? && !known ==> !out.reply.duplicate)
            && (out.db != db <==> right && !known && !large)
  {
    hide IsHex, SignatureOk;
    if out: Outcome :| out == Handle(cfg, db, LegacyUpload(name, header, content, sig), env) && out.db != db {
      assert out.db.nextId == db.nextId + 1;
    }
  }

  /** The row that a legacy upload inserts. */
  lemma LegacyRowFields(cfg: Config, db: Db, name: string, d: string, content: seq<Byte>, sig: Option<string>, env: Env)
    requires d !in db.rows
    requires Handle(cfg, db, LegacyUpload(Some(name), Some(d), Some(content), sig), env).reply.Uploaded?
    ensures var out := Handle(cfg, db, LegacyUpload(Some(name), Some(d), Some(content), sig), env);
            && d in out.db.rows && out.db == db.(rows := db.rows[d := out.db.rows[d]], nextId := db.nextId + 1)
            && var row := out.db.rows[d];
               && row.id == db.nextId && row.status == Stored && row.createdAt == env.now && row.size == |content|
               && row.app == (if name in db.apps then Some(db.apps[name]) else None)
               && row.signature == sig && row.storageKey.None? && row.completedAt.None? && row.idem.None?
               && (row.verified <==>
                     && name in db.apps && sig.Some? && IsHex(sig.value, 128)
                     && exists k :: (k in db.keys && k.0 == db.apps[name] && db.keys[k]
                                     && cfg.verifies(k.1, d, sig.value)))
               && out.reply == Uploaded(false, name in db.apps, row.verified)
  {
    hide IsHex;
  }

  // ---- multipart

  lemma InitAnswers(cfg: Config, db: Db, app: string, d: string, env: Env)
    ensures var out := Handle(cfg, db, MultipartInit(app, d), env);
            var stored := d in db.rows && db.rows[d].status == Stored;
            var key := "artifacts/" + app + "/" + d + "/app.tar.gz";
            && (out.reply == Fail(InvalidDigest) <==> !IsHex(d, 64))
            && (out.reply == Fail(AlreadyStored) <==> IsHex(d, 64) && stored)
            && (out.reply == Fail(MultipartUnsupported) <==> IsHex(d, 64) && !stored && env.newUpload.None?)
            && (out.reply.Initiated? <==> IsHex(d, 64) && !stored && env.newUpload.Some?)
            && (out.reply.Initiated? ==>
                  && Some(out.reply.uploadId) == env.newUpload && out.reply.storageKey == key
                  && d in out.db.rows && out.db.rows == db.rows[d := out.db.rows[d]]
                  && var row := out.db.rows[d];
                     && row.status == Pending && row.uploadId == env.newUpload && row.storageKey == Some(key)
                     && if d in db.rows then
                          row == db.rows[d].(uploadId := env.newUpload, storageKey := Some(key))
                        else
                          && row.id == db.nextId && row.app.None? && row.size == 0 && row.createdAt == env.now
                          && row.signature.None? && !row.verified && row.completedAt.None? && row.idem.None?)
            && (out.reply.Fail? ==> out.db == db)
  {
    hide IsHex;
  }

  lemma PartAnswers(cfg: Config, db: Db, d: string, uploadId: string, number: int, env: Env)
    ensures var out := Handle(cfg, db, PresignPart(d, uploadId, number), env);
            var asked := IsHex(d, 64) && number >= 1; var known := asked && d in db.rows;
            var open := known && db.rows[d].status == Pending;
            var mine := open && db.rows[d].storageKey.Some? && db.rows[d].uploadId == Some(uploadId);
            && out.db == db
            && (out.reply == Fail(InvalidDigest) <==> !IsHex(d, 64))
            && (out.reply == Fail(BadPartNumber) <==> IsHex(d, 64) && number < 1)
            && (out.reply == Fail(UnknownDigest) <==> asked && !known)
            && (out.reply == Fail(AlreadyStored) <==> known && !open)
            && (out.reply == Fail(MissingStorageKey) <==> open && db.rows[d].storageKey.None?)
            && (out.reply == Fail(UploadIdMismatch) <==> open && db.rows[d].storageKey.Some? && !mine)
            && (out.reply == Fail(MultipartUnsupported) <==> mine && !env.partOk)
            && (out.reply == PartUrl <==> mine && env.partOk)
  {
    hide IsHex;
  }

  lemma MultipartAnswers(cfg: Config, db: Db, up: Upload, uploadId: string, parts: seq<(int, string)>, env: Env)
    ensures var reply := Handle(cfg, db, MultipartComplete(up, uploadId, parts), env).reply; var d := up.digest;
            var asked := IsHex(d, 64) && up.size >= 0; var known := asked && d in db.rows;
            var open := known && db.rows[d].status == Pending;
            var mine := open && db.rows[d].storageKey.Some? && db.rows[d].uploadId == Some(uploadId);
            && (reply == Fail(InvalidDigest) <==> !IsHex(d, 64))
            && (reply == Fail(NegativeSize) <==> IsHex(d, 64) && up.size < 0)
            && (reply == Fail(UnknownDigest) <==> asked && !known)
            && (reply == Fail(UploadIdMismatch) <==> open && db.rows[d].storageKey.Some? && !mine)
            && (reply == Fail(MultipartUnsupported) <==> mine && !env.assembleOk)
            && (known && !open ==>
                  var key := db.rows[d].storageKey; reply == Assembled(if key.Some? then key.value else ""))
            && (open && reply.Assembled? ==> mine && env.assembleOk && Some(reply.storageKey) == db.rows[d].storageKey)
  {
    hide IsHex, StoredCount, StoredBytes, Wrap64, LogAndRetain, IdemTaken, Finalized;
  }

  /** The row of a completed multipart upload, if retention is off; its storage key stays. */
  lemma AssembledRow(cfg: Config, db: Db, up: Upload, uploadId: string, parts: seq<(int, string)>, env: Env)
    requires Inv(cfg, db) && cfg.Retain() == 0
    requires up.digest in db.rows && db.rows[up.digest].status == Pending
    requires Handle(cfg, db, MultipartComplete(up, uploadId, parts), env).reply.Assembled?
    ensures var db' := Handle(cfg, db, MultipartComplete(up, uploadId, parts), env).db; var d := up.digest;
            && d in db'.rows && db'.rows == db.rows[d := db'.rows[d]]
            && db'.rows[d] == db.rows[d].(
                 app := if up.app in db.apps then Some(db.apps[up.app]) else None, size := up.size,
                 signature := up.signature, verified := false, status := Stored, completedAt := Some(env.now),
                 idem := up.idem)
  {
    assert RowOk(db.rows[up.digest]);
    hide Inv, RowOk, IsHex, Quota, IdemTaken;
  }

  // ---- the remaining requests

  /** The collector of pending rows deletes those older than its time to live in seconds, and no others; it
      reports how many there were. */
  lemma SweepAnswers(cfg: Config, db: Db, ttl: int, env: Env)
    requires DistinctIds(db.rows)
    ensures var out := Handle(cfg, db, SweepPending(ttl), env); var seconds := if ttl > 0 then ttl else 0;
            && (forall d :: d in db.rows ==>
                  (d !in out.db.rows <==>
                     db.rows[d].status == Pending && db.rows[d].createdAt + seconds * 1_000_000 < env.now))
            && (forall d :: d in out.db.rows ==> d in db.rows && out.db.rows[d] == db.rows[d])
            && out.reply == Swept(|db.rows.Keys - out.db.rows.Keys|)
            && out.db.apps == db.apps && out.db.keys == db.keys && out.db.nextId == db.nextId
  {
    hide *;
    var stale := SweptBy(cfg, db, ttl, env);
    assert db.rows.Keys - Handle(cfg, db, SweepPending(ttl), env).db.rows.Keys == stale;
  }

  lemma SweptBy(cfg: Config, db: Db, ttl: int, env: Env) returns (stale: set<string>)
    requires DistinctIds(db.rows)
    ensures var out := Handle(cfg, db, SweepPending(ttl), env); var seconds := if ttl > 0 then ttl else 0;
            && stale <= db.rows.Keys && out.reply == Swept(|stale|)
            && (forall d :: d in db.rows ==>
                  (d in stale <==>
                     db.rows[d].status == Pending && db.rows[d].createdAt + seconds * 1_000_000 < env.now))
            && (forall d :: d in out.db.rows <==> d in db.rows && d !in stale)
            && (forall d :: d in out.db.rows ==> out.db.rows[d] == db.rows[d])
            && out.db.apps == db.apps && out.db.keys == db.keys && out.db.nextId == db.nextId
  {
    stale := Stale(db.rows, env.now - MICROS * (if ttl > 0 then ttl else 0));
    StaleIff(db.rows, ttl, env.now);
    DeletedDigests(db, stale);
    assert Handle(cfg, db, SweepPending(ttl), env) == Outcome(DeleteIds(db, IdsOf(db.rows, stale)), Swept(|stale|));
    hide *;
  }

  lemma StaleIff(rows: Rows, ttl: int, now: int)
    ensures var seconds := if ttl > 0 then ttl else 0; var stale := Stale(rows, now - MICROS * seconds);
            && stale <= rows.Keys
            && forall d :: d in rows ==>
                 (d in stale <==> rows[d].status == Pending && rows[d].createdAt + seconds * 1_000_000 < now)
  {
  }

  lemma DeletedDigests(db: Db, ds: set<string>)
    requires DistinctIds(db.rows) && ds <= db.rows.Keys
    ensures var db' := DeleteIds(db, IdsOf(db.rows, ds));
            && (forall d :: d in db'.rows <==> d in db.rows && d !in ds)
            && (forall d :: d in db'.rows ==> db'.rows[d] == db.rows[d])
            && db'.apps == db.apps && db'.keys == db.keys && db'.nextId == db.nextId
  {
    assert forall d :: d in ds ==> db.rows[d].id in IdsOf(db.rows, ds);
  }

  lemma HeadAnswers(cfg: Config, db: Db, d: string, env: Env)
    ensures var out := Handle(cfg, db, Head(d), env);
            && out.db == db
            && (out.reply == Fail(InvalidDigest) <==> !IsHex(d, 64))
            && (out.reply == Exists <==> IsHex(d, 64) && d in db.rows && db.rows[d].status == Stored)
            && (out.reply == Fail(NotFound) <==> IsHex(d, 64) && !(d in db.rows && db.rows[d].status == Stored))
  {
    hide IsHex;
  }

  lemma AddKeyAnswers(cfg: Config, db: Db, app: string, publicKey: string, env: Env)
    ensures var out := Handle(cfg, db, AddKey(app, publicKey), env);
            && (out.reply == Fail(BadKey) <==> !IsHex(publicKey, 64))
            && (out.reply == Fail(AppUnknown) <==> IsHex(publicKey, 64) && app !in db.apps)
            && (out.reply.KeyAdded? <==> IsHex(publicKey, 64) && app in db.apps)
            && (out.reply.Fail? ==> out.db == db)
            && (out.reply.KeyAdded? ==>
                  && out.reply.app == db.apps[app] && out.db == db.(keys := out.db.keys)
                  && forall k :: (k in out.db.keys && out.db.keys[k]) <==>
                       (k == (db.apps[app], publicKey) || (k in db.keys && db.keys[k])))
  {
    hide IsHex;
  }

  lemma CreateAppAnswers(cfg: Config, db: Db, app: string, env: Env)
    requires Inv(cfg, db)
    ensures var out := Handle(cfg, db, CreateApp(app), env);
            && (out.reply == Fail(AppExists) <==> app in db.apps)
            && (out.reply.Fail? ==> out.db == db)
            && (app !in db.apps ==>
                  && out.reply.AppCreated? && app in out.db.apps && out.db.apps[app] == out.reply.app
                  && out.reply.app !in db.apps.Values && out.db.apps - {app} == db.apps && out.db.rows == db.rows)
  {
    assert AppsOk(db);
    hide Inv;
  }
}
