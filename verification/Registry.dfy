/** The registry service itself: tables that the handlers change in place, statement by statement. */
module RegistryService {
  import opened Prelude
  import opened Sums
  import opened Schema
  import opened Handlers
  import opened Invariant
  import opened Retention

  class Registry {
    const cfg: Config
    var apps: map<string, nat>
    var keys: map<(nat, string), bool>
    var rows: Rows
    var events: set<Event>
    var nextId: nat
    var nextApp: nat
    var nextSerial: nat

    ghost function State(): Db
      reads this
    {
      Db(apps, keys, rows, events, nextId, nextApp, nextSerial)
    }

    ghost predicate Valid()
      reads this
    {
      Inv(cfg, State())
    }

    constructor (cfg: Config)
      ensures this.cfg == cfg && State() == EMPTY_DB && Valid()
    {
      this.cfg := cfg;
      apps, keys, rows, events := map[], map[], map[], {};
      nextId, nextApp, nextSerial := 0, 0, 0;
      new;
      EmptyInv(cfg);
    }

    // ---- statements

    method InsertEvent(id: nat, kind: EventKind)
      modifies this`events, this`nextSerial
      ensures State() == LogEvent(old(State()), id, kind)
    {
      if HasId(rows, id) {
        events := events + {Event(nextSerial, id, kind)};
        nextSerial := nextSerial + 1;
      }
    }

    method Delete(ids: set<nat>)
      modifies this`rows, this`events
      ensures State() == DeleteIds(old(State()), ids)
    {
      rows := map d | d in rows && rows[d].id !in ids :: rows[d];
      events := set e | e in events && e.artifact !in ids;
    }

    method Insert(d: string, row: Row)
      modifies this`rows, this`nextId
      ensures State() == InsertRow(old(State()), d, row)
    {
      rows := rows[d := row.(id := nextId)];
      nextId := nextId + 1;
    }

    /** SELECT SUM(size_bytes) */
    method SumStored(a: nat) returns (used: int)
      ensures used == StoredBytes(rows, a)
    {
      var todo := StoredOf(rows, a);
      var sizes := SizesOf(rows, a);
      used := 0;
      ghost var added: map<string, int> := map[];
      while todo != {}
        invariant todo <= sizes.Keys
        invariant added == sizes - todo
        invariant used == Total(added)
        decreases |todo|
      {
        var d :| d in todo;
        TotalUpdate(added, d, sizes[d]);
        assert added - {d} == added;
        added := added[d := sizes[d]];
        used := used + sizes[d];
        todo := todo - {d};
      }
      assert added == sizes;
    }

    /** SELECT id ... ORDER BY created_at DESC */
    method SelectNewestFirst(a: nat, tie: TieBreak) returns (order: seq<string>)
      requires DistinctIds(rows)
      ensures NewestFirst(rows, tie, order)
      ensures forall d :: d in order <==> d in StoredOf(rows, a)
    {
      order := [];
      var listed := StoredOf(rows, a);
      var todo := listed;
      assert listed <= rows.Keys;
      while todo != {}
        invariant todo <= listed
        invariant forall d :: d in order <==> d in listed - todo
        invariant NewestFirst(rows, tie, order)
        invariant forall d, e :: d in order && e in todo ==> Newer(rows[d], rows[e], tie)
        decreases |todo|
      {
        hide Newer, StoredOf, DistinctIds, NewestFirst;
        NewestExists(rows, todo, tie);
        var d :| d in todo && forall e :: e in todo && e != d ==> Newer(rows[d], rows[e], tie);
        NewestFirstGrows(rows, tie, order, d);
        order := order + [d];
        todo := todo - {d};
      }
    }

    /** OFFSET n, then the ids */
    method SelectObsolete(a: nat, n: nat, tie: TieBreak) returns (ids: seq<nat>)
      requires DistinctIds(rows)
      ensures forall i, j :: 0 <= i < j < |ids| ==> ids[i] != ids[j]
      ensures forall i :: 0 <= i < |ids| ==> HasId(rows, ids[i])
      ensures Members(ids) == IdsOf(rows, Obsolete(rows, a, n, tie))
    {
      var order := SelectNewestFirst(a, tie);
      ids := [];
      var skip := if n <= |order| then n else |order|;
      for k := skip to |order|
        invariant |ids| == k - skip
        invariant forall i :: 0 <= i < |ids| ==> ids[i] == rows[order[skip + i]].id
      {
        ids := ids + [rows[order[k]].id];
      }
      SkippedIds(rows, a, n, tie, order, ids);
    }

    // ---- shared steps of the completion handlers

    method EnforceQuota(a: nat, incoming: int) returns (error: Option<Error>)
      ensures error == Quota(cfg, rows, a, incoming)
    {
      var maxCount, maxBytes := cfg.MaxCount(), cfg.MaxBytes();
      if maxCount.None? && maxBytes.None? { return None; }
      var count := StoredCount(rows, a);
      var used := SumStored(a);
      if maxCount.Some? && count >= maxCount.value { return Some(CountQuota); }
      if maxBytes.Some? && Wrap64(used + incoming) > maxBytes.value { return Some(ByteQuota); }
      return None;
    }

    /** One event per obsolete row, then one DELETE, whose cascade takes those events away again. */
    method LogAndDelete(obsolete: seq<nat>)
      requires forall i :: 0 <= i < |obsolete| ==> HasId(rows, obsolete[i])
      modifies this`rows, this`events, this`nextSerial
      ensures State() ==
              DeleteIds(old(State()), Members(obsolete)).(nextSerial := old(nextSerial) + |obsolete|)
    {
      var gone := Members(obsolete);
      for i := 0 to |obsolete|
        invariant rows == old(rows) && nextSerial == old(nextSerial) + i
        invariant (set e | e in events && e.artifact !in gone) == (set e | e in old(events) && e.artifact !in gone)
      {
        InsertEvent(obsolete[i], RetentionDelete);
        assert obsolete[i] in gone;
      }
      Delete(gone);
    }

    method RetentionGc(app: Option<nat>, tie: TieBreak)
      requires DistinctIds(rows)
      modifies this`rows, this`events, this`nextSerial
      ensures State() == Retain(cfg, old(State()), app, tie)
    {
      if app.None? { return; }
      var retain := cfg.Retain();
      if retain == 0 { return; }
      var obsolete := SelectObsolete(app.value, retain, tie);
      if obsolete == [] {
        assert Members(obsolete) == {};
      } else {
        assert obsolete[0] in Members(obsolete);
        DistinctCount(obsolete);
        LogAndDelete(obsolete);
      }
    }

    /** Looks for an active key of the application that verifies the signature. */
    method VerifySignature(app: Option<nat>, digest: string, sig: Option<string>) returns (verified: bool)
      ensures verified == SignatureOk(cfg, State(), app, digest, sig)
    {
      verified := false;
      if sig.Some? && IsHex(sig.value, 128) && app.Some? {
        var todo := set k | k in keys && k.0 == app.value && keys[k];
        while todo != {}
          invariant todo <= keys.Keys
          invariant forall k :: k in todo ==> k.0 == app.value && keys[k]
          invariant forall k :: k in keys && k.0 == app.value && keys[k] && k !in todo ==>
                      !cfg.verifies(k.1, digest, sig.value)
          decreases |todo|
        {
          var k :| k in todo;
          if cfg.verifies(k.1, digest, sig.value) { return true; }
          todo := todo - {k};
        }
      }
    }

    // ---- handlers

    method PresignArtifact(app: string, digest: string, env: Env) returns (reply: Reply)
      requires Valid()
      modifies this
      ensures Outcome(State(), reply) == Handle(cfg, old(State()), Presign(app, digest), env)
      ensures Valid()
    {
      HandleKeeps(cfg, State(), Presign(app, digest), env);
      if Blank(app) { return Fail(AppNameRequired); }
      if !IsHex(digest, 64) { return Fail(InvalidDigest); }
      if digest in rows {
        var row := rows[digest];
        if row.status == Stored { return NoUpload(OrElse(row.storageKey, "")); }
        var key := OrElse(row.storageKey, StorageKey(app, digest));
        if !env.presignOk { return Fail(PresignBackend); }
        return PutUrl(key);
      }
      var key := StorageKey(app, digest);
      if !env.presignOk { return Fail(PresignBackend); }
      Insert(digest, PendingRow(AppNamed(apps, app), key, None, env.now));
      return PutUrl(key);
    }

    /** The branch of the complete handler for a row that is still pending. */
    method CompletePendingRow(up: Upload, env: Env) returns (reply: Reply)
      requires IdsOk(State()) && up.digest in rows
      modifies this
      ensures Outcome(State(), reply) == CompletePending(cfg, old(State()), up, env)
    {
      var app := AppNamed(apps, up.app);
      var key := StorageKey(up.app, up.digest);
      var row := rows[up.digest];
      if up.idem.Some? && row.idem.Some? && row.idem != up.idem { return Fail(IdempotencyConflict); }
      if app.Some? && rows[up.digest].app.None? {
        rows := rows[up.digest := rows[up.digest].(app := app)];
      }
      var remote := RemoteCheck(cfg, row.storageKey, up.size, up.digest, env);
      if remote.Some? { return Fail(remote.value); }
      if app.Some? {
        var quota := EnforceQuota(app.value, up.size);
        if quota.Some? { return Fail(quota.value); }
      }
      var final := Finalized(rows[up.digest], app, up, Some(key), env.now);
      if IdemTaken(rows, up.digest, final.idem) { return Fail(IdempotencyConflict); }
      rows := rows[up.digest := final];
      InsertEvent(row.id, StoredEvent);
      RetentionGc(app, env.tie);
      return Completed(row.id, false, false, key, final.idem);
    }

    /** The branch of the complete handler for a digest without a row. */
    method CompleteNewRow(up: Upload, env: Env) returns (reply: Reply)
      requires IdsOk(State()) && up.digest !in rows
      modifies this
      ensures Outcome(State(), reply) == CompleteFresh(cfg, old(State()), up, env)
    {
      var app := AppNamed(apps, up.app);
      var key := StorageKey(up.app, up.digest);
      var verified := VerifySignature(app, up.digest, up.signature);
      if IdemTaken(rows, up.digest, up.idem) { return Fail(IdempotencyConflict); }
      if app.Some? {
        var quota := EnforceQuota(app.value, up.size);
        if quota.Some? { return Fail(quota.value); }
      }
      var id := nextId;
      Insert(up.digest, Row(0, app, up.size, up.signature, verified, Some(key), Stored,
                            env.now, Some(env.now), up.idem, None));
      InsertEvent(id, StoredEvent);
      RetentionGc(app, env.tie);
      return Completed(id, false, verified, key, up.idem);
    }

    method CompleteArtifact(up: Upload, env: Env) returns (reply: Reply)
      requires Valid()
      modifies this
      ensures Outcome(State(), reply) == Handle(cfg, old(State()), Complete(up), env)
      ensures Valid()
    {
      HandleKeeps(cfg, State(), Complete(up), env);
      var error := CompleteError(cfg, up);
      if error.Some? { return Fail(error.value); }
      if up.digest !in rows {
        if cfg.requirePresign { return Fail(PresignRequired); }
        reply := CompleteNewRow(up, env);
        return;
      }
      var row := rows[up.digest];
      if row.status == Stored {
        return Completed(row.id, true, row.verified, OrElse(row.storageKey, ""), up.idem);
      }
      reply := CompletePendingRow(up, env);
    }

    method UploadArtifact(name: Option<string>, header: Option<string>, content: Option<seq<Byte>>,
                          sig: Option<string>, env: Env) returns (reply: Reply)
      requires Valid()
      modifies this
      ensures Outcome(State(), reply) == Handle(cfg, old(State()), LegacyUpload(name, header, content, sig), env)
      ensures Valid()
    {
      HandleKeeps(cfg, State(), LegacyUpload(name, header, content, sig), env);
      if header.None? { return Fail(MissingDigest); }
      if !IsHex(header.value, 64) { return Fail(InvalidDigest); }
      if name.None? { return Fail(MissingApp); }
      if content.None? { return Fail(MissingFile); }
      var digest := cfg.sha(content.value);
      if digest != header.value { return Fail(DigestMismatch); }
      if digest in rows { return Uploaded(true, rows[digest].app.Some?, rows[digest].verified); }
      var size := |content.value|;
      if cfg.TooLarge(size) { return Fail(SizeExceeded); }
      var app := AppNamed(apps, name.value);
      var verified := VerifySignature(app, digest, sig);
      Insert(digest, Row(0, app, size, sig, verified, None, Stored, env.now, None, None, None));
      return Uploaded(false, app.Some?, verified);
    }

    method InitMultipart(app: string, digest: string, env: Env) returns (reply: Reply)
      requires Valid()
      modifies this
      ensures Outcome(State(), reply) == Handle(cfg, old(State()), MultipartInit(app, digest), env)
      ensures Valid()
    {
      HandleKeeps(cfg, State(), MultipartInit(app, digest), env);
      if !IsHex(digest, 64) { return Fail(InvalidDigest); }
      var key := StorageKey(app, digest);
      if digest in rows && rows[digest].status == Stored { return Fail(AlreadyStored); }
      if env.newUpload.None? { return Fail(MultipartUnsupported); }
      if digest in rows {
        rows := rows[digest := rows[digest].(uploadId := env.newUpload, storageKey := Some(key))];
      } else {
        Insert(digest, PendingRow(None, key, env.newUpload, env.now));
      }
      return Initiated(env.newUpload.value, key);
    }

    method CompleteMultipart(up: Upload, uploadId: string, env: Env) returns (reply: Reply)
      requires IdsOk(State())
      modifies this
      ensures Outcome(State(), reply) == Handlers.CompleteMultipart(cfg, old(State()), up, uploadId, env)
    {
      if !IsHex(up.digest, 64) { return Fail(InvalidDigest); }
      if up.size < 0 { return Fail(NegativeSize); }
      if up.digest !in rows { return Fail(UnknownDigest); }
      var row := rows[up.digest];
      if row.status == Stored { return Assembled(OrElse(row.storageKey, "")); }
      if row.storageKey.None? { return Fail(MissingStorageKey); }
      if row.uploadId != Some(uploadId) { return Fail(UploadIdMismatch); }
      if !env.assembleOk { return Fail(MultipartUnsupported); }
      var app := AppNamed(apps, up.app);
      if app.Some? {
        var quota := EnforceQuota(app.value, up.size);
        if quota.Some? { return Fail(quota.value); }
      }
      var final := Finalized(row, app, up, row.storageKey, env.now);
      if IdemTaken(rows, up.digest, final.idem) { return Fail(DbUpdate); }
      rows := rows[up.digest := final];
      InsertEvent(row.id, StoredEvent);
      RetentionGc(app, env.tie);
      return Assembled(row.storageKey.value);
    }

    method RunPendingGc(ttl: int, env: Env) returns (reply: Reply)
      requires Valid()
      modifies this
      ensures Outcome(State(), reply) == Handle(cfg, old(State()), SweepPending(ttl), env)
      ensures Valid()
    {
      HandleKeeps(cfg, State(), SweepPending(ttl), env);
      var stale := Stale(rows, env.now - MICROS * (if ttl > 0 then ttl else 0));
      Delete(IdsOf(rows, stale));
      return Swept(|stale|);
    }

    method AddPublicKey(app: string, publicKey: string) returns (reply: Reply)
      requires Valid()
      modifies this
      ensures forall env :: Outcome(State(), reply) == Handle(cfg, old(State()), AddKey(app, publicKey), env)
      ensures Valid()
    {
      if app in apps { KeyUpsertKeeps(cfg, State(), (apps[app], publicKey)); }
      if !IsHex(publicKey, 64) { return Fail(BadKey); }
      if app !in apps { return Fail(AppUnknown); }
      keys := keys[(apps[app], publicKey) := true];
      return KeyAdded(apps[app]);
    }

    method CreateApplication(app: string) returns (reply: Reply)
      requires Valid()
      modifies this
      ensures forall env :: Outcome(State(), reply) == Handle(cfg, old(State()), CreateApp(app), env)
      ensures Valid()
    {
      if app in apps { return Fail(AppExists); }
      apps := apps[app := nextApp];
      nextApp := nextApp + 1;
      return AppCreated(nextApp - 1);
    }

    /** Dispatches one request. */
    method Serve(req: Request, env: Env) returns (reply: Reply)
      requires Valid()
      modifies this
      ensures Outcome(State(), reply) == Handle(cfg, old(State()), req, env)
      ensures Valid()
    {
      match req {
        case Presign(app, digest) => reply := PresignArtifact(app, digest, env);
        case Complete(up) => reply := CompleteArtifact(up, env);
        case LegacyUpload(name, header, content, sig) => reply := UploadArtifact(name, header, content, sig, env);
        case MultipartInit(app, digest) => reply := InitMultipart(app, digest, env);
        case PresignPart(digest, uploadId, number) =>
          reply := PresignMultipartPart(Db(apps, keys, rows, events, nextId, nextApp, nextSerial),
                                        digest, uploadId, number, env);
        case MultipartComplete(up, uploadId, _) =>
          HandleKeeps(cfg, State(), req, env);
          reply := CompleteMultipart(up, uploadId, env);
        case SweepPending(ttl) => reply := RunPendingGc(ttl, env);
        case Head(digest) =>
          reply := HeadArtifact(Db(apps, keys, rows, events, nextId, nextApp, nextSerial), digest);
        case AddKey(app, publicKey) => reply := AddPublicKey(app, publicKey);
        case CreateApp(app) => reply := CreateApplication(app);
      }
    }
  }
}
