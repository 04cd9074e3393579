/** What every run of uninterrupted requests keeps true of the registry's tables. */
module Invariant {
  import opened Prelude
  import opened Schema
  import opened Handlers

  // ---- the invariant, table by table

  predicate RowOk(row: Row) {
    && row.size >= 0
    && (row.status == Pending ==>
          && row.size == 0 && row.signature.None? && row.idem.None? && !row.verified
          && row.completedAt.None? && row.storageKey.Some?)
    && (row.completedAt.Some? ==> row.storageKey.Some?)
    && (row.completedAt.None? ==> row.idem.None?)
  }

  ghost predicate RowsOk(rows: Rows) {
    forall d :: d in rows ==> RowOk(rows[d]) && IsHex(d, 64)
  }

  ghost predicate IdsOk(db: Db) {
    && (forall d :: d in db.rows ==> db.rows[d].id < db.nextId)
    && DistinctIds(db.rows)
  }

  /** A bound idempotency key belongs to one row. */
  ghost predicate IdemsOk(rows: Rows) {
    forall d, e :: d in rows && e in rows && rows[d].idem.Some? && rows[d].idem == rows[e].idem ==> d == e
  }

  ghost predicate CompletedId(rows: Rows, id: nat) {
    exists d :: d in rows && rows[d].id == id && rows[d].completedAt.Some?
  }

  ghost predicate LoggedId(events: set<Event>, id: nat) {
    exists e :: e in events && e.artifact == id
  }

  /** The log refers to the completed rows only, and to each of them. */
  ghost predicate Matched(rows: Rows, events: set<Event>) {
    && (forall e :: e in events ==> CompletedId(rows, e.artifact))
    && (forall d :: d in rows && rows[d].completedAt.Some? ==> LoggedId(events, rows[d].id))
  }

  /** The event log is in bijection with the completed rows: one "stored" event each, and nothing else. */
  ghost predicate EventsOk(db: Db) {
    && (forall e :: e in db.events ==> e.serial < db.nextSerial && e.kind == StoredEvent)
    && Matched(db.rows, db.events)
    && (forall e, f :: e in db.events && f in db.events && e.artifact == f.artifact ==> e == f)
  }

  ghost predicate VerifiedRow(cfg: Config, keys: map<(nat, string), bool>, d: string, row: Row) {
    row.verified ==>
      && row.app.Some? && row.signature.Some?
      && SignedBy(cfg, keys, row.app.value, d, row.signature.value)
  }

  /** A row marked verified carries a signature that an active key of its application verifies. */
  ghost predicate VerifiedOk(cfg: Config, db: Db) {
    forall d :: d in db.rows ==> VerifiedRow(cfg, db.keys, d, db.rows[d])
  }

  /** Applications have distinct, already issued identifiers, and rows refer to issued ones. */
  ghost predicate AppsOk(db: Db) {
    && (forall n :: n in db.apps ==> db.apps[n] < db.nextApp)
    && (forall n, m :: n in db.apps && m in db.apps && db.apps[n] == db.apps[m] ==> n == m)
    && (forall d :: d in db.rows && db.rows[d].app.Some? ==> db.rows[d].app.value < db.nextApp)
  }

  ghost predicate Inv(cfg: Config, db: Db) {
    && RowsOk(db.rows) && IdsOk(db) && IdemsOk(db.rows)
    && EventsOk(db) && VerifiedOk(cfg, db) && AppsOk(db)
  }

  // ---- one lemma for each kind of write

  lemma InsertQuietKeeps(cfg: Config, db: Db, d: string, row: Row)
    requires Inv(cfg, db) && d !in db.rows && IsHex(d, 64)
    requires RowOk(row) && row.completedAt.None?
    requires VerifiedRow(cfg, db.keys, d, row)
    requires row.app.Some? ==> row.app.value < db.nextApp
    ensures Inv(cfg, InsertRow(db, d, row))
  {
    var db' := InsertRow(db, d, row);
    assert forall e :: e in db.rows ==> e in db'.rows && db'.rows[e] == db.rows[e];
  }

  /** `db1` differs from `db` only in row `d`, new or pending before, and perhaps in the id counter. */
  ghost predicate WritesRow(cfg: Config, db: Db, db1: Db, d: string) {
    && d in db1.rows && IsHex(d, 64)
    && db1 == db.(rows := db.rows[d := db1.rows[d]], nextId := db1.nextId)
    && db.nextId <= db1.nextId && db1.rows[d].id < db1.nextId
    && (if d in db.rows then db.rows[d].status == Pending && db1.rows[d].id == db.rows[d].id
        else db1.rows[d].id == db.nextId)
    && RowOk(db1.rows[d])
    && VerifiedRow(cfg, db.keys, d, db1.rows[d])
    && (db1.rows[d].app.Some? ==> db1.rows[d].app.value < db.nextApp)
    && !IdemTaken(db.rows, d, db1.rows[d].idem)
  }

  lemma WriteKeepsTables(cfg: Config, db: Db, db1: Db, d: string)
    requires Inv(cfg, db) && WritesRow(cfg, db, db1, d)
    ensures RowsOk(db1.rows) && IdsOk(db1) && VerifiedOk(cfg, db1) && AppsOk(db1)
    ensures IdemsOk(db1.rows)
  {
    assert forall e :: e in db1.rows && e != d ==> e in db.rows && db1.rows[e] == db.rows[e];
  }

  /** Writing a completed row and its event together, whether the digest is new or was pending. */
  lemma CompleteLoggedKeeps(cfg: Config, db: Db, db1: Db, d: string)
    requires Inv(cfg, db) && WritesRow(cfg, db, db1, d) && db1.rows[d].completedAt.Some?
    ensures Inv(cfg, LogEvent(db1, db1.rows[d].id, StoredEvent))
  {
    WriteKeepsTables(cfg, db, db1, d);
    LoggedEvents(db, db1, d);
  }

  /** One more completed row and its event; no older event refers to it. */
  lemma MatchedGrows(rows: Rows, rows': Rows, events: set<Event>, d: string, logged: Event)
    requires Matched(rows, events) && d in rows' && rows' == rows[d := rows'[d]]
    requires forall e :: e in rows && rows[e].id == rows'[d].id ==> e == d
    requires d in rows ==> rows[d].completedAt.None?
    requires rows'[d].completedAt.Some? && logged.artifact == rows'[d].id
    ensures Matched(rows', events + {logged})
    ensures forall e :: e in events ==> e.artifact != logged.artifact
  {
    forall e | e in events ensures e.artifact != logged.artifact && CompletedId(rows', e.artifact) {
      assert CompletedId(rows, e.artifact);
      var o :| o in rows && rows[o].id == e.artifact && rows[o].completedAt.Some?;
      assert o != d && rows'[o] == rows[o];
    }
    assert LoggedId(events + {logged}, logged.artifact) by { assert logged in events + {logged}; }
    forall o | o in rows && rows[o].completedAt.Some? ensures LoggedId(events + {logged}, rows[o].id) {
      assert LoggedId(events, rows[o].id);
      var e :| e in events && e.artifact == rows[o].id;
      assert e in events + {logged};
    }
    hide CompletedId, LoggedId;
  }

  lemma LoggedEvents(db: Db, db1: Db, d: string)
    requires EventsOk(db) && IdsOk(db) && IdsOk(db1)
    requires d in db1.rows && db1 == db.(rows := db.rows[d := db1.rows[d]], nextId := db1.nextId)
    requires d in db.rows ==> db.rows[d].completedAt.None?
    requires db1.rows[d].completedAt.Some?
    ensures EventsOk(LogEvent(db1, db1.rows[d].id, StoredEvent))
  {
    var id := db1.rows[d].id;
    assert HasId(db1.rows, id);
    var logged := Event(db1.nextSerial, id, StoredEvent);
    assert forall e :: e in db.rows && e != d ==> db1.rows[e] == db.rows[e];
    MatchedGrows(db.rows, db1.rows, db.events, d, logged);
    hide Matched, IdsOk, HasId;
  }

  /** Changing the application, storage key or upload id of a row that stays pending. */
  lemma TouchPendingKeeps(cfg: Config, db: Db, d: string, row: Row)
    requires Inv(cfg, db) && d in db.rows && db.rows[d].status == Pending
    requires RowOk(row) && row.status == Pending && row.id == db.rows[d].id
    requires row.app.Some? ==> row.app.value < db.nextApp
    ensures Inv(cfg, db.(rows := db.rows[d := row]))
  {
    var db' := db.(rows := db.rows[d := row]);
    WriteKeepsTables(cfg, db, db', d);
    forall e | e in db'.events
      ensures exists o :: o in db'.rows && db'.rows[o].id == e.artifact && db'.rows[o].completedAt.Some?
    {
      var o :| o in db.rows && db.rows[o].id == e.artifact && db.rows[o].completedAt.Some?;
      assert o != d && db'.rows[o] == db.rows[o];
    }
  }

  lemma DeleteKeeps(cfg: Config, db: Db, ids: set<nat>)
    requires Inv(cfg, db)
    ensures Inv(cfg, DeleteIds(db, ids))
  {
    var db' := DeleteIds(db, ids);
    forall e | e in db'.events
      ensures exists d :: d in db'.rows && db'.rows[d].id == e.artifact && db'.rows[d].completedAt.Some?
    {
      var d :| d in db.rows && db.rows[d].id == e.artifact && db.rows[d].completedAt.Some?;
      assert d in db'.rows;
    }
    forall d | d in db'.rows && db'.rows[d].completedAt.Some?
      ensures exists e :: e in db'.events && e.artifact == db'.rows[d].id
    {
      var e :| e in db.events && e.artifact == db.rows[d].id;
      assert e in db'.events;
    }
  }

  lemma RetainKeeps(cfg: Config, db: Db, app: Option<nat>, tie: TieBreak)
    requires Inv(cfg, db)
    ensures Inv(cfg, Retain(cfg, db, app, tie))
  {
    if app.Some? && cfg.Retain() != 0 {
      DeleteKeeps(cfg, db, IdsOf(db.rows, Obsolete(db.rows, app.value, cfg.Retain(), tie)));
    }
  }

  lemma KeyUpsertKeeps(cfg: Config, db: Db, key: (nat, string))
    requires Inv(cfg, db)
    ensures Inv(cfg, db.(keys := db.keys[key := true]))
  {
    var db' := db.(keys := db.keys[key := true]);
    forall d | d in db'.rows ensures VerifiedRow(cfg, db'.keys, d, db'.rows[d]) {
      var row := db.rows[d];
      assert VerifiedRow(cfg, db.keys, d, row);
      if row.verified {
        var k :| k in db.keys && k.0 == row.app.value && db.keys[k] && cfg.verifies(k.1, d, row.signature.value);
        assert k in db'.keys && db'.keys[k];
      }
    }
  }

  // ---- completions, in all three branches

  /** A completion that stores its row takes the tables from `db` over `base` (the row linked to its
      application) and `written` (the row stored) to `out` (event logged, retention applied). */
  ghost predicate Stores(cfg: Config, db: Db, up: Upload, env: Env, base: Db, written: Db, out: Db) {
    var d, app := up.digest, AppNamed(db.apps, up.app);
    && up.size >= 0 && Inv(cfg, base)
    && (base == db || (d in db.rows && db.rows[d].status == Pending && base == Backfill(db, d, app)))
    && WritesRow(cfg, base, written, d)
    && Final(written.rows[d], app, up, env.now)
    && written.rows[d].createdAt == (if d in db.rows then db.rows[d].createdAt else env.now)
    && QuotaIfLinked(cfg, base.rows, app, up.size).None?
    && out == LogAndRetain(cfg, written, written.rows[d].id, app, env.tie)
  }

  predicate Final(row: Row, app: Option<nat>, up: Upload, now: int) {
    && row.status == Stored && row.app == app && row.size == up.size && row.signature == up.signature
    && row.idem == up.idem && row.completedAt == Some(now)
  }

  lemma StoresKeeps(cfg: Config, db: Db, up: Upload, env: Env, base: Db, written: Db, out: Db)
    requires Stores(cfg, db, up, env, base, written, out)
    ensures Inv(cfg, out)
  {
    CompleteLoggedKeeps(cfg, base, written, up.digest);
    RetainKeeps(cfg, LogEvent(written, written.rows[up.digest].id, StoredEvent), AppNamed(db.apps, up.app), env.tie);
  }

  lemma BackfillKeeps(cfg: Config, db: Db, d: string, app: Option<nat>)
    requires Inv(cfg, db) && d in db.rows && db.rows[d].status == Pending
    requires app.Some? ==> app.value < db.nextApp
    ensures Inv(cfg, Backfill(db, d, app))
  {
    if Backfill(db, d, app) != db { TouchPendingKeeps(cfg, db, d, db.rows[d].(app := app)); }
  }

  /** The tables of a completion that stores nothing: unchanged, except that a pending row may have
      been linked to its application. */
  ghost predicate OnlyLinked(cfg: Config, db: Db, up: Upload, out: Db) {
    && Inv(cfg, out)
    && (out == db || (up.digest in db.rows && db.rows[up.digest].status == Pending &&
                      out == Backfill(db, up.digest, AppNamed(db.apps, up.app))))
  }

  lemma PendingStages(cfg: Config, db: Db, up: Upload, env: Env) returns (base: Db, written: Db)
    requires Inv(cfg, db) && up.size >= 0 && up.digest in db.rows && db.rows[up.digest].status == Pending
    ensures var out := CompletePending(cfg, db, up, env);
            if out.reply.Completed? then !out.reply.duplicate && Stores(cfg, db, up, env, base, written, out.db)
            else OnlyLinked(cfg, db, up, out.db)
  {
    var app := AppNamed(db.apps, up.app);
    base := Backfill(db, up.digest, app);
    BackfillKeeps(cfg, db, up.digest, app);
    var final := Finalized(base.rows[up.digest], app, up, Some(StorageKey(up.app, up.digest)), env.now);
    written := base.(rows := base.rows[up.digest := final]);
  }

  lemma FreshStages(cfg: Config, db: Db, up: Upload, env: Env) returns (written: Db)
    requires Inv(cfg, db) && up.size >= 0 && IsHex(up.digest, 64) && up.digest !in db.rows
    ensures var out := CompleteFresh(cfg, db, up, env);
            if out.reply.Completed? then !out.reply.duplicate && Stores(cfg, db, up, env, db, written, out.db)
            else OnlyLinked(cfg, db, up, out.db)
  {
    var app := AppNamed(db.apps, up.app);
    var verified := SignatureOk(cfg, db, app, up.digest, up.signature);
    var row := Row(0, app, up.size, up.signature, verified, Some(StorageKey(up.app, up.digest)), Stored,
                   env.now, Some(env.now), up.idem, None);
    written := InsertRow(db, up.digest, row);
  }

  lemma MultipartStages(cfg: Config, db: Db, up: Upload, uploadId: string, env: Env) returns (written: Db)
    requires Inv(cfg, db)
    ensures var out := CompleteMultipart(cfg, db, up, uploadId, env);
            if out.reply.Assembled? && db.rows[up.digest].status == Pending then
              Stores(cfg, db, up, env, db, written, out.db)
            else OnlyLinked(cfg, db, up, out.db)
  {
    if up.digest in db.rows {
      var row := db.rows[up.digest];
      var final := Finalized(row, AppNamed(db.apps, up.app), up, row.storageKey, env.now);
      written := db.(rows := db.rows[up.digest := final]);
    } else {
      written := db;
    }
  }

  /** The request stores a row that was pending or missing before. */
  predicate NewlyStored(db: Db, req: Request, reply: Reply) {
    || (req.Complete? && reply.Completed? && !reply.duplicate)
    || (req.MultipartComplete? && reply.Assembled? && req.up.digest in db.rows
        && db.rows[req.up.digest].status == Pending)
  }

  lemma SingleStages(cfg: Config, db: Db, up: Upload, env: Env) returns (base: Db, written: Db)
    requires Inv(cfg, db)
    ensures var out := CompleteArtifact(cfg, db, up, env);
            if out.reply.Completed? && !out.reply.duplicate then Stores(cfg, db, up, env, base, written, out.db)
            else OnlyLinked(cfg, db, up, out.db)
  {
    hide CompletePending, CompleteFresh, Stores, Inv, Backfill;
    base, written := db, db;
    if CompleteError(cfg, up).None? {
      if up.digest !in db.rows {
        written := FreshStages(cfg, db, up, env);
      } else if db.rows[up.digest].status == Pending {
        base, written := PendingStages(cfg, db, up, env);
      }
    }
  }

  /** Every completion, single part or multipart: it goes through the stages of `Stores`, or it stores
      nothing. */
  lemma CompletionStages(cfg: Config, db: Db, req: Request, env: Env) returns (base: Db, written: Db)
    requires Inv(cfg, db) && (req.Complete? || req.MultipartComplete?)
    ensures var out := Handle(cfg, db, req, env);
            if NewlyStored(db, req, out.reply) then Stores(cfg, db, req.up, env, base, written, out.db)
            else OnlyLinked(cfg, db, req.up, out.db)
  {
    if req.Complete? {
      base, written := SingleStages(cfg, db, req.up, env);
    } else {
      base := db;
      written := MultipartStages(cfg, db, req.up, req.uploadId, env);
    }
  }

  lemma CompletionKeeps(cfg: Config, db: Db, req: Request, env: Env)
    requires Inv(cfg, db) && (req.Complete? || req.MultipartComplete?)
    ensures Inv(cfg, Handle(cfg, db, req, env).db)
  {
    var base, written := CompletionStages(cfg, db, req, env);
    if NewlyStored(db, req, Handle(cfg, db, req, env).reply) {
      StoresKeeps(cfg, db, req.up, env, base, written, Handle(cfg, db, req, env).db);
    }
  }

  // ---- the other handlers

  lemma UploadKeeps(cfg: Config, db: Db, name: Option<string>, header: Option<string>,
                    content: Option<seq<Byte>>, sig: Option<string>, env: Env)
    requires Inv(cfg, db)
    ensures Inv(cfg, UploadArtifact(cfg, db, name, header, content, sig, env).db)
  {
    var out := UploadArtifact(cfg, db, name, header, content, sig, env);
    if out.db != db {
      var app := AppNamed(db.apps, name.value);
      InsertQuietKeeps(cfg, db, header.value,
        Row(0, app, |content.value|, sig, SignatureOk(cfg, db, app, header.value, sig), None, Stored,
            env.now, None, None, None));
    }
  }

  lemma InitKeeps(cfg: Config, db: Db, app: string, digest: string, env: Env)
    requires Inv(cfg, db)
    ensures Inv(cfg, InitMultipart(db, app, digest, env).db)
  {
    if InitMultipart(db, app, digest, env).reply.Initiated? {
      var key := StorageKey(app, digest);
      if digest in db.rows {
        TouchPendingKeeps(cfg, db, digest, db.rows[digest].(uploadId := env.newUpload, storageKey := Some(key)));
      } else {
        InsertQuietKeeps(cfg, db, digest, PendingRow(None, key, env.newUpload, env.now));
      }
    }
  }

  lemma PresignKeeps(cfg: Config, db: Db, app: string, digest: string, env: Env)
    requires Inv(cfg, db)
    ensures Inv(cfg, PresignArtifact(db, app, digest, env).db)
  {
    if PresignArtifact(db, app, digest, env).db != db {
      InsertQuietKeeps(cfg, db, digest, PendingRow(AppNamed(db.apps, app), StorageKey(app, digest), None, env.now));
    }
  }

  lemma SweepKeeps(cfg: Config, db: Db, ttl: int, env: Env)
    requires Inv(cfg, db)
    ensures Inv(cfg, SweepStale(db, ttl, env).db)
  {
    DeleteKeeps(cfg, db, IdsOf(db.rows, Stale(db.rows, env.now - MICROS * (if ttl > 0 then ttl else 0))));
  }

  lemma AddKeyKeeps(cfg: Config, db: Db, app: string, publicKey: string)
    requires Inv(cfg, db)
    ensures Inv(cfg, AddPublicKey(db, app, publicKey).db)
  {
    if app in db.apps { KeyUpsertKeeps(cfg, db, (db.apps[app], publicKey)); }
  }

  lemma RegisterKeeps(cfg: Config, db: Db, app: string)
    requires Inv(cfg, db)
    ensures Inv(cfg, RegisterApp(db, app).db)
  {
  }

  /** Every request keeps the invariant, whatever it asks for and whatever the environment answers. */
  lemma HandleKeeps(cfg: Config, db: Db, req: Request, env: Env)
    requires Inv(cfg, db)
    ensures Inv(cfg, Handle(cfg, db, req, env).db)
  {
    match req
    case Presign(app, digest) => PresignKeeps(cfg, db, app, digest, env);
    case Complete(_) => CompletionKeeps(cfg, db, req, env);
    case LegacyUpload(name, header, content, sig) => UploadKeeps(cfg, db, name, header, content, sig, env);
    case MultipartInit(app, digest) => InitKeeps(cfg, db, app, digest, env);
    case MultipartComplete(_, _, _) => CompletionKeeps(cfg, db, req, env);
    case SweepPending(ttl) => SweepKeeps(cfg, db, ttl, env);
    case AddKey(app, publicKey) => AddKeyKeeps(cfg, db, app, publicKey);
    case CreateApp(app) => RegisterKeeps(cfg, db, app);
    case PresignPart(_, _, _) =>
    case Head(_) =>
  }

  // ---- whole runs

  lemma EmptyInv(cfg: Config)
    ensures Inv(cfg, EMPTY_DB)
  {
  }

  lemma {:induction false} RunKeeps(cfg: Config, db: Db, calls: seq<Call>)
    requires Inv(cfg, db)
    ensures Inv(cfg, Run(cfg, db, calls))
    decreases |calls|
  {
    if calls != [] {
      var last := calls[|calls| - 1];
      RunKeeps(cfg, db, calls[..|calls| - 1]);
      HandleKeeps(cfg, Run(cfg, db, calls[..|calls| - 1]), last.req, last.env);
    }
  }
}
