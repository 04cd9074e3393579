/** What a client of the registry may rely on over a whole run: stored rows do not change,
    idempotency keys mean one operation, and the event log counts completions. */
module Lifecycle {
  import opened Prelude
  import opened Schema
  import opened Handlers
  import opened Invariant
  import opened QuotaRuns

  // ---- stored rows are immutable

  /** Every row of `db'` is new, or is a row of `db` under the same id; a stored row is the same row. */
  ghost predicate Evolves(db: Db, db': Db) {
    && db.nextId <= db'.nextId
    && forall d :: d in db'.rows ==>
         || db'.rows[d].id >= db.nextId
         || (d in db.rows && db.rows[d].id == db'.rows[d].id
             && (db.rows[d].status == Stored ==> db'.rows[d] == db.rows[d]))
  }

  lemma CompletionEvolves(cfg: Config, db: Db, req: Request, env: Env)
    requires Inv(cfg, db) && (req.Complete? || req.MultipartComplete?)
    ensures Evolves(db, Handle(cfg, db, req, env).db)
  {
    hide Handle, Inv, IsHex, RowOk, VerifiedRow, IdemTaken, QuotaIfLinked, LogAndRetain;
    var base, written := CompletionStages(cfg, db, req, env);
    if NewlyStored(db, req, Handle(cfg, db, req, env).reply) {
      assert Evolves(db, written);
      TailDeletes(cfg, written, written.rows[req.up.digest].id, AppNamed(db.apps, req.up.app), env.tie);
    }
  }

  /** Logging and retention only remove rows. */
  lemma TailDeletes(cfg: Config, db: Db, id: nat, app: Option<nat>, tie: TieBreak)
    ensures var out := LogAndRetain(cfg, db, id, app, tie);
            out.nextId == db.nextId && forall d :: d in out.rows ==> d in db.rows && out.rows[d] == db.rows[d]
  {
  }

  lemma HandleEvolves(cfg: Config, db: Db, req: Request, env: Env)
    requires Inv(cfg, db)
    ensures Evolves(db, Handle(cfg, db, req, env).db)
  {
    hide Handle, Inv, Evolves;
    if req.Complete? || req.MultipartComplete? {
      CompletionEvolves(cfg, db, req, env);
    } else {
      OthersEvolve(cfg, db, req, env);
    }
  }

  lemma OthersEvolve(cfg: Config, db: Db, req: Request, env: Env)
    requires !req.Complete? && !req.MultipartComplete?
    ensures Evolves(db, Handle(cfg, db, req, env).db)
  {
    hide IsHex, SignatureOk, StorageKey, CompleteArtifact, CompleteMultipart;
  }

  /** Over every run, whatever it contains, a stored row that is still there has not changed;
      and with retention off it is still there. */
  lemma {:induction false} StoredIsImmutable(cfg: Config, db: Db, calls: seq<Call>, d: string)
    requires Inv(cfg, db) && d in db.rows && db.rows[d].status == Stored
    ensures var rows' := Run(cfg, db, calls).rows;
            && (d in rows' && rows'[d].id == db.rows[d].id ==> rows'[d] == db.rows[d])
            && (cfg.Retain() == 0 ==> d in rows' && rows'[d] == db.rows[d])
  {
    RunEvolves(cfg, db, calls);
    if cfg.Retain() == 0 { RetentionNeverActs(cfg, db, calls, d); }
  }

  lemma {:induction false} RunEvolves(cfg: Config, db: Db, calls: seq<Call>)
    requires Inv(cfg, db)
    ensures Evolves(db, Run(cfg, db, calls))
    decreases |calls|
  {
    if calls != [] {
      var init, last := calls[..|calls| - 1], calls[|calls| - 1];
      RunEvolves(cfg, db, init);
      RunKeeps(cfg, db, init);
      HandleEvolves(cfg, Run(cfg, db, init), last.req, last.env);
    }
  }

  // ---- branches that no run reaches

  /** A pending row has a storage key, so neither multipart handler ever reports one missing. */
  lemma StorageKeyNeverMissing(cfg: Config, calls: seq<Call>, i: nat)
    requires i < |calls|
    ensures ReplyAt(cfg, EMPTY_DB, calls, i) != Fail(MissingStorageKey)
  {
    EmptyInv(cfg);
    RunKeeps(cfg, EMPTY_DB, calls[..i]);
    KeyPresent(cfg, Run(cfg, EMPTY_DB, calls[..i]), calls[i].req, calls[i].env);
  }

  lemma KeyPresent(cfg: Config, db: Db, req: Request, env: Env)
    requires RowsOk(db.rows)
    ensures Handle(cfg, db, req, env).reply != Fail(MissingStorageKey)
  {
  }

  /** A completion is refused for its idempotency key only when another digest holds that key: the
      comparison with the key of the same pending row never finds one. */
  lemma ConflictMeansOtherDigest(cfg: Config, calls: seq<Call>, i: nat)
    requires i < |calls| && ReplyAt(cfg, EMPTY_DB, calls, i) == Fail(IdempotencyConflict)
    ensures calls[i].req.Complete?
    ensures IdemTaken(Run(cfg, EMPTY_DB, calls[..i]).rows, calls[i].req.up.digest, calls[i].req.up.idem)
  {
    EmptyInv(cfg);
    RunKeeps(cfg, EMPTY_DB, calls[..i]);
    ConflictTaken(cfg, Run(cfg, EMPTY_DB, calls[..i]), calls[i].req, calls[i].env);
  }

  lemma ConflictTaken(cfg: Config, db: Db, req: Request, env: Env)
    requires RowsOk(db.rows) && Handle(cfg, db, req, env).reply == Fail(IdempotencyConflict)
    ensures req.Complete? && IdemTaken(db.rows, req.up.digest, req.up.idem)
  {
    var up := req.up;
    if up.digest in db.rows {
      BackfillKeepsIdems(db, up.digest, AppNamed(db.apps, up.app), up.idem);
    }
  }

  lemma BackfillKeepsIdems(db: Db, d: string, app: Option<nat>, key: Option<string>)
    requires d in db.rows
    ensures IdemTaken(Backfill(db, d, app).rows, d, key) <==> IdemTaken(db.rows, d, key)
  {
    var rows' := Backfill(db, d, app).rows;
    assert forall e :: e in db.rows && e != d ==> rows'[e] == db.rows[e];
  }

  /** Conversely a key that another digest holds is never bound again, on either path. */
  lemma TakenKeyNeverBinds(cfg: Config, db: Db, req: Request, env: Env)
    requires Inv(cfg, db) && (req.Complete? || req.MultipartComplete?)
    requires IdemTaken(db.rows, req.up.digest, req.up.idem)
    ensures !NewlyStored(db, req, Handle(cfg, db, req, env).reply)
  {
    hide Handle;
    var base, written := CompletionStages(cfg, db, req, env);
    if NewlyStored(db, req, Handle(cfg, db, req, env).reply) {
      if base != db { BackfillKeepsIdems(db, req.up.digest, AppNamed(db.apps, req.up.app), req.up.idem); }
      assert false;
    }
  }

  // ---- keys derived from the digest

  /** The idempotency key that the command-line client sends. */
  function DerivedKey(digest: string): string {
    "idem-" + digest
  }

  predicate KeyDerived(up: Upload) {
    up.idem.None? || up.idem == Some(DerivedKey(up.digest))
  }

  predicate Derived(req: Request) {
    req.Complete? || req.MultipartComplete? ==> KeyDerived(req.up)
  }

  ghost predicate OwnKeys(rows: Rows) {
    forall d :: d in rows && rows[d].idem.Some? ==> rows[d].idem == Some(DerivedKey(d))
  }

  lemma DerivedKeysInjective(d: string, e: string)
    requires DerivedKey(d) == DerivedKey(e)
    ensures d == e
  {
    assert DerivedKey(d)[5..] == d && DerivedKey(e)[5..] == e;
  }

  lemma OwnKeyFree(rows: Rows, d: string, key: Option<string>)
    requires OwnKeys(rows) && (key.None? || key == Some(DerivedKey(d)))
    ensures !IdemTaken(rows, d, key)
  {
    if e :| e in rows && e != d && rows[e].idem == key && key.Some? { DerivedKeysInjective(d, e); }
  }

  lemma HandleOwnKeys(cfg: Config, db: Db, req: Request, env: Env)
    requires Inv(cfg, db) && OwnKeys(db.rows) && Derived(req)
    ensures OwnKeys(Handle(cfg, db, req, env).db.rows)
  {
    if req.Complete? || req.MultipartComplete? { CompletionOwnKeys(cfg, db, req, env); }
  }

  lemma CompletionOwnKeys(cfg: Config, db: Db, req: Request, env: Env)
    requires Inv(cfg, db) && OwnKeys(db.rows) && Derived(req) && (req.Complete? || req.MultipartComplete?)
    ensures OwnKeys(Handle(cfg, db, req, env).db.rows)
  {
    hide Handle, RowOk, VerifiedRow, EventsOk, AppsOk, QuotaIfLinked, SignedBy, IsHex;
    var base, written := CompletionStages(cfg, db, req, env);
    if NewlyStored(db, req, Handle(cfg, db, req, env).reply) { assert OwnKeys(written.rows); }
  }

  lemma {:induction false} RunOwnKeys(cfg: Config, calls: seq<Call>)
    requires forall i :: 0 <= i < |calls| ==> Derived(calls[i].req)
    ensures OwnKeys(Run(cfg, EMPTY_DB, calls).rows) && Inv(cfg, Run(cfg, EMPTY_DB, calls))
    decreases |calls|
  {
    EmptyInv(cfg);
    RunKeeps(cfg, EMPTY_DB, calls);
    if calls != [] {
      var init, last := calls[..|calls| - 1], calls[|calls| - 1];
      RunOwnKeys(cfg, init);
      HandleOwnKeys(cfg, Run(cfg, EMPTY_DB, init), last.req, last.env);
    }
  }

  /** When every client derives its key from the digest, no request of any run fails for its key:
      no 409 on the single-part path and no failed UPDATE on the multipart path. */
  lemma DerivedKeysNeverConflict(cfg: Config, calls: seq<Call>, i: nat)
    requires i < |calls| && forall j :: 0 <= j < |calls| ==> Derived(calls[j].req)
    ensures ReplyAt(cfg, EMPTY_DB, calls, i) !in {Fail(IdempotencyConflict), Fail(DbUpdate)}
  {
    var db, req, env := Run(cfg, EMPTY_DB, calls[..i]), calls[i].req, calls[i].env;
    RunOwnKeys(cfg, calls[..i]);
    if req.Complete? || req.MultipartComplete? { OwnKeyFree(db.rows, req.up.digest, req.up.idem); }
    if Handle(cfg, db, req, env).reply == Fail(IdempotencyConflict) {
      ConflictTaken(cfg, db, req, env);
    }
    NoFailedUpdate(cfg, db, req, env);
  }

  lemma NoFailedUpdate(cfg: Config, db: Db, req: Request, env: Env)
    requires RowsOk(db.rows)
    requires req.MultipartComplete? ==> !IdemTaken(db.rows, req.up.digest, req.up.idem)
    ensures Handle(cfg, db, req, env).reply != Fail(DbUpdate)
  {
  }

  // ---- the event log counts completions

  function CompletedRows(rows: Rows): set<string> {
    set d | d in rows && rows[d].completedAt.Some?
  }

  lemma {:induction false} ImageSize<S, T>(s: set<S>, f: S --> T, image: set<T>)
    requires forall x :: x in s ==> f.requires(x)
    requires forall x, y :: x in s && y in s && f(x) == f(y) ==> x == y
    requires forall x :: x in s ==> f(x) in image
    requires forall y :: y in image ==> exists x :: x in s && f(x) == y
    ensures |image| == |s|
    decreases s
  {
    if s == {} {
      assert image == {};
    } else {
      var x :| x in s;
      ImageSize(s - {x}, f, image - {f(x)});
      assert |image - {f(x)}| == |image| - 1;
    }
  }

  /** Over every run the table holds exactly one event per completed row, all of kind "stored":
      retention's own events never outlive the rows they announce. */
  lemma EventsCountCompletions(cfg: Config, calls: seq<Call>)
    ensures var db := Run(cfg, EMPTY_DB, calls);
            EventsOk(db) && |db.events| == |CompletedRows(db.rows)|
  {
    EmptyInv(cfg);
    RunKeeps(cfg, EMPTY_DB, calls);
    var db := Run(cfg, EMPTY_DB, calls);
    EventSizes(db);
  }

  lemma EventSizes(db: Db)
    requires EventsOk(db) && DistinctIds(db.rows)
    ensures |db.events| == |CompletedRows(db.rows)|
  {
    var done := CompletedRows(db.rows);
    var ids := IdsOf(db.rows, done);
    ImageSize(done, d requires d in db.rows => db.rows[d].id, ids);
    ImageSize(db.events, (e: Event) => e.artifact, ids);
  }

  // ---- signatures

  /** In every reachable state, a row marked verified belongs to an application one of whose active
      keys verifies the row's signature over its digest. */
  lemma VerifiedRowsAreSigned(cfg: Config, calls: seq<Call>, d: string)
    requires d in Run(cfg, EMPTY_DB, calls).rows && Run(cfg, EMPTY_DB, calls).rows[d].verified
    ensures var db := Run(cfg, EMPTY_DB, calls);
            && db.rows[d].app.Some? && db.rows[d].signature.Some?
            && SignedBy(cfg, db.keys, db.rows[d].app.value, d, db.rows[d].signature.value)
  {
    EmptyInv(cfg);
    RunKeeps(cfg, EMPTY_DB, calls);
  }

  /** A completion marks its row verified exactly when the digest had no row and an active key of the
      named application verifies the signature: what was presigned is never verified. */
  lemma VerifiedExactlyWhen(cfg: Config, db: Db, up: Upload, env: Env)
    requires Inv(cfg, db)
    requires NewlyStored(db, Complete(up), Handle(cfg, db, Complete(up), env).reply)
    ensures Handle(cfg, db, Complete(up), env).reply.verified <==>
              && up.digest !in db.rows && up.app in db.apps
              && up.signature.Some? && IsHex(up.signature.value, 128)
              && SignedBy(cfg, db.keys, db.apps[up.app], up.digest, up.signature.value)
  {
    hide LogAndRetain, QuotaIfLinked, IdemTaken, Inv, CompleteError, SignedBy, IsHex, StorageKey, RemoteCheck;
  }

  ghost predicate NoneVerified(db: Db) {
    forall d :: d in db.rows ==> !db.rows[d].verified
  }

  lemma CompletionUnverified(cfg: Config, db: Db, req: Request, env: Env)
    requires NoneVerified(db) && cfg.requirePresign && (req.Complete? || req.MultipartComplete?)
    ensures NoneVerified(Handle(cfg, db, req, env).db)
  {
    hide QuotaIfLinked, IdemTaken, SignatureOk, IsHex, StorageKey, RemoteCheck, CompleteError, LogEvent, Obsolete,
         IdsOf;
    RetainUnverified();
  }

  lemma RetainUnverified()
    ensures forall cfg, db, id, app, tie :: NoneVerified(db) ==> NoneVerified(LogAndRetain(cfg, db, id, app, tie))
  {
    forall cfg, db, id, app, tie | NoneVerified(db) ensures NoneVerified(LogAndRetain(cfg, db, id, app, tie)) {
      TailDeletes(cfg, db, id, app, tie);
    }
  }

  lemma OthersUnverified(cfg: Config, db: Db, req: Request, env: Env)
    requires NoneVerified(db) && !req.Complete? && !req.MultipartComplete? && !req.LegacyUpload?
    ensures NoneVerified(Handle(cfg, db, req, env).db)
  {
    hide IsHex, StorageKey, Blank;
  }

  /** Hence with mandatory presigning and without legacy uploads, no row of any run is ever verified,
      whatever keys are registered and whatever signatures are sent. */
  lemma {:induction false} MandatoryPresignNeverVerifies(cfg: Config, calls: seq<Call>)
    requires cfg.requirePresign && forall i :: 0 <= i < |calls| ==> !calls[i].req.LegacyUpload?
    ensures NoneVerified(Run(cfg, EMPTY_DB, calls))
    decreases |calls|
  {
    if calls != [] {
      var init, last := calls[..|calls| - 1], calls[|calls| - 1];
      MandatoryPresignNeverVerifies(cfg, init);
      if last.req.Complete? || last.req.MultipartComplete? {
        CompletionUnverified(cfg, Run(cfg, EMPTY_DB, init), last.req, last.env);
      } else {
        OthersUnverified(cfg, Run(cfg, EMPTY_DB, init), last.req, last.env);
      }
    }
  }
}
