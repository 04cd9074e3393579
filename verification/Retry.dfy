/** The command-line client's two-phase upload under crashes, retries and other traffic. */
module Retry {
  import opened Prelude
  import opened Schema
  import opened Handlers
  import opened Invariant
  import opened QuotaRuns
  import opened Lifecycle
  import opened Replies
  import opened RegistryService

  /** What the client uploads: one file of one application, with its signature. */
  datatype Client = Client(app: string, digest: string, size: int, signature: Option<string>)
  {
    function CompletionUpload(): Upload {
      Upload(app, digest, size, signature, Some(DerivedKey(digest)))
    }

    function Key(): string {
      StorageKey(app, digest)
    }
  }

  /** One run of the client: where it stops, whether its PUT succeeds, and what other requests the
      registry handles between presign and complete. */
  datatype Attempt = Attempt(
    presignEnv: Env, stopAfterPresign: bool, putOk: bool, between: seq<Call>, stopAfterPut: bool,
    completeEnv: Env, stopAfterComplete: bool)

  datatype Result = Stopped | Failed | Ok(storageKey: string)

  ghost function RunAttempt(cfg: Config, db: Db, cl: Client, at: Attempt): (Db, Result) {
    var presigned := Handle(cfg, db, Presign(cl.app, cl.digest), at.presignEnv);
    if at.stopAfterPresign then (presigned.db, Stopped)
    else if presigned.reply.NoUpload? then (presigned.db, Ok(presigned.reply.storageKey))
    else if !presigned.reply.PutUrl? || !at.putOk then (presigned.db, Failed)
    else
      var later := Run(cfg, presigned.db, at.between);
      if at.stopAfterPut then (later, Stopped)
      else
        var completed := Handle(cfg, later, Complete(cl.CompletionUpload()), at.completeEnv);
        if at.stopAfterComplete then (completed.db, Stopped)
        else if completed.reply.Completed? then (completed.db, Ok(presigned.reply.storageKey))
        else (completed.db, Failed)
  }

  /** The traffic that the registry handles in the meantime. */
  method ServeAll(registry: Registry, calls: seq<Call>)
    requires registry.Valid()
    modifies registry
    ensures registry.State() == Run(registry.cfg, old(registry.State()), calls)
    ensures registry.Valid()
  {
    for i := 0 to |calls|
      invariant registry.Valid()
      invariant registry.State() == Run(registry.cfg, old(registry.State()), calls[..i])
    {
      hide Handle;
      assert calls[..i + 1][..i] == calls[..i];
      var _ := registry.Serve(calls[i].req, calls[i].env);
    }
    assert calls[..|calls|] == calls;
  }

  /** The client as a program that talks to the registry. */
  method TwoPhaseUpload(registry: Registry, cl: Client, at: Attempt) returns (result: Result)
    requires registry.Valid()
    modifies registry
    ensures (registry.State(), result) == RunAttempt(registry.cfg, old(registry.State()), cl, at)
    ensures registry.Valid()
  {
    var presigned := registry.Serve(Presign(cl.app, cl.digest), at.presignEnv);
    if at.stopAfterPresign { return Stopped; }
    if presigned.NoUpload? { return Ok(presigned.storageKey); }
    if !presigned.PutUrl? || !at.putOk { return Failed; }
    ServeAll(registry, at.between);
    if at.stopAfterPut { return Stopped; }
    var completed := registry.Serve(Complete(cl.CompletionUpload()), at.completeEnv);
    if at.stopAfterComplete { return Stopped; }
    if !completed.Completed? { return Failed; }
    return Ok(presigned.storageKey);
  }

  // ---- traffic of other clients

  /** The request is about another digest and does not register the client's application. */
  predicate Foreign(cl: Client, req: Request) {
    match req
    case Presign(_, digest) => digest != cl.digest
    case Complete(up) => up.digest != cl.digest
    case LegacyUpload(_, header, _, _) => header != Some(cl.digest)
    case MultipartInit(_, digest) => digest != cl.digest
    case MultipartComplete(up, _, _) => up.digest != cl.digest
    case CreateApp(app) => app != cl.app
    case _ => true
  }

  predicate AllForeign(cl: Client, calls: seq<Call>) {
    forall i :: 0 <= i < |calls| ==> Foreign(cl, calls[i].req)
  }

  // ---- what every attempt leaves behind

  /** The row that a completed upload of this client has, up to timestamps, id and verified flag. */
  predicate Uploaded(cl: Client, app: Option<nat>, row: Row) {
    && row.app == app && row.size == cl.size && row.signature == cl.signature
    && row.storageKey == Some(cl.Key()) && row.status == Stored && row.idem == Some(DerivedKey(cl.digest))
  }

  /** The client's row is missing, pending under the client's storage key, or complete. */
  ghost predicate InProgress(cfg: Config, cl: Client, app: Option<nat>, db: Db) {
    && Inv(cfg, db) && AppNamed(db.apps, cl.app) == app
    && (cl.digest in db.rows ==>
          if db.rows[cl.digest].status == Pending then db.rows[cl.digest].storageKey == Some(cl.Key())
          else Uploaded(cl, app, db.rows[cl.digest]))
  }

  ghost predicate Finished(cfg: Config, cl: Client, app: Option<nat>, db: Db) {
    InProgress(cfg, cl, app, db) && cl.digest in db.rows && db.rows[cl.digest].status == Stored
  }

  /** A foreign request leaves the client's row alone, or sweeps it while pending; only retention below the
      count quota takes it away once it is stored. */
  lemma ForeignRow(cfg: Config, db: Db, d: string, cl: Client, req: Request, env: Env)
    requires Inv(cfg, db) && Foreign(cl, req) && d == cl.digest
    ensures var db' := Handle(cfg, db, req, env).db;
            && (d in db'.rows ==> d in db.rows && db'.rows[d] == db.rows[d])
            && (RetentionSlack(cfg) && d in db.rows && db.rows[d].status == Stored ==> d in db'.rows)
            && AppNamed(db'.apps, cl.app) == AppNamed(db.apps, cl.app)
  {
    if req.Complete? || req.MultipartComplete? {
      ForeignCompletion(cfg, db, cl, req, env);
    } else if req.SweepPending? {
      var stale := Stale(db.rows, env.now - MICROS * (if req.ttl > 0 then req.ttl else 0));
      if d in db.rows && db.rows[d].status == Stored { assert db.rows[d].id !in IdsOf(db.rows, stale); }
    } else {
      hide CompleteArtifact, CompleteMultipart, SweepStale, Inv, SignatureOk, StorageKey, IsHex, Blank;
    }
  }

  lemma ForeignCompletion(cfg: Config, db: Db, cl: Client, req: Request, env: Env)
    requires Inv(cfg, db) && Foreign(cl, req) && (req.Complete? || req.MultipartComplete?)
    ensures var db' := Handle(cfg, db, req, env).db;
            && (cl.digest in db'.rows ==> cl.digest in db.rows && db'.rows[cl.digest] == db.rows[cl.digest])
            && (RetentionSlack(cfg) && cl.digest in db.rows ==> cl.digest in db'.rows)
            && db'.apps == db.apps
  {
    hide Handle, Inv, QuotaIfLinked, Final, IsHex, RowOk, VerifiedRow, IdemTaken;
    var base, written := CompletionStages(cfg, db, req, env);
    if NewlyStored(db, req, Handle(cfg, db, req, env).reply) {
      LogShrinks(cfg, written, written.rows[req.up.digest].id, AppNamed(db.apps, req.up.app), env.tie);
      if RetentionSlack(cfg) { StoresKeepRows(cfg, db, req.up, env, base, written, Handle(cfg, db, req, env).db); }
      hide LogAndRetain;
    }
  }

  /** Logging and retention only remove rows. */
  lemma LogShrinks(cfg: Config, db: Db, id: nat, app: Option<nat>, tie: TieBreak)
    ensures var out := LogAndRetain(cfg, db, id, app, tie);
            out.apps == db.apps && forall d :: d in out.rows ==> d in db.rows && out.rows[d] == db.rows[d]
  {
    TailDeletes(cfg, db, id, app, tie);
  }

  /** Where retention has nothing to do, the tables after a completion are those after its write. */
  lemma StoresKeepRows(cfg: Config, db: Db, up: Upload, env: Env, base: Db, written: Db, out: Db)
    requires RetentionSlack(cfg) && Stores(cfg, db, up, env, base, written, out)
    ensures out.rows == written.rows && out.apps == written.apps
  {
    WriteKeepsTables(cfg, base, written, up.digest);
    SizesNonnegative(cfg, base);
    hide Inv, IsHex, RowOk, VerifiedRow, IdemTaken, LogAndRetain, QuotaIfLinked;
    LogKeepsRows(cfg, base.rows, written, up.digest, env.tie);
  }

  lemma ForeignKeeps(cfg: Config, cl: Client, app: Option<nat>, db: Db, req: Request, env: Env)
    requires InProgress(cfg, cl, app, db) && Foreign(cl, req)
    ensures var db' := Handle(cfg, db, req, env).db;
            && InProgress(cfg, cl, app, db')
            && (RetentionSlack(cfg) && Finished(cfg, cl, app, db) ==> Finished(cfg, cl, app, db'))
  {
    hide Handle, Inv, Uploaded, Foreign;
    ForeignRow(cfg, db, cl.digest, cl, req, env);
    HandleKeeps(cfg, db, req, env);
  }

  lemma {:induction false} ForeignRunKeeps(cfg: Config, cl: Client, app: Option<nat>, db: Db, calls: seq<Call>)
    requires InProgress(cfg, cl, app, db) && AllForeign(cl, calls)
    ensures var db' := Run(cfg, db, calls);
            && InProgress(cfg, cl, app, db')
            && (RetentionSlack(cfg) && Finished(cfg, cl, app, db) ==> Finished(cfg, cl, app, db'))
    decreases |calls|
  {
    hide Handle, InProgress, Finished, Foreign;
    if calls != [] {
      var init, last := calls[..|calls| - 1], calls[|calls| - 1];
      ForeignRunKeeps(cfg, cl, app, db, init);
      ForeignKeeps(cfg, cl, app, Run(cfg, db, init), last.req, last.env);
    }
  }

  /** The client's presign leaves progress as it is, and offers the client's own storage key. */
  lemma PresignKeepsProgress(cfg: Config, cl: Client, app: Option<nat>, db: Db, env: Env)
    requires InProgress(cfg, cl, app, db)
    ensures var out := Handle(cfg, db, Presign(cl.app, cl.digest), env);
            && InProgress(cfg, cl, app, out.db)
            && (out.reply.NoUpload? ==> Finished(cfg, cl, app, db) && out == Outcome(db, NoUpload(cl.Key())))
            && (out.reply.PutUrl? ==> out.reply.storageKey == cl.Key())
            && (Finished(cfg, cl, app, db) ==> out.db == db && !out.reply.PutUrl?)
  {
    HandleKeeps(cfg, db, Presign(cl.app, cl.digest), env);
    hide Inv, StorageKey;
  }

  lemma LogKeepsRows(cfg: Config, rows: Rows, written: Db, d: string, tie: TieBreak)
    requires RetentionSlack(cfg) && SizesOk(rows) && DistinctIds(written.rows)
    requires d in written.rows && written.rows == rows[d := written.rows[d]] && written.rows[d].size >= 0
    requires QuotaIfLinked(cfg, rows, written.rows[d].app, written.rows[d].size).None?
    ensures var out := LogAndRetain(cfg, written, written.rows[d].id, written.rows[d].app, tie);
            out.rows == written.rows && out.apps == written.apps
  {
    var logged := LogEvent(written, written.rows[d].id, StoredEvent);
    hide QuotaIfLinked, SizesOk, DistinctIds, HasId;
    RetainIdle(cfg, rows, logged, d, tie);
    hide Obsolete;
  }

  lemma PendingRowAfter(cfg: Config, db: Db, up: Upload, env: Env)
    requires Inv(cfg, db) && up.size >= 0 && up.digest in db.rows && db.rows[up.digest].status == Pending
    ensures var out := CompletePending(cfg, db, up, env); var d := up.digest;
            && out.db.apps == db.apps
            && if out.reply.Completed? then
                 && (d in out.db.rows ==>
                       && out.db.rows[d].storageKey == Some(StorageKey(up.app, d))
                       && Final(out.db.rows[d], AppNamed(db.apps, up.app), up, env.now))
                 && (RetentionSlack(cfg) ==> d in out.db.rows)
               else
                 && d in out.db.rows && out.db.rows[d].status == Pending
                 && out.db.rows[d].storageKey == db.rows[d].storageKey
  {
    var app := AppNamed(db.apps, up.app);
    var base := Backfill(db, up.digest, app);
    var final := Finalized(base.rows[up.digest], app, up, Some(StorageKey(up.app, up.digest)), env.now);
    var written := base.(rows := base.rows[up.digest := final]);
    assert final.idem == up.idem;
    assert SizesOk(base.rows) && DistinctIds(written.rows);
    LogShrinks(cfg, written, final.id, app, env.tie);
    hide LogAndRetain, QuotaIfLinked, StorageKey, RemoteCheck, IdemTaken, SizesOk, DistinctIds, Inv;
    if RetentionSlack(cfg) && QuotaIfLinked(cfg, base.rows, app, up.size).None? {
      LogKeepsRows(cfg, base.rows, written, up.digest, env.tie);
    }
  }

  lemma FreshRowAfter(cfg: Config, db: Db, up: Upload, env: Env)
    requires Inv(cfg, db) && up.size >= 0 && up.digest !in db.rows
    ensures var out := CompleteFresh(cfg, db, up, env); var d := up.digest;
            && out.db.apps == db.apps
            && if out.reply.Completed? then
                 && (d in out.db.rows ==>
                       && out.db.rows[d].storageKey == Some(StorageKey(up.app, d))
                       && Final(out.db.rows[d], AppNamed(db.apps, up.app), up, env.now))
                 && (RetentionSlack(cfg) ==> d in out.db.rows)
               else out.db == db
  {
    var app := AppNamed(db.apps, up.app);
    var verified := SignatureOk(cfg, db, app, up.digest, up.signature);
    var row := Row(0, app, up.size, up.signature, verified, Some(StorageKey(up.app, up.digest)), Stored,
                   env.now, Some(env.now), up.idem, None);
    var written := InsertRow(db, up.digest, row);
    assert SizesOk(db.rows) && DistinctIds(written.rows);
    LogShrinks(cfg, written, db.nextId, app, env.tie);
    hide LogAndRetain, QuotaIfLinked, StorageKey, SignatureOk, IdemTaken, SizesOk, DistinctIds, Inv;
    if RetentionSlack(cfg) && QuotaIfLinked(cfg, db.rows, app, up.size).None? {
      LogKeepsRows(cfg, db.rows, written, up.digest, env.tie);
    }
  }

  /** The client's complete leaves progress as it is; if it succeeds the upload is finished. */
  lemma CompleteKeepsProgress(cfg: Config, cl: Client, app: Option<nat>, db: Db, env: Env)
    requires InProgress(cfg, cl, app, db)
    ensures var out := Handle(cfg, db, Complete(cl.CompletionUpload()), env);
            && InProgress(cfg, cl, app, out.db)
            && (RetentionSlack(cfg) && out.reply.Completed? ==> Finished(cfg, cl, app, out.db))
            && (Finished(cfg, cl, app, db) ==> out.db == db)
  {
    var up := cl.CompletionUpload();
    HandleKeeps(cfg, db, Complete(up), env);
    if CompleteError(cfg, up).None? && cl.digest !in db.rows {
      FreshRowAfter(cfg, db, up, env);
    } else if CompleteError(cfg, up).None? && db.rows[cl.digest].status == Pending {
      PendingRowAfter(cfg, db, up, env);
    }
    hide Inv, CompletePending, CompleteFresh, CompleteError, StorageKey;
  }

  // ---- convergence

  lemma AttemptKeepsProgress(cfg: Config, cl: Client, app: Option<nat>, db: Db, at: Attempt)
    requires InProgress(cfg, cl, app, db) && AllForeign(cl, at.between)
    ensures var (db', result) := RunAttempt(cfg, db, cl, at);
            && InProgress(cfg, cl, app, db')
            && (result.Ok? ==> result.storageKey == cl.Key())
            && (RetentionSlack(cfg) && result.Ok? ==> Finished(cfg, cl, app, db'))
            && (Finished(cfg, cl, app, db) ==> db' == db)
  {
    hide Handle, InProgress, Finished;
    PresignKeepsProgress(cfg, cl, app, db, at.presignEnv);
    var presigned := Handle(cfg, db, Presign(cl.app, cl.digest), at.presignEnv);
    ForeignRunKeeps(cfg, cl, app, presigned.db, at.between);
    CompleteKeepsProgress(cfg, cl, app, Run(cfg, presigned.db, at.between), at.completeEnv);
  }

  // ---- what an attempt reports

  /** An attempt reports success exactly if it is not stopped and either finds the artifact stored, or puts it
      and then completes it. */
  lemma OkExactlyWhen(cfg: Config, db: Db, cl: Client, at: Attempt)
    ensures var first := Handle(cfg, db, Presign(cl.app, cl.digest), at.presignEnv);
            var last := Handle(cfg, Run(cfg, first.db, at.between), Complete(cl.CompletionUpload()), at.completeEnv);
            RunAttempt(cfg, db, cl, at).1.Ok? <==>
              && !at.stopAfterPresign
              && (first.reply.NoUpload?
                  || (first.reply.PutUrl? && at.putOk && !at.stopAfterPut && !at.stopAfterComplete
                      && last.reply.Completed?))
  {
    hide Handle, Run;
  }

  /** A failed PUT ends the attempt with a failure, and nothing is completed: the tables are those after the
      presign. So does a stop before it, without a report. */
  lemma FailedPut(cfg: Config, db: Db, cl: Client, at: Attempt)
    requires at.stopAfterPresign || !at.putOk
    ensures var first := Handle(cfg, db, Presign(cl.app, cl.digest), at.presignEnv);
            && RunAttempt(cfg, db, cl, at).0 == first.db
            && (at.stopAfterPresign ==> RunAttempt(cfg, db, cl, at).1 == Stopped)
            && (!at.stopAfterPresign && first.reply.PutUrl? ==> RunAttempt(cfg, db, cl, at).1 == Failed)
  {
    hide Handle, Run;
  }

  /** A stop after the PUT leaves the tables before the complete, one after the complete those after it. */
  lemma StoppedLater(cfg: Config, db: Db, cl: Client, at: Attempt)
    requires !at.stopAfterPresign && at.putOk && (at.stopAfterPut || at.stopAfterComplete)
    requires Handle(cfg, db, Presign(cl.app, cl.digest), at.presignEnv).reply.PutUrl?
    ensures var first := Handle(cfg, db, Presign(cl.app, cl.digest), at.presignEnv);
            var later := Run(cfg, first.db, at.between);
            RunAttempt(cfg, db, cl, at) ==
            (if at.stopAfterPut then later
             else Handle(cfg, later, Complete(cl.CompletionUpload()), at.completeEnv).db, Stopped)
  {
    hide Handle, Run;
  }

  /** A success means that the artifact was stored already or that this attempt's PUT has succeeded. */
  lemma OkMeansPut(cfg: Config, db: Db, cl: Client, at: Attempt)
    requires RunAttempt(cfg, db, cl, at).1.Ok?
    ensures (cl.digest in db.rows && db.rows[cl.digest].status == Stored) || at.putOk
  {
    OkExactlyWhen(cfg, db, cl, at);
    PresignAnswers(cfg, db, cl.app, cl.digest, at.presignEnv);
    hide Handle, Run, RunAttempt;
  }

  /** A session: attempts of the client, each followed by other traffic. */
  datatype Round = Round(attempt: Attempt, traffic: seq<Call>)

  ghost function RunSession(cfg: Config, db: Db, cl: Client, rounds: seq<Round>): Db {
    if rounds == [] then db
    else
      var before := RunSession(cfg, db, cl, rounds[..|rounds| - 1]);
      var last := rounds[|rounds| - 1];
      Run(cfg, RunAttempt(cfg, before, cl, last.attempt).0, last.traffic)
  }

  ghost function ResultAt(cfg: Config, db: Db, cl: Client, rounds: seq<Round>, i: nat): Result
    requires i < |rounds|
  {
    RunAttempt(cfg, RunSession(cfg, db, cl, rounds[..i]), cl, rounds[i].attempt).1
  }

  predicate QuietRounds(cl: Client, rounds: seq<Round>) {
    forall i :: 0 <= i < |rounds| ==> AllForeign(cl, rounds[i].attempt.between) && AllForeign(cl, rounds[i].traffic)
  }

  /** Throughout a session the client's row is missing, pending under its own key, or complete, and every
      success reports that key. Where retention does not undercut the count quota, success means complete. */
  lemma {:induction false} SessionProgress(cfg: Config, cl: Client, app: Option<nat>, db: Db, rounds: seq<Round>)
    requires InProgress(cfg, cl, app, db) && QuietRounds(cl, rounds)
    ensures InProgress(cfg, cl, app, RunSession(cfg, db, cl, rounds))
    ensures forall i :: 0 <= i < |rounds| && ResultAt(cfg, db, cl, rounds, i).Ok? ==>
              && ResultAt(cfg, db, cl, rounds, i) == Ok(cl.Key())
              && (RetentionSlack(cfg) ==> Finished(cfg, cl, app, RunSession(cfg, db, cl, rounds)))
    decreases |rounds|
  {
    hide InProgress, Finished, RunAttempt, AllForeign, RetentionSlack;
    if rounds != [] {
      var n := |rounds| - 1;
      var init, last := rounds[..n], rounds[n];
      SessionProgress(cfg, cl, app, db, init);
      var before := RunSession(cfg, db, cl, init);
      AttemptKeepsProgress(cfg, cl, app, before, last.attempt);
      var (after, result) := RunAttempt(cfg, before, cl, last.attempt);
      ForeignRunKeeps(cfg, cl, app, after, last.traffic);
      forall i | 0 <= i < n && ResultAt(cfg, db, cl, rounds, i).Ok?
        ensures ResultAt(cfg, db, cl, rounds, i) == Ok(cl.Key())
        ensures RetentionSlack(cfg) ==> Finished(cfg, cl, app, RunSession(cfg, db, cl, rounds))
      {
        assert init[..i] == rounds[..i];
        assert ResultAt(cfg, db, cl, init, i) == ResultAt(cfg, db, cl, rounds, i);
      }
    }
  }

  // ---- nothing is stored that has not been put

  ghost predicate Unstored(cfg: Config, cl: Client, db: Db) {
    Inv(cfg, db) && (cl.digest in db.rows ==> db.rows[cl.digest].status == Pending)
  }

  lemma {:induction false} ForeignRunUnstored(cfg: Config, cl: Client, db: Db, calls: seq<Call>)
    requires Unstored(cfg, cl, db) && AllForeign(cl, calls)
    ensures Unstored(cfg, cl, Run(cfg, db, calls))
    decreases |calls|
  {
    hide Handle, Inv, Foreign;
    if calls != [] {
      var init, last := calls[..|calls| - 1], calls[|calls| - 1];
      ForeignRunUnstored(cfg, cl, db, init);
      ForeignRow(cfg, Run(cfg, db, init), cl.digest, cl, last.req, last.env);
      HandleKeeps(cfg, Run(cfg, db, init), last.req, last.env);
    }
  }

  lemma AttemptUnstored(cfg: Config, cl: Client, db: Db, at: Attempt)
    requires Unstored(cfg, cl, db) && !at.putOk
    ensures Unstored(cfg, cl, RunAttempt(cfg, db, cl, at).0)
  {
    FailedPut(cfg, db, cl, at);
    HandleKeeps(cfg, db, Presign(cl.app, cl.digest), at.presignEnv);
    hide Inv, RunAttempt, IsHex, Blank, StorageKey;
  }

  /** In a session that begins without a row, the digest is stored only if the PUT of some attempt has
      succeeded. */
  lemma {:induction false} StoredMeansPut(cfg: Config, cl: Client, db: Db, rounds: seq<Round>)
    requires Inv(cfg, db) && cl.digest !in db.rows && QuietRounds(cl, rounds)
    requires forall i :: 0 <= i < |rounds| ==> !rounds[i].attempt.putOk
    ensures Unstored(cfg, cl, RunSession(cfg, db, cl, rounds))
    decreases |rounds|
  {
    hide Inv, RunAttempt, AllForeign, Unstored, Run;
    if rounds == [] {
      StartsUnstored(cfg, cl, db);
    } else {
      var init, last := rounds[..|rounds| - 1], rounds[|rounds| - 1];
      StoredMeansPut(cfg, cl, db, init);
      var before := RunSession(cfg, db, cl, init);
      AttemptUnstored(cfg, cl, before, last.attempt);
      ForeignRunUnstored(cfg, cl, RunAttempt(cfg, before, cl, last.attempt).0, last.traffic);
    }
  }

  lemma StartsUnstored(cfg: Config, cl: Client, db: Db)
    requires Inv(cfg, db) && cl.digest !in db.rows
    ensures Unstored(cfg, cl, db)
  {
  }

  /** Two rows that a client cannot tell apart by what it asked for. */
  predicate Agree(x: Row, y: Row) {
    && x.app == y.app && x.size == y.size && x.signature == y.signature
    && x.storageKey == y.storageKey && x.status == y.status && x.idem == y.idem
  }

  /** A single attempt that nothing interrupts. */
  predicate Uninterrupted(at: Attempt) {
    !at.stopAfterPresign && at.putOk && at.between == [] && !at.stopAfterPut && !at.stopAfterComplete
  }

  /** Once any attempt of any session has reported success, the row agrees with that of one uninterrupted
      attempt in any other registry that knows the application under the same id, and every further
      attempt leaves the whole registry as it is. */
  lemma Convergence(cfg: Config, cl: Client, db: Db, rounds: seq<Round>, i: nat,
                    ref: Db, once: Attempt, further: Attempt)
    requires Inv(cfg, db) && cl.digest !in db.rows && RetentionSlack(cfg) && QuietRounds(cl, rounds)
    requires i < |rounds| && ResultAt(cfg, db, cl, rounds, i).Ok?
    requires Inv(cfg, ref) && cl.digest !in ref.rows && AppNamed(ref.apps, cl.app) == AppNamed(db.apps, cl.app)
    requires Uninterrupted(once) && RunAttempt(cfg, ref, cl, once).1.Ok? && AllForeign(cl, further.between)
    ensures var final := RunSession(cfg, db, cl, rounds); var alone := RunAttempt(cfg, ref, cl, once).0;
            && cl.digest in final.rows && cl.digest in alone.rows
            && Agree(final.rows[cl.digest], alone.rows[cl.digest])
            && RunAttempt(cfg, final, cl, further).0 == final
  {
    var app := AppNamed(db.apps, cl.app);
    var final := RunSession(cfg, db, cl, rounds);
    SessionProgress(cfg, cl, app, db, rounds);
    AttemptKeepsProgress(cfg, cl, app, ref, once);
    AttemptKeepsProgress(cfg, cl, app, final, further);
    hide Inv, RunAttempt, RunSession;
  }

  // ---- when an uninterrupted attempt succeeds

  /** Nothing in the way of this upload: valid request, storage answers, quota has room, key is free. */
  ghost predicate Admitted(cfg: Config, cl: Client, db: Db, at: Attempt) {
    var up, app := cl.CompletionUpload(), AppNamed(db.apps, cl.app);
    && CompleteError(cfg, up).None? && at.presignEnv.presignOk
    && RemoteAgrees(cfg, cl.size, cl.digest, at.completeEnv)
    && QuotaIfLinked(cfg, db.rows, app, cl.size).None?
    && !IdemTaken(db.rows, cl.digest, up.idem)
  }

  /** For a digest without a row, an uninterrupted attempt succeeds exactly when it is admitted. */
  lemma SuccessExactlyWhenAdmitted(cfg: Config, cl: Client, db: Db, at: Attempt)
    requires Inv(cfg, db) && cl.digest !in db.rows && Uninterrupted(at)
    ensures RunAttempt(cfg, db, cl, at).1.Ok? <==> Admitted(cfg, cl, db, at)
  {
    var up := cl.CompletionUpload();
    if !Blank(cl.app) && IsHex(cl.digest, 64) && at.presignEnv.presignOk {
      var row := PendingRow(AppNamed(db.apps, cl.app), cl.Key(), None, at.presignEnv.now);
      var later := InsertRow(db, cl.digest, row);
      assert later == Handle(cfg, db, Presign(cl.app, cl.digest), at.presignEnv).db;
      PendingInvisible(cfg, db, cl.digest, row, AppNamed(db.apps, cl.app), cl.size, up.idem);
      assert Backfill(later, cl.digest, AppNamed(later.apps, cl.app)) == later;
      assert Run(cfg, later, at.between) == later;
    }
    hide QuotaIfLinked, IdemTaken, LogAndRetain, StorageKey, RemoteCheck, Inv;
  }

  /** A new pending row changes neither the quota decision nor the free keys. */
  lemma PendingInvisible(cfg: Config, db: Db, d: string, row: Row, app: Option<nat>, size: int, key: Option<string>)
    requires d !in db.rows && row.status == Pending && row.idem.None?
    ensures QuotaIfLinked(cfg, InsertRow(db, d, row).rows, app, size) == QuotaIfLinked(cfg, db.rows, app, size)
    ensures IdemTaken(InsertRow(db, d, row).rows, d, key) <==> IdemTaken(db.rows, d, key)
  {
    var rows' := InsertRow(db, d, row).rows;
    assert forall e :: e in db.rows ==> rows'[e] == db.rows[e];
    if app.Some? {
      assert StoredOf(rows', app.value) == StoredOf(db.rows, app.value);
      assert SizesOf(rows', app.value) == SizesOf(db.rows, app.value);
    }
  }
}
