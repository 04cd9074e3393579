/** Requests handled one after the other are among the runs of the concurrent system. */
module Sequential {
  import opened Prelude
  import opened Schema
  import opened Handlers
  import opened Statements
  import opened Interleaving
  import Refinement

  /** Every kind of request, and no completion is dropped halfway. */
  const ANY := Traffic(false, false, false, true, false)

  /** No request is in flight. */
  ghost function Quiet(db: Db): System {
    System(db, map[], map[])
  }

  /** The run leads from `s` to `s'`. */
  ghost predicate Leads(cfg: Config, k: nat, states: seq<System>, s: System, s': System) {
    Behavior(cfg, k, ANY, states) && states[0] == s && states[|states| - 1] == s'
  }

  lemma Stay(cfg: Config, k: nat, s: System)
    ensures Leads(cfg, k, [s], s, s)
  {
    hide Next;
  }

  lemma OneStep(cfg: Config, k: nat, s: System, step: Step)
    requires Enabled(cfg, k, s, step) && Allowed(cfg, ANY, s, step)
    ensures Leads(cfg, k, [s, Apply(cfg, s, step)], s, Apply(cfg, s, step))
  {
    assert Next(cfg, k, ANY, s, Apply(cfg, s, step));
    hide Next, Enabled, Allowed, Apply;
  }

  /** Two runs, the second from where the first one ends. */
  lemma Join(cfg: Config, k: nat, x: seq<System>, y: seq<System>, a: System, b: System, c: System)
    returns (z: seq<System>)
    requires Leads(cfg, k, x, a, b) && Leads(cfg, k, y, b, c)
    ensures |y| > 0 && z == x + y[1..] && Leads(cfg, k, z, a, c)
  {
    hide Next;
    z := x + y[1..];
    forall i | 0 <= i < |z| - 1 ensures Next(cfg, k, ANY, z[i], z[i + 1]) {
      if i < |x| - 1 {
        assert Next(cfg, k, ANY, x[i], x[i + 1]);
      } else {
        assert z[i] == y[i + 1 - |x|] && z[i + 1] == y[i + 2 - |x|];
        assert Next(cfg, k, ANY, y[i + 1 - |x|], y[i + 1 - |x| + 1]);
      }
    }
    assert |y| == 1 ==> z == x;
  }

  /** The statements of one completion on connection 0, up to its end. */
  lemma {:induction false} StatementsLead(cfg: Config, k: nat, db: Db, f: Frame, env: Env) returns (states: seq<System>)
    requires k > 0
    ensures Leads(cfg, k, states, System(db, map[0 := f], map[]), Quiet(RunAlone(cfg, db, f, env).db))
    decreases Remaining(f), f.left
  {
    hide Advance, Leads;
    var s := System(db, map[0 := f], map[]);
    if f.pc == Done {
      OneStep(cfg, k, s, Release(0));
      assert Apply(cfg, s, Release(0)) == Quiet(db);
      states := [s, Quiet(db)];
    } else {
      AdvanceProgress(cfg, db, f, env);
      Refinement.StepAlone(cfg, db, f, env);
      var next := Advance(cfg, db, f, env);
      var s' := System(next.0, map[0 := next.1], map[]);
      OneStep(cfg, k, s, Statement(0, env));
      assert Apply(cfg, s, Statement(0, env)) == s';
      var rest := StatementsLead(cfg, k, next.0, next.1, env);
      states := Join(cfg, k, [s, s'], rest, s, s', Quiet(RunAlone(cfg, db, f, env).db));
    }
  }

  lemma CompletionLeads(cfg: Config, k: nat, db: Db, job: Job, parts: seq<(int, string)>, env: Env)
    returns (states: seq<System>)
    requires k > 0
    ensures Leads(cfg, k, states, Quiet(db), Quiet(Handle(cfg, db, Refinement.RequestOf(job, parts), env).db))
  {
    hide Leads, RunAlone, Advance;
    if Admissible(cfg, job) {
      hide Handle;
      Refinement.StatementsRefineHandler(cfg, db, job, parts, env);
      var s := System(db, map[0 := Start(job)], map[]);
      OneStep(cfg, k, Quiet(db), Begin(0, job));
      assert Apply(cfg, Quiet(db), Begin(0, job)) == s;
      var rest := StatementsLead(cfg, k, db, Start(job), env);
      states := Join(cfg, k, [Quiet(db), s], rest, Quiet(db), s, Quiet(RunAlone(cfg, db, Start(job), env).db));
    } else {
      hide CompletePending, CompleteFresh;
      Stay(cfg, k, Quiet(db));
      states := [Quiet(db)];
    }
  }

  /** A multipart init reads, asks the backend, and writes only if it got an upload id. */
  lemma InitLeads(cfg: Config, k: nat, db: Db, app: string, digest: string, env: Env) returns (states: seq<System>)
    requires k > 0
    ensures var result := InitMultipart(db, app, digest, env);
            && Leads(cfg, k, states, Quiet(db), Quiet(result.db))
            && (result.reply in {Fail(InvalidDigest), Fail(AlreadyStored)} ==> states == [Quiet(db)])
            && (result.reply !in {Fail(InvalidDigest), Fail(AlreadyStored)} ==>
                  |states| == 3 && states[1] == System(db, map[], map[0 := InitJob(app, digest)]))
  {
    hide Leads, IsHex, StorageKey;
    var s := Quiet(db);
    var result := InitMultipart(db, app, digest, env);
    if IsHex(digest, 64) && !StoredAt(db.rows, digest) {
      var s' := System(db, map[], map[0 := InitJob(app, digest)]);
      OneStep(cfg, k, s, InitRead(0, app, digest));
      assert Apply(cfg, s, InitRead(0, app, digest)) == s';
      var step := if env.newUpload.Some? then InitUpsert(0, env.newUpload.value, env.now) else InitFail(0);
      OneStep(cfg, k, s', step);
      assert Apply(cfg, s', step) == Quiet(result.db);
      states := Join(cfg, k, [s, s'], [s', Quiet(result.db)], s, s', Quiet(result.db));
    } else {
      Stay(cfg, k, s);
      states := [s];
    }
  }

  /** The one write of a request of another kind, if it writes. */
  ghost function WriteOf(cfg: Config, db: Db, req: Request, env: Env): Option<Step> {
    match req
    case Presign(app, digest) =>
      if digest !in db.rows && PresignArtifact(db, app, digest, env).reply.PutUrl? then
        Some(PresignInsert(app, digest, app in db.apps, env.now))
      else None
    case LegacyUpload(name, header, content, sig) =>
      var reply := UploadArtifact(cfg, db, name, header, content, sig, env).reply;
      if reply.Uploaded? && !reply.duplicate && name.Some? && header.Some? && content.Some? then
        var linked := name.value in db.apps;
        Some(LegacyInsert(name.value, header.value, |content.value|, sig, linked, reply.verified, env.now))
      else None
    case SweepPending(ttl) => Some(PendingGc(env.now - MICROS * (if ttl > 0 then ttl else 0)))
    case AddKey(app, publicKey) =>
      if IsHex(publicKey, 64) && app in db.apps then Some(RegisterKey(db.apps[app], publicKey)) else None
    case CreateApp(app) => if app in db.apps then None else Some(Register(app))
    case _ => None
  }

  lemma OneWrite(cfg: Config, k: nat, db: Db, req: Request, env: Env)
    requires !req.Complete? && !req.MultipartComplete? && !req.MultipartInit?
    ensures var step := WriteOf(cfg, db, req, env);
            var s' := Quiet(Handle(cfg, db, req, env).db);
            if step.None? then s' == Quiet(db)
            else
              && Enabled(cfg, k, Quiet(db), step.value) && Allowed(cfg, ANY, Quiet(db), step.value)
              && s' == Apply(cfg, Quiet(db), step.value)
  {
    hide IsHex, StorageKey, SignedBy, DeleteIds, Stale, IdsOf;
  }

  lemma WriteLeads(cfg: Config, k: nat, db: Db, req: Request, env: Env) returns (states: seq<System>)
    requires !req.Complete? && !req.MultipartComplete? && !req.MultipartInit?
    ensures Leads(cfg, k, states, Quiet(db), Quiet(Handle(cfg, db, req, env).db))
  {
    hide Leads, Enabled, Allowed, Apply, WriteOf, Handle;
    OneWrite(cfg, k, db, req, env);
    var step := WriteOf(cfg, db, req, env);
    if step.Some? {
      OneStep(cfg, k, Quiet(db), step.value);
      states := [Quiet(db), Apply(cfg, Quiet(db), step.value)];
    } else {
      Stay(cfg, k, Quiet(db));
      states := [Quiet(db)];
    }
  }

  /** Every request, handled alone, is a run of the concurrent system: what the runs contain is no less than
      what the registry does. */
  lemma HandlerIsBehavior(cfg: Config, k: nat, db: Db, req: Request, env: Env) returns (states: seq<System>)
    requires k > 0
    ensures Leads(cfg, k, states, Quiet(db), Quiet(Handle(cfg, db, req, env).db))
  {
    match req {
      case Complete(up) => states := CompletionLeads(cfg, k, db, Single(up), [], env);
      case MultipartComplete(up, uploadId, parts) =>
        states := CompletionLeads(cfg, k, db, Multi(up, uploadId), parts, env);
      case MultipartInit(app, digest) => states := InitLeads(cfg, k, db, app, digest, env);
      case _ => states := WriteLeads(cfg, k, db, req, env);
    }
  }

  /** Any sequence of requests, one after the other, is a run of the concurrent system with any number of
      connections. */
  lemma {:induction false} RunIsBehavior(cfg: Config, k: nat, db: Db, calls: seq<Call>) returns (states: seq<System>)
    requires k > 0
    ensures Leads(cfg, k, states, Quiet(db), Quiet(Run(cfg, db, calls)))
    decreases |calls|
  {
    if calls == [] {
      Stay(cfg, k, Quiet(db));
      states := [Quiet(db)];
    } else {
      hide Leads, Handle;
      var n := |calls| - 1;
      var before := Run(cfg, db, calls[..n]);
      var first := RunIsBehavior(cfg, k, db, calls[..n]);
      var last := HandlerIsBehavior(cfg, k, before, calls[n].req, calls[n].env);
      states := Join(cfg, k, first, last, Quiet(db), Quiet(before), Quiet(Run(cfg, db, calls)));
    }
  }
}
