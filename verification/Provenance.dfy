/** Registry and deployments in one run: what the signature of a deployment says about its digest. */
module Provenance {
  import opened Prelude
  import Schema
  import Handlers
  import Paths
  import D = Deployments
  import Scenarios

  /** What a POST /deployments carries from its verification to its INSERT. */
  datatype Ticket = Ticket(app: nat, url: string, digest: Option<string>, sig: Option<string>)

  datatype World = World(db: Schema.Db, deploy: D.System, tickets: set<Ticket>)

  const NOTHING := World(Schema.EMPTY_DB, D.System(D.EMPTY, D.Idle), {})

  /** Requests to the registry; the two halves of POST /deployments; PATCH /deployments/{id}; and all other
      steps of the deployment tables. A verified ticket stays, as if the same request had come again. */
  datatype Step =
    | Registry(call: Handlers.Call)
    | Verify(app: string, url: string, sig: Option<string>)
    | Insert(ticket: Ticket, now: int)
    | Patch(id: nat, digest: string)
    | Deploy(step: D.Step)

  predicate Enabled(w: World, step: Step) {
    match step
    case Insert(ticket, _) => ticket in w.tickets
    case Patch(_, digest) => IsHex(digest, 64)
    case Deploy(d) => !d.CreateStep? && !d.DigestStep? && D.Enabled(w.deploy, d)
    case _ => true
  }

  /** The ticket that POST /deployments gets, or its refusal. */
  ghost function Check(cfg: Handlers.Config, db: Schema.Db, app: string, url: string,
                       sig: Option<string>): Option<Ticket>
  {
    var digest := Paths.ResolveDigest(db.rows, url);
    if D.VerifyIfPresent(cfg, db, app, digest, sig).Some? || app !in db.apps then None
    else Some(Ticket(db.apps[app], url, digest, sig))
  }

  /** The step of the deployment tables that a step is, if it is one. */
  function Part(step: Step): Option<D.Step> {
    match step
    case Insert(t, now) => Some(D.CreateStep(t.app, t.url, t.digest, t.sig, now))
    case Patch(id, digest) => Some(D.DigestStep(id, digest))
    case Deploy(d) => Some(d)
    case _ => None
  }

  ghost function Apply(cfg: Handlers.Config, w: World, step: Step): World
    requires Enabled(w, step)
  {
    match step
    case Registry(call) => w.(db := Handlers.Handle(cfg, w.db, call.req, call.env).db)
    case Verify(app, url, sig) =>
      var ticket := Check(cfg, w.db, app, url, sig);
      if ticket.Some? then w.(tickets := w.tickets + {ticket.value}) else w
    case _ => w.(deploy := D.Apply(w.deploy, Part(step).value))
  }

  ghost predicate Possible(cfg: Handlers.Config, w: World, steps: seq<Step>)
    decreases |steps|, 0
  {
    steps == [] ||
    (Possible(cfg, w, steps[..|steps| - 1]) && Enabled(After(cfg, w, steps[..|steps| - 1]), steps[|steps| - 1]))
  }

  ghost function After(cfg: Handlers.Config, w: World, steps: seq<Step>): World
    requires Possible(cfg, w, steps)
    decreases |steps|, 1
  {
    if steps == [] then w else Apply(cfg, After(cfg, w, steps[..|steps| - 1]), steps[|steps| - 1])
  }

  ghost function RowsAfter(cfg: Handlers.Config, w: World, steps: seq<Step>): D.Rows
    requires Possible(cfg, w, steps)
  {
    After(cfg, w, steps).deploy.store.rows
  }

  /** The digest that the last PATCH of the run gave to the deployment, if there was one. */
  ghost function LastPatch(cfg: Handlers.Config, w: World, steps: seq<Step>, id: nat): Option<string>
    requires Possible(cfg, w, steps)
    decreases |steps|
  {
    if steps == [] then None
    else
      var init, last := steps[..|steps| - 1], steps[|steps| - 1];
      if last.Patch? && last.id == id && id in RowsAfter(cfg, w, init) then Some(last.digest)
      else LastPatch(cfg, w, init, id)
  }

  // ---- what every step keeps

  ghost predicate TicketOk(cfg: Handlers.Config, db: Schema.Db, t: Ticket) {
    t.sig.Some? ==> t.digest.Some? && Handlers.SignedBy(cfg, db.keys, t.app, t.digest.value, t.sig.value)
  }

  ghost predicate Sound(cfg: Handlers.Config, w: World) {
    D.Good(w.deploy) && forall t :: t in w.tickets ==> TicketOk(cfg, w.db, t)
  }

  /** A signed deployment carries a digest; its own, verified, until a PATCH has given it another one. */
  ghost predicate RowSound(cfg: Handlers.Config, w: World, id: nat, patch: Option<string>) {
    var rows := w.deploy.store.rows;
    && (id >= w.deploy.store.nextId ==> patch.None?)
    && (id in rows && rows[id].signature.Some? ==>
          && rows[id].digest.Some?
          && if patch.Some? then rows[id].digest == patch
             else Handlers.SignedBy(cfg, w.db.keys, rows[id].app, rows[id].digest.value, rows[id].signature.value))
  }

  /** No request takes a key away. */
  lemma KeysGrow(cfg: Handlers.Config, db: Schema.Db, req: Handlers.Request, env: Handlers.Env)
    ensures var keys' := Handlers.Handle(cfg, db, req, env).db.keys;
            forall k :: k in db.keys && db.keys[k] ==> k in keys' && keys'[k]
  {
    hide IsHex, Blank, Handlers.StorageKey, Handlers.SignatureOk, Schema.IdemTaken, Handlers.RemoteCheck,
         Handlers.QuotaIfLinked, Schema.Obsolete, Schema.IdsOf;
  }

  lemma SignedStays(cfg: Handlers.Config, keys: map<(nat, string), bool>, keys': map<(nat, string), bool>,
                    a: nat, d: string, sig: string)
    requires forall k :: k in keys && keys[k] ==> k in keys' && keys'[k]
    requires Handlers.SignedBy(cfg, keys, a, d, sig)
    ensures Handlers.SignedBy(cfg, keys', a, d, sig)
  {
    var k :| k in keys && k.0 == a && keys[k] && cfg.verifies(k.1, d, sig);
    assert k in keys' && keys'[k];
  }

  lemma RegistryKeeps(cfg: Handlers.Config, w: World, call: Handlers.Call, id: nat, patch: Option<string>)
    requires Sound(cfg, w) && RowSound(cfg, w, id, patch)
    ensures var w' := Apply(cfg, w, Registry(call)); Sound(cfg, w') && RowSound(cfg, w', id, patch)
  {
    var keys, keys' := w.db.keys, Handlers.Handle(cfg, w.db, call.req, call.env).db.keys;
    KeysGrow(cfg, w.db, call.req, call.env);
    hide Handlers.Handle, D.Good, Handlers.SignedBy;
    forall a, d, sig | Handlers.SignedBy(cfg, keys, a, d, sig) ensures Handlers.SignedBy(cfg, keys', a, d, sig) {
      SignedStays(cfg, keys, keys', a, d, sig);
    }
  }

  lemma VerifyKeeps(cfg: Handlers.Config, w: World, step: Step, id: nat, patch: Option<string>)
    requires Sound(cfg, w) && RowSound(cfg, w, id, patch) && step.Verify?
    ensures var w' := Apply(cfg, w, step); Sound(cfg, w') && RowSound(cfg, w', id, patch)
  {
    hide D.Good, Handlers.SignedBy, Paths.ResolveDigest, D.ActiveKeys, IsHex;
  }

  /** The steps of the deployment tables. Only a creation adds a row, and only a PATCH changes a digest. */
  lemma DeployKeeps(cfg: Handlers.Config, w: World, step: Step, id: nat, patch: Option<string>)
    requires Sound(cfg, w) && RowSound(cfg, w, id, patch) && Enabled(w, step) && Part(step).Some?
    ensures var w' := Apply(cfg, w, step);
            var patch' :=
              if step.Patch? && step.id == id && id in w.deploy.store.rows then Some(step.digest) else patch;
            Sound(cfg, w') && RowSound(cfg, w', id, patch')
  {
    D.StepGood(w.deploy, Part(step).value);
    assert D.RowsOk(w.deploy.store);
    hide D.Good, Handlers.SignedBy, IsHex, D.Superseded;
  }

  lemma {:induction false} RunKeeps(cfg: Handlers.Config, steps: seq<Step>, id: nat)
    requires Possible(cfg, NOTHING, steps)
    ensures var w := After(cfg, NOTHING, steps);
            Sound(cfg, w) && RowSound(cfg, w, id, LastPatch(cfg, NOTHING, steps, id))
    decreases |steps|
  {
    hide Sound, RowSound, Apply, Enabled;
    if steps == [] {
      NothingSound(cfg, id);
    } else {
      var init, last := steps[..|steps| - 1], steps[|steps| - 1];
      RunKeeps(cfg, init, id);
      var w, patch := After(cfg, NOTHING, init), LastPatch(cfg, NOTHING, init, id);
      match last
      case Registry(call) => RegistryKeeps(cfg, w, call, id, patch);
      case Verify(_, _, _) => VerifyKeeps(cfg, w, last, id, patch);
      case _ => DeployKeeps(cfg, w, last, id, patch);
    }
  }

  lemma NothingSound(cfg: Handlers.Config, id: nat)
    ensures Sound(cfg, NOTHING) && RowSound(cfg, NOTHING, id, None)
  {
    D.EmptyGood();
    hide D.Good;
  }

  // ---- the theorem

  /** An active key of the deployment's application verifies its signature over its current digest. */
  ghost predicate CarriesSigned(cfg: Handlers.Config, db: Schema.Db, row: D.Deployment) {
    && row.signature.Some? && row.digest.Some?
    && Handlers.SignedBy(cfg, db.keys, row.app, row.digest.value, row.signature.value)
  }

  /** Over every run of registry and deployments together: a deployment made with a signature carries a
      digest that an active key of its application signed, if and only if no PATCH has changed the digest or
      the last one has set a digest that the signature fits. */
  lemma SignedUnlessPatched(cfg: Handlers.Config, steps: seq<Step>, id: nat)
    requires Possible(cfg, NOTHING, steps)
    requires id in RowsAfter(cfg, NOTHING, steps) && RowsAfter(cfg, NOTHING, steps)[id].signature.Some?
    ensures var row, db := RowsAfter(cfg, NOTHING, steps)[id], After(cfg, NOTHING, steps).db;
            var patch := LastPatch(cfg, NOTHING, steps, id);
            && (patch.Some? ==> row.digest == patch)
            && (CarriesSigned(cfg, db, row) <==>
                  patch.None? || Handlers.SignedBy(cfg, db.keys, row.app, patch.value, row.signature.value))
  {
    RunKeeps(cfg, steps, id);
    hide Possible, After, LastPatch, Sound, Handlers.SignedBy;
  }

  /** Such a run is a run of the deployment tables as far as they are concerned, so that their counters and
      event log agree as module Deployments has it. */
  lemma DeploymentsGood(cfg: Handlers.Config, steps: seq<Step>)
    requires Possible(cfg, NOTHING, steps)
    ensures D.Good(After(cfg, NOTHING, steps).deploy)
  {
    RunKeeps(cfg, steps, 0);
    hide D.Good, Possible, After, LastPatch;
  }

  /** The two halves of POST /deployments, with nothing in between, are the handler. */
  lemma PostAlone(cfg: Handlers.Config, w: World, app: string, url: string, sig: Option<string>, now: int)
    ensures var ticket := Check(cfg, w.db, app, url, sig);
            var (store, error) := D.CreateDeployment(cfg, w.db, w.deploy.store, app, url, sig, now);
            && (error.None? <==> ticket.Some?)
            && (error.None? ==>
                  var w' := Apply(cfg, w, Verify(app, url, sig));
                  && Enabled(w', Insert(ticket.value, now))
                  && Apply(cfg, w', Insert(ticket.value, now)).deploy.store == store)
  {
    hide Paths.ResolveDigest, Handlers.SignedBy, IsHex, D.ActiveKeys;
  }

  // ---- a PATCH that leaves a signature standing over another digest

  lemma Extend(cfg: Handlers.Config, w: World, steps: seq<Step>, step: Step)
    requires Possible(cfg, w, steps) && Enabled(After(cfg, w, steps), step)
    ensures Possible(cfg, w, steps + [step])
    ensures After(cfg, w, steps + [step]) == Apply(cfg, After(cfg, w, steps), step)
  {
    hide Apply, Enabled;
    assert (steps + [step])[..|steps|] == steps;
  }

  function Requests(calls: seq<Handlers.Call>): (steps: seq<Step>)
    ensures |steps| == |calls|
  {
    seq(|calls|, i requires 0 <= i < |calls| => Registry(calls[i]))
  }

  lemma {:induction false} RequestsRun(cfg: Handlers.Config, calls: seq<Handlers.Call>)
    ensures Possible(cfg, NOTHING, Requests(calls))
    ensures After(cfg, NOTHING, Requests(calls)) == NOTHING.(db := Handlers.Run(cfg, Schema.EMPTY_DB, calls))
    decreases |calls|
  {
    hide Handlers.Handle;
    if calls != [] {
      var init, last := calls[..|calls| - 1], calls[|calls| - 1];
      RequestsRun(cfg, init);
      assert Requests(calls) == Requests(init) + [Registry(last)];
      Extend(cfg, NOTHING, Requests(init), Registry(last));
    }
  }

  /** One stored artifact, and one registered key. */
  function Signer(name: string, key: string): seq<Handlers.Call> {
    Scenarios.Filled(name, 1, 0, 1) + [Handlers.Call(Handlers.AddKey(name, key), Scenarios.Calm(0))]
  }

  lemma SignerTables(cfg: Handlers.Config, name: string, key: string)
    requires !Blank(name) && IsHex(key, 64)
    ensures var db := Handlers.Run(cfg, Schema.EMPTY_DB, Signer(name, key)); var d := Scenarios.Digest(0);
            && db.apps == map[name := 0] && d in db.rows && db.rows[d].status == Schema.Stored
            && (0, key) in db.keys && db.keys[(0, key)]
  {
    hide Handlers.Run, Handlers.Handle, Scenarios.Filled, Scenarios.Digest, Scenarios.Prepared, IsHex, Blank;
    var calls := Scenarios.Filled(name, 1, 0, 1);
    var db := Handlers.Run(cfg, Schema.EMPTY_DB, calls);
    Scenarios.FilledRun(cfg, name, 1, 0, 1);
    Scenarios.RunAppend(cfg, Schema.EMPTY_DB, calls, Handlers.Call(Handlers.AddKey(name, key), Scenarios.Calm(0)));
    Scenarios.RowAt(db, name, 1, 0, 1, 0);
    KeyAdded(cfg, db, name, key);
  }

  lemma KeyAdded(cfg: Handlers.Config, db: Schema.Db, name: string, key: string)
    requires name in db.apps && IsHex(key, 64)
    ensures Handlers.Handle(cfg, db, Handlers.AddKey(name, key), Scenarios.Calm(0)).db ==
            db.(keys := db.keys[(db.apps[name], key) := true])
  {
    hide IsHex;
  }

  /** A digest in lower case is found in the URL that consists of it. */
  lemma DigestResolves(rows: Schema.Rows, d: string)
    requires IsHex(d, 64) && Paths.Lower(d) == d && d in rows && rows[d].status == Schema.Stored
    ensures Paths.ResolveDigest(rows, d) == Some(d)
  {
    Paths.HexFree(d, 64);
    Paths.SplitFree(d, Paths.URL_DELIMS);
  }

  lemma {:induction false} BitsLower(i: nat, n: nat)
    ensures Paths.Lower(Scenarios.Bits(i, n)) == Scenarios.Bits(i, n)
    decreases n
  {
    if n > 0 {
      BitsLower(i / 2, n - 1);
      var init := Scenarios.Bits(i / 2, n - 1);
      forall k | 0 <= k < n - 1 && |init| == n - 1 ensures Paths.LowerChar(init[k]) == init[k] {
        assert Paths.Lower(init)[k] == init[k];
      }
    }
  }

  function PatchRun(calls: seq<Handlers.Call>, name: string, d: string, sig: string, patch: string): seq<Step> {
    Requests(calls) + [Verify(name, d, Some(sig))] + [Insert(Ticket(0, d, Some(d), Some(sig)), 0)] + [Patch(0, patch)]
  }

  lemma PatchFrom(cfg: Handlers.Config, calls: seq<Handlers.Call>, name: string, d: string, sig: string, patch: string)
    requires IsHex(patch, 64)
    requires Check(cfg, Handlers.Run(cfg, Schema.EMPTY_DB, calls), name, d, Some(sig)) ==
             Some(Ticket(0, d, Some(d), Some(sig)))
    ensures var steps := PatchRun(calls, name, d, sig, patch);
            && Possible(cfg, NOTHING, steps)
            && After(cfg, NOTHING, steps).db == Handlers.Run(cfg, Schema.EMPTY_DB, calls)
            && 0 in RowsAfter(cfg, NOTHING, steps)
            && var row := RowsAfter(cfg, NOTHING, steps)[0];
               row.app == 0 && row.signature == Some(sig) && row.digest == Some(patch)
  {
    hide Handlers.Run, Check, IsHex, Possible, After;
    var ticket := Ticket(0, d, Some(d), Some(sig));
    var one := Requests(calls) + [Verify(name, d, Some(sig))];
    RequestsRun(cfg, calls);
    Extend(cfg, NOTHING, Requests(calls), Verify(name, d, Some(sig)));
    Extend(cfg, NOTHING, one, Insert(ticket, 0));
    Extend(cfg, NOTHING, one + [Insert(ticket, 0)], Patch(0, patch));
  }

  /** An upload, a key, a deployment with a valid signature, and a PATCH to a digest that nobody signed: the
      deployment keeps its signature. */
  lemma PatchedAway(cfg: Handlers.Config, name: string, key: string, sig: string)
    requires !Blank(name) && IsHex(key, 64) && IsHex(sig, 128)
    requires cfg.verifies(key, Scenarios.Digest(0), sig)
    requires forall k :: !cfg.verifies(k, Scenarios.Digest(1), sig)
    ensures var steps := PatchRun(Signer(name, key), name, Scenarios.Digest(0), sig, Scenarios.Digest(1));
            && Possible(cfg, NOTHING, steps) && 0 in RowsAfter(cfg, NOTHING, steps)
            && var row := RowsAfter(cfg, NOTHING, steps)[0];
               && row.signature == Some(sig) && row.digest == Some(Scenarios.Digest(1))
               && !CarriesSigned(cfg, After(cfg, NOTHING, steps).db, row)
  {
    DigestZero();
    Scenarios.DigestHex(1);
    hide Handlers.Run, Signer, Scenarios.Digest, Possible, After, Check, IsHex, Blank, PatchRun, Paths.ResolveDigest;
    var d, db := Scenarios.Digest(0), Handlers.Run(cfg, Schema.EMPTY_DB, Signer(name, key));
    SignerTables(cfg, name, key);
    DigestResolves(db.rows, d);
    TicketGiven(cfg, db, name, key, d, sig);
    PatchFrom(cfg, Signer(name, key), name, d, sig, Scenarios.Digest(1));
  }

  lemma DigestZero()
    ensures IsHex(Scenarios.Digest(0), 64) && Paths.Lower(Scenarios.Digest(0)) == Scenarios.Digest(0)
  {
    Scenarios.DigestHex(0);
    BitsLower(0, 64);
    hide Scenarios.Bits, Paths.Lower, IsHex;
  }

  lemma TicketGiven(cfg: Handlers.Config, db: Schema.Db, name: string, key: string, d: string, sig: string)
    requires db.apps == map[name := 0] && (0, key) in db.keys && db.keys[(0, key)]
    requires Paths.ResolveDigest(db.rows, d) == Some(d) && IsHex(sig, 128) && cfg.verifies(key, d, sig)
    ensures Check(cfg, db, name, d, Some(sig)) == Some(Ticket(0, d, Some(d), Some(sig)))
  {
    hide Paths.ResolveDigest, IsHex;
    assert Handlers.SignedBy(cfg, db.keys, 0, d, sig);
    assert key in D.ActiveKeys(db.keys, 0);
  }
}
