/** From a successful upload to a deployment: what the client's reported storage key is good for. */
module Delivery {
  import opened Prelude
  import opened Schema
  import opened Handlers
  import opened Invariant
  import opened QuotaRuns
  import opened Retry
  import Paths
  import Deployments

  /** After any session in which some attempt reported success, deploying the reported storage key with a
      signature (or none) creates a pending deployment that carries the uploaded digest, unless the
      signature is malformed or no active key of the application verifies it over that digest; a
      refusal leaves the deployment tables alone. The application's name must not itself contain a
      digest, and the digest must be in lower case, as the client computes it. */
  lemma UploadedCanBeDeployed(cfg: Config, cl: Client, db: Db, rounds: seq<Round>, i: nat, sig: Option<string>,
                              store: Deployments.Store, now: int)
    requires Inv(cfg, db) && cl.digest !in db.rows && RetentionSlack(cfg) && QuietRounds(cl, rounds)
    requires i < |rounds| && ResultAt(cfg, db, cl, rounds, i).Ok?
    requires cl.app in db.apps && IsHex(cl.digest, 64)
    requires Paths.ExtractDigest(cl.app).None? && Paths.Lower(cl.digest) == cl.digest
    ensures var final := RunSession(cfg, db, cl, rounds); var a := db.apps[cl.app];
            var (store', error) := Deployments.CreateDeployment(
              cfg, final, store, cl.app, ResultAt(cfg, db, cl, rounds, i).storageKey, sig, now);
            && (error.None? <==>
                sig.None? || (IsHex(sig.value, 128) && SignedBy(cfg, final.keys, a, cl.digest, sig.value)))
            && (error.Some? ==> store' == store)
            && (error.None? ==>
                  && store.nextId in store'.rows
                  && var made := store'.rows[store.nextId];
                     made.app == a && made.digest == Some(cl.digest) && made.status == Deployments.Pending
                     && made.signature == sig)
  {
    var app := AppNamed(db.apps, cl.app);
    SessionProgress(cfg, cl, app, db, rounds);
    var final := RunSession(cfg, db, cl, rounds);
    Paths.KeyResolves(final.rows, cl.app, cl.digest);
    assert Paths.ResolveDigest(final.rows, cl.Key()) == Some(cl.digest);
    if sig.Some? {
      SignerIsActive(cfg, final, db.apps[cl.app], cl.digest, sig.value);
    }
    hide RunSession, RunAttempt, Inv, Paths.ResolveDigest, StorageKey, SignedBy, IsHex, Deployments.ActiveKeys;
  }

  /** A signature that verifies leaves no room for "no active public keys". */
  lemma SignerIsActive(cfg: Config, db: Db, a: nat, digest: string, sig: string)
    ensures SignedBy(cfg, db.keys, a, digest, sig) ==> Deployments.ActiveKeys(db.keys, a) != {}
  {
    if SignedBy(cfg, db.keys, a, digest, sig) {
      var k :| k in db.keys && k.0 == a && db.keys[k] && cfg.verifies(k.1, digest, sig);
      assert k.1 in Deployments.ActiveKeys(db.keys, a);
    }
  }
}
