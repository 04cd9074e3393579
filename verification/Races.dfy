/** Building interleavings: reachability, and requests that run up to their write and stop there. */
module Races {
  import opened Prelude
  import opened Schema
  import opened Handlers
  import opened Statements
  import opened Interleaving
  import opened Scenarios

  /** Some run with such traffic leads from `s` to `s'`. */
  ghost predicate Reach(cfg: Config, k: nat, traffic: Traffic, s: System, s': System) {
    exists states :: Behavior(cfg, k, traffic, states) && states[0] == s && states[|states| - 1] == s'
  }

  lemma ReachSelf(cfg: Config, k: nat, traffic: Traffic, s: System)
    ensures Reach(cfg, k, traffic, s, s)
  {
    assert Behavior(cfg, k, traffic, [s]);
  }

  lemma ReachStep(cfg: Config, k: nat, traffic: Traffic, s: System, s': System, step: Step)
    requires Reach(cfg, k, traffic, s, s') && Enabled(cfg, k, s', step) && Allowed(cfg, traffic, s', step)
    ensures Reach(cfg, k, traffic, s, Apply(cfg, s', step)) && Next(cfg, k, traffic, s', Apply(cfg, s', step))
  {
    hide Enabled, Apply, Allowed;
    var states :| Behavior(cfg, k, traffic, states) && states[0] == s && states[|states| - 1] == s';
    var longer := states + [Apply(cfg, s', step)];
    forall i | 0 <= i < |longer| - 1 ensures Next(cfg, k, traffic, longer[i], longer[i + 1]) {
      if i < |states| - 1 {
        assert Next(cfg, k, traffic, states[i], states[i + 1]);
        assert longer[i] == states[i] && longer[i + 1] == states[i + 1];
      } else {
        assert longer[i] == s' && longer[i + 1] == Apply(cfg, s', step);
      }
    }
    assert Behavior(cfg, k, traffic, longer);
    assert longer[0] == s && longer[|longer| - 1] == Apply(cfg, s', step);
  }

  lemma StatementApply(cfg: Config, s: System, c: nat, env: Env, f': Frame)
    requires c in s.frames && Advance(cfg, s.db, s.frames[c], env) == (s.db, f')
    ensures Apply(cfg, s, Statement(c, env)) == s.(frames := s.frames[c := f'])
  {
    hide Advance;
  }

  /** Connection `c` moves from frame `f` to `f'`; nothing else changes. */
  lemma PathStep(cfg: Config, k: nat, traffic: Traffic, s: System, t: System, c: nat, env: Env, f: Frame, f': Frame)
    requires Reach(cfg, k, traffic, s, t.(frames := t.frames[c := f]))
    requires Advance(cfg, t.db, f, env) == (t.db, f') && SumFits(cfg, t.db, f)
    ensures Reach(cfg, k, traffic, s, t.(frames := t.frames[c := f']))
  {
    var u := t.(frames := t.frames[c := f]);
    StatementApply(cfg, u, c, env, f');
    assert u.frames[c := f'] == t.frames[c := f'];
    hide Reach, Advance, Apply, SumFits;
    ReachStep(cfg, k, traffic, s, u, Statement(c, env));
  }

  // ---- a completion of a presigned row, up to its write

  function JobFor(name: string, digest: string, size: int): Job {
    Single(UploadOf(name, digest, size))
  }

  /** The count that the request read, if it had to read one. */
  function CountSeen(cfg: Config, db: Db, a: nat): int {
    if cfg.MaxCount().Some? || cfg.MaxBytes().Some? then StoredCount(db.rows, a) else 0
  }

  /** A request for the presigned row, past all checks and about to write. */
  function Armed(job: Job, a: nat, row: Row, count: int): Frame {
    Start(job).(pc := Write, app := Some(a), id := Some(row.id), storageKey := row.storageKey, count := count)
  }

  /** A pending row of a registered application, and an upload that the quota admits. */
  ghost predicate Ready(cfg: Config, db: Db, name: string, a: nat, digest: string, size: int) {
    && name in db.apps && db.apps[name] == a
    && digest in db.rows && db.rows[digest].status == Pending && db.rows[digest].app == Some(a)
    && db.rows[digest].idem.None? && Admissible(cfg, JobFor(name, digest, size))
    && Quota(cfg, db.rows, a, size).None?
    && (cfg.MaxBytes().Some? ==> StoredBytes(db.rows, a) + size <= I64_MAX)
  }

  /** The statements before the quota. */
  lemma EarlySteps(cfg: Config, db: Db, name: string, a: nat, digest: string, size: int, now: int)
    requires Ready(cfg, db, name, a, digest, size)
    ensures var f0 := Start(JobFor(name, digest, size)); var row := db.rows[digest];
            var f1 := f0.(app := Some(a), pc := FindRow);
            var f2 := f1.(id := Some(row.id), storageKey := row.storageKey, pc := Link);
            && Advance(cfg, db, f0, Calm(now)) == (db, f1)
            && Advance(cfg, db, f1, Calm(now)) == (db, f2)
            && Advance(cfg, db, f2, Calm(now)) == (db, f2.(pc := Inspect))
            && Advance(cfg, db, f2.(pc := Inspect), Calm(now)) ==
               (db, f2.(pc := if cfg.MaxCount().Some? || cfg.MaxBytes().Some? then CountRows else Write))
  {
    hide Admissible, Quota, StoredBytes;
    assert db.rows[digest := db.rows[digest]] == db.rows;
  }

  /** The two quota statements. */
  lemma QuotaSteps(cfg: Config, db: Db, a: nat, f: Frame, now: int)
    requires f.app == Some(a) && Quota(cfg, db.rows, a, f.job.up.size).None?
    ensures var n := StoredCount(db.rows, a);
            && Advance(cfg, db, f.(pc := CountRows), Calm(now)) == (db, f.(count := n, pc := SumBytes))
            && Advance(cfg, db, f.(count := n, pc := SumBytes), Calm(now)) == (db, f.(count := n, pc := Write))
  {
    hide StoredCount, StoredBytes, Wrap64;
  }

  lemma Begins(cfg: Config, k: nat, traffic: Traffic, s: System, t: System, c: nat, name: string, a: nat,
               digest: string, size: int)
    requires Reach(cfg, k, traffic, s, t) && Free(k, t, c) && Ready(cfg, t.db, name, a, digest, size)
    ensures Reach(cfg, k, traffic, s, t.(frames := t.frames[c := Start(JobFor(name, digest, size))]))
  {
    hide Admissible, Quota, Reach;
    ReachStep(cfg, k, traffic, s, t, Begin(c, JobFor(name, digest, size)));
  }

  lemma ArmOne(cfg: Config, k: nat, traffic: Traffic, s: System, t: System, c: nat, name: string, a: nat,
               digest: string, size: int)
    requires Reach(cfg, k, traffic, s, t) && Free(k, t, c) && Ready(cfg, t.db, name, a, digest, size)
    ensures var f := Armed(JobFor(name, digest, size), a, t.db.rows[digest], CountSeen(cfg, t.db, a));
            Reach(cfg, k, traffic, s, t.(frames := t.frames[c := f]))
  {
    var f0, row, env := Start(JobFor(name, digest, size)), t.db.rows[digest], Calm(0);
    Begins(cfg, k, traffic, s, t, c, name, a, digest, size);
    EarlySteps(cfg, t.db, name, a, digest, size, 0);
    var f1 := f0.(app := Some(a), pc := FindRow);
    var f2 := f1.(id := Some(row.id), storageKey := row.storageKey, pc := Link);
    QuotaSteps(cfg, t.db, a, f2, 0);
    hide Reach, Advance, Quota, Admissible, StoredCount, StoredBytes;
    PathStep(cfg, k, traffic, s, t, c, env, f0, f1);
    PathStep(cfg, k, traffic, s, t, c, env, f1, f2);
    PathStep(cfg, k, traffic, s, t, c, env, f2, f2.(pc := Inspect));
    if cfg.MaxCount().Some? || cfg.MaxBytes().Some? {
      var n := StoredCount(t.db.rows, a);
      PathStep(cfg, k, traffic, s, t, c, env, f2.(pc := Inspect), f2.(pc := CountRows));
      PathStep(cfg, k, traffic, s, t, c, env, f2.(pc := CountRows), f2.(count := n, pc := SumBytes));
      PathStep(cfg, k, traffic, s, t, c, env, f2.(count := n, pc := SumBytes), f2.(count := n, pc := Write));
    } else {
      PathStep(cfg, k, traffic, s, t, c, env, f2.(pc := Inspect), f2.(pc := Write));
    }
  }

  /** What the write makes of a row. */
  function Written(row: Row, a: nat, up: Upload, now: int): Row {
    Finalized(row, Some(a), up, Some(StorageKey(up.app, up.digest)), now)
  }

  lemma ArmedWrites(cfg: Config, db: Db, f: Frame, a: nat, now: int)
    requires f.pc == Write && f.job.Single? && f.app == Some(a) && StillThere(db, f)
    requires db.rows[f.job.up.digest].idem.None? && !IdemTaken(db.rows, f.job.up.digest, f.job.up.idem)
    ensures var d := f.job.up.digest;
            var reply := Completed(f.id.value, false, false, StorageKey(f.job.up.app, d), f.job.up.idem);
            Advance(cfg, db, f, Calm(now)) ==
            (db.(rows := db.rows[d := Written(db.rows[d], a, f.job.up, now)]),
             f.(pc := LogStored, reply := Some(reply)))
  {
    hide StorageKey, IdemTaken;
  }

  /** The armed request on connection `c` writes, and has its event still to log. */
  lemma WriteOne(cfg: Config, k: nat, traffic: Traffic, s: System, t: System, c: nat, a: nat, now: int)
    returns (u: System)
    requires Reach(cfg, k, traffic, s, t) && c in t.frames && StillThere(t.db, t.frames[c])
    requires var f := t.frames[c];
             && f.pc == Write && f.job.Single? && f.app == Some(a) && t.db.rows[f.job.up.digest].idem.None?
             && !IdemTaken(t.db.rows, f.job.up.digest, f.job.up.idem)
    ensures Reach(cfg, k, traffic, s, u) && u == Apply(cfg, t, Statement(c, Calm(now)))
    ensures Next(cfg, k, traffic, t, u)
    ensures var d := t.frames[c].job.up.digest;
            u.db == t.db.(rows := t.db.rows[d := Written(t.db.rows[d], a, t.frames[c].job.up, now)])
    ensures c in u.frames && u.frames == t.frames[c := u.frames[c]] && u.inits == t.inits
    ensures u.frames[c].pc == LogStored && u.frames[c].id == t.frames[c].id
  {
    ArmedWrites(cfg, t.db, t.frames[c], a, now);
    hide Reach, Advance, Written;
    u := Apply(cfg, t, Statement(c, Calm(now)));
    ReachStep(cfg, k, traffic, s, t, Statement(c, Calm(now)));
  }
}
