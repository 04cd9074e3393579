/** Retention when requests overlap: between a request's write and its own clean-up there may be surplus
    rows, but never more than one for each such request, and none when all are done. */
module Surplus {
  import opened Prelude
  import opened Schema
  import opened Handlers
  import opened Invariant
  import opened Retention
  import opened QuotaRuns
  import opened Statements
  import opened Interleaving
  import opened Tables
  import opened Sums

  // ---- requests that have written and not cleaned up

  predicate Owes(f: Frame, a: nat) {
    f.app == Some(a) && f.pc in {LogStored, PickObsolete, LogDelete, DeleteObsolete}
  }

  predicate HasPicked(f: Frame, a: nat) {
    f.app == Some(a) && f.pc in {LogDelete, DeleteObsolete}
  }

  function Owing(frames: map<nat, Frame>, a: nat): set<nat> {
    set c | c in frames && Owes(frames[c], a)
  }

  function Picking(frames: map<nat, Frame>, a: nat): set<nat> {
    set c | c in frames && HasPicked(frames[c], a)
  }

  /** The stored rows of `a` that none of the requests in `cs` is about to delete. */
  function Spared(s: System, a: nat, cs: set<nat>): set<string> {
    set d | d in StoredOf(s.db.rows, a)
            && forall c :: c in cs && c in s.frames ==> s.db.rows[d].id !in s.frames[c].obsolete
  }

  /** When the requests in `cs` have deleted what they picked, every other one that owes a clean-up accounts
      for one row beyond the limit. */
  predicate Accounted(cfg: Config, s: System, a: nat, cs: set<nat>) {
    cs <= Picking(s.frames, a) ==> |Spared(s, a, cs)| <= cfg.Retain() + |Owing(s.frames, a) - cs|
  }

  ghost predicate Balanced(cfg: Config, s: System, a: nat) {
    forall cs: set<nat> :: Accounted(cfg, s, a, cs)
  }

  // ---- steps that store nothing for `a` and pick nothing

  /** No row joins the stored rows of `a`. */
  ghost predicate Shrinks(rows: Rows, rows': Rows, a: nat) {
    forall d :: d in StoredOf(rows', a) ==> d in StoredOf(rows, a) && rows'[d].id == rows[d].id
  }

  lemma NothingJoins(cfg: Config, s: System, s': System, a: nat)
    requires Balanced(cfg, s, a) && Shrinks(s.db.rows, s'.db.rows, a)
    requires Owing(s'.frames, a) == Owing(s.frames, a) && Picking(s'.frames, a) == Picking(s.frames, a)
    requires forall c :: c in Picking(s.frames, a) ==> s'.frames[c].obsolete == s.frames[c].obsolete
    ensures Balanced(cfg, s', a)
  {
    forall cs: set<nat> ensures Accounted(cfg, s', a, cs) {
      assert Accounted(cfg, s, a, cs);
      if cs <= Picking(s'.frames, a) { SubsetSize(Spared(s', a, cs), Spared(s, a, cs)); }
    }
  }

  // ---- the four steps that matter

  /** The write adds one row, and one request that owes a clean-up. */
  lemma WriteJoins(cfg: Config, s: System, s': System, a: nat, c: nat, d: string)
    requires Balanced(cfg, s, a) && c in s.frames && c in s'.frames && s'.frames == s.frames[c := s'.frames[c]]
    requires !Owes(s.frames[c], a) && Owes(s'.frames[c], a) && !HasPicked(s'.frames[c], a)
    requires forall e :: e in StoredOf(s'.db.rows, a) && e != d ==>
               e in StoredOf(s.db.rows, a) && s'.db.rows[e].id == s.db.rows[e].id
    ensures Balanced(cfg, s', a)
  {
    assert Owing(s'.frames, a) == Owing(s.frames, a) + {c} && Picking(s'.frames, a) == Picking(s.frames, a);
    forall cs: set<nat> ensures Accounted(cfg, s', a, cs) {
      assert Accounted(cfg, s, a, cs);
      if cs <= Picking(s'.frames, a) {
        SubsetSize(Spared(s', a, cs) - {d}, Spared(s, a, cs));
        assert c !in cs && Owing(s'.frames, a) - cs == (Owing(s.frames, a) - cs) + {c};
      }
    }
  }

  /** What is left of the stored rows without those that the query returns. */
  lemma PickLeaves(cfg: Config, s: System, a: nat, cs: set<nat>, tie: TieBreak)
    requires DistinctIds(s.db.rows)
    requires var ids := IdsOf(s.db.rows, Obsolete(s.db.rows, a, cfg.Retain(), tie));
             ids == {} || exists c :: c in cs && c in s.frames && s.frames[c].obsolete == ids
    ensures |Spared(s, a, cs)| <= cfg.Retain()
  {
    var rows, gone := s.db.rows, Obsolete(s.db.rows, a, cfg.Retain(), tie);
    ObsoleteIsSurplus(rows, a, cfg.Retain(), tie);
    var kept := StoredOf(rows, a) - gone;
    assert |kept| <= cfg.Retain();
    assert forall d :: d in gone ==> rows[d].id in IdsOf(rows, gone);
    hide Obsolete, DistinctIds, SurplusOf;
    SubsetSize(Spared(s, a, cs), kept);
  }

  /** The pick leaves at most the limit, whatever the others do. */
  lemma PickSpares(cfg: Config, s: System, s': System, a: nat, c: nat, tie: TieBreak)
    requires Balanced(cfg, s, a) && DistinctIds(s.db.rows) && s'.db == s.db
    requires c in s.frames && c in s'.frames && s'.frames == s.frames[c := s'.frames[c]]
    requires Owes(s.frames[c], a) && !HasPicked(s.frames[c], a)
    requires var ids := IdsOf(s.db.rows, Obsolete(s.db.rows, a, cfg.Retain(), tie));
             if ids == {} then !Owes(s'.frames[c], a)
             else HasPicked(s'.frames[c], a) && s'.frames[c].obsolete == ids
    ensures Balanced(cfg, s', a)
  {
    var ids := IdsOf(s.db.rows, Obsolete(s.db.rows, a, cfg.Retain(), tie));
    hide DistinctIds, Obsolete, IdsOf;
    forall cs: set<nat> ensures Accounted(cfg, s', a, cs) {
      assert Accounted(cfg, s, a, cs);
      if ids == {} || c in cs {
        PickLeaves(cfg, s', a, cs, tie);
      } else if cs <= Picking(s'.frames, a) {
        OthersPicked(s, s', a, c, cs);
      }
    }
  }

  /** For the requests that had picked before, nothing changes. */
  lemma OthersPicked(s: System, s': System, a: nat, c: nat, cs: set<nat>)
    requires s'.db == s.db && c in s.frames && c in s'.frames && s'.frames == s.frames[c := s'.frames[c]]
    requires Owes(s.frames[c], a) && Owes(s'.frames[c], a) && c !in cs && cs <= Picking(s'.frames, a)
    ensures cs <= Picking(s.frames, a) && Owing(s'.frames, a) == Owing(s.frames, a)
    ensures Spared(s', a, cs) == Spared(s, a, cs)
  {
  }

  /** The delete takes away what its request picked. */
  lemma DeleteSettles(cfg: Config, s: System, s': System, a: nat, c: nat)
    requires Balanced(cfg, s, a) && c in s.frames && c in s'.frames && s'.frames == s.frames[c := s'.frames[c]]
    requires HasPicked(s.frames[c], a) && !Owes(s'.frames[c], a) && s'.db == DeleteIds(s.db, s.frames[c].obsolete)
    ensures Balanced(cfg, s', a)
  {
    forall cs: set<nat> ensures Accounted(cfg, s', a, cs) {
      assert Accounted(cfg, s, a, cs + {c});
      if cs <= Picking(s'.frames, a) {
        assert cs + {c} <= Picking(s.frames, a);
        SubsetSize(Spared(s', a, cs), Spared(s, a, cs + {c}));
        assert Owing(s'.frames, a) - cs == Owing(s.frames, a) - (cs + {c});
      }
    }
  }

  // ---- every step

  /** The write puts at most the row of its request's digest into its request's application. */
  lemma WriteShape(cfg: Config, db: Db, f: Frame, env: Env, a: nat)
    requires f.pc == Write
    ensures var (db', f') := Advance(cfg, db, f, env); var d := f.job.up.digest;
            && (f.app != Some(a) ==> Shrinks(db.rows, db'.rows, a))
            && (forall e :: e in StoredOf(db'.rows, a) && e != d ==>
                  e in StoredOf(db.rows, a) && db'.rows[e].id == db.rows[e].id)
            && f'.app == f.app && (f'.pc == LogStored || (f'.pc == Done && db' == db))
  {
    StatementEffect(cfg, db, f, env);
    FrameEffect(cfg, db, f, env);
    WriteApp(cfg, db, f, env);
    hide Advance, StorageKey, IdemTaken;
  }

  lemma WriteApp(cfg: Config, db: Db, f: Frame, env: Env)
    requires f.pc == Write
    ensures Advance(cfg, db, f, env).1.app == f.app
  {
    hide StorageKey, IdemTaken, OrElse, Finalized, InsertRow;
    assert Advance(cfg, db, f, env) == WriteStep(cfg, db, f, env);
  }

  /** Before the write nothing becomes stored, if stored rows have an application, and nobody owes. */
  lemma EarlyStatement(cfg: Config, db: Db, f: Frame, env: Env, a: nat)
    requires Linked(db.rows) && (f.pc == Done || (BeforeWrite(f) && f.pc != Write))
    ensures var (db', f') := Advance(cfg, db, f, env); Shrinks(db.rows, db'.rows, a) && !Owes(f', a)
  {
    hide SignatureOk, IdemTaken, RemoteCheck, StorageKey, OrElse, StoredCount, StoredBytes, Wrap64, Obsolete, IdsOf,
         LogEvent, DeleteIds, Finalized, InsertRow;
  }

  lemma LateStatement(cfg: Config, db: Db, f: Frame, env: Env)
    requires f.pc in {LogStored, PickObsolete, LogDelete, DeleteObsolete} && f.app.Some? && cfg.Retain() > 0
    ensures var (db', f') := Advance(cfg, db, f, env);
            var ids := IdsOf(db.rows, Obsolete(db.rows, f.app.value, cfg.Retain(), env.tie));
            && f'.app == f.app
            && (f.pc != DeleteObsolete ==> db'.rows == db.rows)
            && (f.pc == LogStored ==> f'.pc == PickObsolete)
            && (f.pc == PickObsolete ==>
                  db' == db && if ids == {} then f'.pc == Done else f'.pc == LogDelete && f'.obsolete == ids)
            && (f.pc == LogDelete ==> f'.pc in {LogDelete, DeleteObsolete} && f'.obsolete == f.obsolete)
            && (f.pc == DeleteObsolete ==> db' == DeleteIds(db, f.obsolete) && f'.pc == Done)
  {
    hide DeleteIds, Obsolete, IdsOf, HasId;
  }

  lemma StatementBalanced(cfg: Config, s: System, c: nat, env: Env, a: nat)
    requires Balanced(cfg, s, a) && Linked(s.db.rows) && DistinctIds(s.db.rows) && cfg.Retain() > 0
    requires c in s.frames && (BeforeWrite(s.frames[c]) || s.frames[c].pc == Done || s.frames[c].app.Some?)
    ensures Balanced(cfg, Apply(cfg, s, Statement(c, env)), a)
  {
    hide Balanced, Linked, DistinctIds, Obsolete, IdsOf, DeleteIds, StoredOf;
    var f, s' := s.frames[c], Apply(cfg, s, Statement(c, env));
    var f' := s'.frames[c];
    if f.pc == Write {
      WriteShape(cfg, s.db, f, env, a);
      hide Advance;
      if Owes(f', a) {
        WriteJoins(cfg, s, s', a, c, f.job.up.digest);
      } else {
        SameOwing(s.frames, c, f', a);
        NothingJoins(cfg, s, s', a);
      }
    } else if BeforeWrite(f) || f.pc == Done {
      EarlyStatement(cfg, s.db, f, env, a);
      hide Advance;
      SameOwing(s.frames, c, f', a);
      NothingJoins(cfg, s, s', a);
    } else {
      LateStatement(cfg, s.db, f, env);
      hide Advance;
      LateBalanced(cfg, s, s', c, env, a);
    }
  }

  /** The frame of `c` changes nothing in who owes and who has picked. */
  lemma SameOwing(frames: map<nat, Frame>, c: nat, f': Frame, a: nat)
    requires c in frames && (Owes(f', a) <==> Owes(frames[c], a)) && (HasPicked(f', a) <==> HasPicked(frames[c], a))
    ensures Owing(frames[c := f'], a) == Owing(frames, a) && Picking(frames[c := f'], a) == Picking(frames, a)
  {
  }

  lemma LateBalanced(cfg: Config, s: System, s': System, c: nat, env: Env, a: nat)
    requires Balanced(cfg, s, a) && DistinctIds(s.db.rows) && cfg.Retain() > 0
    requires c in s.frames && c in s'.frames && s'.frames == s.frames[c := s'.frames[c]]
    requires var f, f' := s.frames[c], s'.frames[c];
             && f.pc in {LogStored, PickObsolete, LogDelete, DeleteObsolete} && f.app.Some? && f'.app == f.app
             && (f.pc != DeleteObsolete ==> s'.db.rows == s.db.rows)
             && (f.pc == LogStored ==> f'.pc == PickObsolete)
             && (f.pc == PickObsolete ==>
                   var ids := IdsOf(s.db.rows, Obsolete(s.db.rows, f.app.value, cfg.Retain(), env.tie));
                   s'.db == s.db && if ids == {} then f'.pc == Done else f'.pc == LogDelete && f'.obsolete == ids)
             && (f.pc == LogDelete ==> f'.pc in {LogDelete, DeleteObsolete} && f'.obsolete == f.obsolete)
             && (f.pc == DeleteObsolete ==> s'.db == DeleteIds(s.db, f.obsolete) && f'.pc == Done)
    ensures Balanced(cfg, s', a)
  {
    var f := s.frames[c];
    if f.app == Some(a) && f.pc == PickObsolete {
      PickSpares(cfg, s, s', a, c, env.tie);
    } else if f.app == Some(a) && f.pc == DeleteObsolete {
      DeleteSettles(cfg, s, s', a, c);
    } else {
      SameOwing(s.frames, c, s'.frames[c], a);
      hide Balanced, DistinctIds, Obsolete, IdsOf;
      NothingJoins(cfg, s, s', a);
    }
  }

  lemma OtherBalanced(cfg: Config, k: nat, s: System, step: Step, a: nat)
    requires Balanced(cfg, s, a) && Enabled(cfg, k, s, step)
    requires !step.Statement? && !step.LegacyInsert? && !step.Abort?
    ensures Balanced(cfg, Apply(cfg, s, step), a)
  {
    hide Balanced, StorageKey, Admissible, IsHex, Blank;
    var s' := Apply(cfg, s, step);
    NothingJoins(cfg, s, s', a);
  }

  /** What the balance rests on: ids, applications and the pool. */
  ghost predicate Orderly(cfg: Config, k: nat, s: System) {
    && IdsSound(s) && IdemsOk(s.db.rows) && Signed(cfg, s) && Linked(s.db.rows) && forall c :: c in s.frames ==> c < k
  }

  /** The traffic of the theorem: no legacy uploads, uploads for registered applications, and every handler
      runs to its end. */
  predicate Retained(t: Traffic) {
    t.named && !t.legacy && !t.aborts
  }

  lemma StatementLinked(cfg: Config, db: Db, f: Frame, env: Env)
    requires Linked(db.rows) && FrameSigned(cfg, db.apps, db.keys, f)
    ensures Linked(Advance(cfg, db, f, env).0.rows)
  {
    StatementEffect(cfg, db, f, env);
    hide Advance, StorageKey, IdemTaken, SignedBy, HasId;
  }

  lemma StepLinked(cfg: Config, k: nat, t: Traffic, s: System, step: Step)
    requires Linked(s.db.rows) && Signed(cfg, s) && Enabled(cfg, k, s, step) && Allowed(cfg, t, s, step) && !t.legacy
    ensures Linked(Apply(cfg, s, step).db.rows)
  {
    if step.Statement? {
      StatementLinked(cfg, s.db, s.frames[step.c], step.env);
    } else if step.InitUpsert? {
      Relinked(s.db, s.inits[step.c], step.uploadId, step.now);
    }
    hide Advance, StorageKey, Admissible, IsHex, Blank, SignedBy, Signed, Upsert, SumFits;
  }

  lemma Relinked(db: Db, job: InitJob, uploadId: string, now: int)
    requires Linked(db.rows)
    ensures Linked(Upsert(db, job, uploadId, now).rows)
  {
    hide StorageKey;
  }

  lemma StepOrderly(cfg: Config, k: nat, t: Traffic, s: System, step: Step)
    requires Orderly(cfg, k, s) && Enabled(cfg, k, s, step) && Retained(t) && Allowed(cfg, t, s, step)
    ensures Orderly(cfg, k, Apply(cfg, s, step))
  {
    StepKeepsKeys(cfg, k, s, step);
    StepKeepsSigned(cfg, k, t, s, step);
    StepLinked(cfg, k, t, s, step);
    hide IdsSound, IdemsOk, Signed, Linked, Advance, Admissible, IsHex, Blank, SignedBy, SumFits, Upsert;
  }

  lemma StepBalanced(cfg: Config, k: nat, t: Traffic, s: System, step: Step, a: nat)
    requires Balanced(cfg, s, a) && Orderly(cfg, k, s) && Enabled(cfg, k, s, step) && cfg.Retain() > 0
    requires Retained(t) && Allowed(cfg, t, s, step)
    ensures Balanced(cfg, Apply(cfg, s, step), a)
  {
    hide Balanced, IdemsOk, VerifiedOk, Apply, SumFits;
    if step.Statement? {
      StatementBalanced(cfg, s, step.c, step.env, a);
    } else {
      OtherBalanced(cfg, k, s, step, a);
    }
  }

  // ---- the theorem

  lemma StartBalanced(cfg: Config, s: System, a: nat)
    requires s.frames == map[] && StoredCount(s.db.rows, a) <= cfg.Retain()
    ensures Balanced(cfg, s, a)
  {
    forall cs: set<nat> ensures Accounted(cfg, s, a, cs) {
      SubsetSize(Spared(s, a, cs), StoredOf(s.db.rows, a));
    }
  }

  lemma {:induction false} RunBalanced(cfg: Config, k: nat, t: Traffic, states: seq<System>, i: nat, a: nat)
    requires Behavior(cfg, k, t, states) && Retained(t) && cfg.Retain() > 0 && i < |states|
    requires Orderly(cfg, k, states[0]) && Balanced(cfg, states[0], a)
    ensures Orderly(cfg, k, states[i]) && Balanced(cfg, states[i], a)
    decreases i
  {
    hide Orderly, Balanced, Enabled, Apply, Allowed;
    if i > 0 {
      RunBalanced(cfg, k, t, states, i - 1, a);
      var step := StepAt(cfg, k, t, states, i - 1);
      StepOrderly(cfg, k, t, states[i - 1], step);
      StepBalanced(cfg, k, t, states[i - 1], step, a);
    }
  }

  /** Over every interleaving of completions that name registered applications and run to their end: an
      application has at most N stored rows whenever no completion is in flight, and at any instant at most one
      more for each completion that has written and not cleaned up, hence at most N + k. */
  lemma RetentionUnderInterleaving(cfg: Config, k: nat, t: Traffic, states: seq<System>, i: nat, a: nat)
    requires Behavior(cfg, k, t, states) && Retained(t) && cfg.Retain() > 0 && i < |states|
    requires Quiescent(cfg, states[0]) && Linked(states[0].db.rows)
    requires StoredCount(states[0].db.rows, a) <= cfg.Retain()
    ensures var s := states[i];
            && StoredCount(s.db.rows, a) <= cfg.Retain() + |Owing(s.frames, a)| <= cfg.Retain() + k
            && (s.frames == map[] ==> StoredCount(s.db.rows, a) <= cfg.Retain())
  {
    StartBalanced(cfg, states[0], a);
    RunBalanced(cfg, k, t, states, i, a);
    var s := states[i];
    assert Accounted(cfg, s, a, {});
    assert Spared(s, a, {}) == StoredOf(s.db.rows, a);
    assert Owing(s.frames, a) - {} == Owing(s.frames, a);
    IndexSetBound(Owing(s.frames, a), k);
  }

  /** In particular after any run of separate requests without legacy uploads, in which completions named
      registered applications. */
  lemma RetentionFromEmpty(cfg: Config, calls: seq<Call>, k: nat, t: Traffic, states: seq<System>, i: nat, a: nat)
    requires NoLegacy(calls) && Linked(Run(cfg, EMPTY_DB, calls).rows) && states != [] && states[0] == Idle(cfg, calls)
    requires Behavior(cfg, k, t, states) && Retained(t) && cfg.Retain() > 0 && i < |states|
    ensures StoredCount(states[i].db.rows, a) <= cfg.Retain() + k
    ensures states[i].frames == map[] ==> StoredCount(states[i].db.rows, a) <= cfg.Retain()
  {
    hide Behavior, Run, Inv, Linked, StoredCount, Quiescent;
    IdleIsQuiescent(cfg, calls);
    EmptyInv(cfg);
    EmptyWithin(cfg);
    CountAndRetention(cfg, EMPTY_DB, calls);
    assert CountWithin(cfg, Run(cfg, EMPTY_DB, calls).rows, a);
    RetentionUnderInterleaving(cfg, k, t, states, i, a);
  }
}
