/** Stored rows are immutable only while requests do not overlap: neither the final UPDATE of a completion
    nor the upsert of a multipart init asks whether the row is still pending. */
module Overwrite {
  import opened Prelude
  import opened Schema
  import opened Handlers
  import opened Invariant
  import opened Statements
  import opened Interleaving
  import opened Tables

  // ---- one step

  /** The step is retention's DELETE, and the row is among those it picked. */
  predicate Deletes(s: System, step: Step, d: string)
    requires d in s.db.rows
  {
    && step.Statement? && step.c in s.frames
    && s.frames[step.c].pc == DeleteObsolete && s.db.rows[d].id in s.frames[step.c].obsolete
  }

  /** The step belongs to a completion that found this very row, and is its UPDATE with a free key and
      something new to write, or its backfill of a missing application; or it is the upsert of a multipart
      init for this digest, with something new to write. */
  predicate Overwrites(s: System, step: Step, d: string)
    requires d in s.db.rows
  {
    var row := s.db.rows[d];
    match step
    case Statement(c, env) =>
      && c in s.frames && s.frames[c].job.up.digest == d && s.frames[c].id == Some(row.id)
      && ((s.frames[c].pc == Write && FinalRow(s.db, s.frames[c], env.now) != row
           && !IdemTaken(s.db.rows, d, FinalRow(s.db, s.frames[c], env.now).idem))
          || (s.frames[c].pc == Link && row.app.None? && s.frames[c].app.Some?))
    case InitUpsert(c, uploadId, _) =>
      && c in s.inits && s.inits[c].digest == d
      && (row.uploadId != Some(uploadId) || row.storageKey != Some(StorageKey(s.inits[c].app, d)))
    case _ => false
  }

  lemma UpdateOverwrites(cfg: Config, db: Db, f: Frame, env: Env, d: string)
    requires DistinctIds(db.rows) && StoredAt(db.rows, d) && f.pc == Write
    ensures var rows' := Advance(cfg, db, f, env).0.rows;
            && d in rows'
            && (rows'[d] != db.rows[d] <==>
                  && f.job.up.digest == d && f.id == Some(db.rows[d].id) && FinalRow(db, f, env.now) != db.rows[d]
                  && !IdemTaken(db.rows, d, FinalRow(db, f, env.now).idem))
  {
    hide StorageKey, IdemTaken, OrElse, Finalized;
    assert Advance(cfg, db, f, env) == WriteStep(cfg, db, f, env);
  }

  lemma LinkOverwrites(cfg: Config, db: Db, f: Frame, env: Env, d: string)
    requires DistinctIds(db.rows) && StoredAt(db.rows, d) && f.pc == Link
    ensures var rows' := Advance(cfg, db, f, env).0.rows;
            && d in rows'
            && (rows'[d] != db.rows[d] <==>
                  f.job.up.digest == d && f.id == Some(db.rows[d].id) && db.rows[d].app.None? && f.app.Some?)
  {
  }

  lemma OneStatementOverwrites(cfg: Config, s: System, c: nat, env: Env, d: string)
    requires DistinctIds(s.db.rows) && StoredAt(s.db.rows, d) && c in s.frames
    ensures var rows' := Apply(cfg, s, Statement(c, env)).db.rows;
            && (d !in rows' <==> Deletes(s, Statement(c, env), d))
            && (d in rows' ==> (rows'[d] != s.db.rows[d] <==> Overwrites(s, Statement(c, env), d)))
  {
    var f := s.frames[c];
    if f.pc == Write {
      UpdateOverwrites(cfg, s.db, f, env, d);
    } else if f.pc == Link {
      LinkOverwrites(cfg, s.db, f, env, d);
    } else {
      StatementEffect(cfg, s.db, f, env);
    }
    hide Advance, IdemTaken, FinalRow, DistinctIds, HasId, StillThere;
  }

  /** Of all the steps there are, only a completion that found the row, or a multipart init that has read
      the digest, changes a stored row, and exactly under these conditions; and only retention deletes it. */
  lemma StepOverwrites(cfg: Config, k: nat, s: System, step: Step, d: string)
    requires DistinctIds(s.db.rows) && StoredAt(s.db.rows, d) && Enabled(cfg, k, s, step)
    ensures var rows' := Apply(cfg, s, step).db.rows;
            && (d !in rows' <==> Deletes(s, step, d))
            && (d in rows' ==> (rows'[d] != s.db.rows[d] <==> Overwrites(s, step, d)))
  {
    if step.Statement? {
      OneStatementOverwrites(cfg, s, step.c, step.env, d);
    } else {
      hide StorageKey, Admissible, IsHex, Blank, Advance, SignedBy;
      if step.PendingGc? { assert s.db.rows[d].id !in IdsOf(s.db.rows, Stale(s.db.rows, step.cutoff)); }
    }
  }

  // ---- whole runs

  /** A request in flight may still write to this row: a completion that holds its id before its write, or
      a multipart init that has read its digest. */
  ghost predicate Disturbed(s: System, d: string, id: nat) {
    || (exists c :: c in s.frames && s.frames[c].id == Some(id) && BeforeWrite(s.frames[c]))
    || (exists c :: c in s.inits && s.inits[c].digest == d)
  }

  /** While its id is in the table, the row is there unchanged and nobody can disturb it. */
  ghost predicate Kept(s: System, d: string, row: Row) {
    && row.id < s.db.nextId && row.status == Stored
    && forall e :: e in s.db.rows && s.db.rows[e].id == row.id ==>
         e == d && s.db.rows[e] == row && !Disturbed(s, d, row.id)
  }

  /** Ids are not reused: a row that a step adds has a new one, and all others keep theirs. */
  lemma StatementIds(cfg: Config, s: System, c: nat, env: Env)
    requires c in s.frames
    ensures var db' := Apply(cfg, s, Statement(c, env)).db;
            && s.db.nextId <= db'.nextId
            && forall e :: e in db'.rows ==>
                 (e in s.db.rows && s.db.rows[e].id == db'.rows[e].id) || db'.rows[e].id >= s.db.nextId
  {
    StatementEffect(cfg, s.db, s.frames[c], env);
    hide Advance, IdemTaken, StorageKey;
  }

  lemma StepIds(cfg: Config, k: nat, s: System, step: Step)
    requires Enabled(cfg, k, s, step)
    ensures var db' := Apply(cfg, s, step).db;
            && s.db.nextId <= db'.nextId
            && forall e :: e in db'.rows ==>
                 (e in s.db.rows && s.db.rows[e].id == db'.rows[e].id) || db'.rows[e].id >= s.db.nextId
  {
    if step.Statement? {
      StatementIds(cfg, s, step.c, step.env);
    } else {
      hide StorageKey, Admissible, IsHex, Blank, Advance, SignedBy;
    }
  }

  /** Nobody new can disturb a stored row: completions take the id of a pending row only, and multipart
      inits go on only if they read no stored row. */
  lemma StayUndisturbed(cfg: Config, k: nat, s: System, step: Step, d: string)
    requires IdsSound(s) && StoredAt(s.db.rows, d) && Enabled(cfg, k, s, step)
    requires !Disturbed(s, d, s.db.rows[d].id)
    ensures !Disturbed(Apply(cfg, s, step), d, s.db.rows[d].id)
  {
    hide StorageKey, Admissible, IsHex, Blank, Advance, Upsert, SignedBy;
    if step.Statement? { FrameEffect(cfg, s.db, s.frames[step.c], step.env); }
    hide Updates, Inserts;
  }

  lemma StepKeepsRow(cfg: Config, k: nat, s: System, step: Step, d: string, row: Row)
    requires IdsSound(s) && Kept(s, d, row) && Enabled(cfg, k, s, step)
    ensures Kept(Apply(cfg, s, step), d, row)
  {
    var s' := Apply(cfg, s, step);
    StepIds(cfg, k, s, step);
    if d in s.db.rows && s.db.rows[d] == row {
      StepOverwrites(cfg, k, s, step, d);
      StayUndisturbed(cfg, k, s, step, d);
      NotOverwritten(s, step, d);
    }
    hide Apply, Enabled, Disturbed, Overwrites, Deletes;
  }

  lemma NotOverwritten(s: System, step: Step, d: string)
    requires d in s.db.rows && !Disturbed(s, d, s.db.rows[d].id)
    ensures !Overwrites(s, step, d)
  {
    hide IdemTaken, StorageKey;
  }

  /** Along every run, whatever it contains, a stored row stays unchanged for as long as its id is in the
      table, unless at the start a completion in flight holds its id before its write or a multipart init
      has read its digest. */
  lemma {:induction false} UndisturbedStaysStored(cfg: Config, k: nat, t: Traffic, states: seq<System>,
                                                 i: nat, j: nat, d: string)
    requires Behavior(cfg, k, t, states) && i <= j < |states|
    requires Quiescent(cfg, states[0])
    requires StoredAt(states[i].db.rows, d) && !Disturbed(states[i], d, states[i].db.rows[d].id)
    ensures Kept(states[j], d, states[i].db.rows[d])
    decreases j
  {
    hide IdsSound, IdemsOk, Enabled, Apply, Allowed, Disturbed, Kept, Quiescent;
    KeysKept(cfg, k, t, states, i);
    if i == j {
      StartsKept(states[i], d);
    } else {
      UndisturbedStaysStored(cfg, k, t, states, i, j - 1, d);
      KeysKept(cfg, k, t, states, j - 1);
      var step := StepAt(cfg, k, t, states, j - 1);
      StepKeepsRow(cfg, k, states[j - 1], step, d, states[i].db.rows[d]);
    }
  }

  lemma StartsKept(s: System, d: string)
    requires IdsSound(s) && StoredAt(s.db.rows, d) && !Disturbed(s, d, s.db.rows[d].id)
    ensures Kept(s, d, s.db.rows[d])
  {
    hide Disturbed;
  }
}
