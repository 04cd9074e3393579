/** The event log when requests overlap: what every row can rely on, how many "stored" events it gets, and
    what becomes of retention's own events. */
module Ledger {
  import opened Prelude
  import opened Schema
  import opened Handlers
  import opened Invariant
  import opened Statements
  import opened Interleaving
  import opened Tables
  import opened Overwrite

  // ---- the event log

  ghost predicate Due(frames: map<nat, Frame>, id: nat) {
    exists c :: c in frames && frames[c].pc == LogStored && frames[c].id == Some(id)
  }

  ghost predicate StoredLogged(events: set<Event>, id: nat) {
    exists e :: e in events && e.artifact == id && e.kind == StoredEvent
  }

  /** Events refer to rows, and a completed row has a "stored" event or a request about to log it. */
  ghost predicate LogSound(s: System) {
    && (forall e :: e in s.db.events ==> HasId(s.db.rows, e.artifact))
    && (forall d :: d in s.db.rows && s.db.rows[d].completedAt.Some? ==>
          StoredLogged(s.db.events, s.db.rows[d].id) || Due(s.frames, s.db.rows[d].id))
  }

  /** A change of rows that keeps ids, completes at most the row with id `newId`, and leaves the log. */
  lemma RowsKeepLog(s: System, s': System, newId: Option<nat>)
    requires LogSound(s) && s'.db.events == s.db.events
    requires forall d :: d in s.db.rows ==> d in s'.db.rows && s'.db.rows[d].id == s.db.rows[d].id
    requires forall d :: d in s'.db.rows && s'.db.rows[d].completedAt.Some? ==>
               || newId == Some(s'.db.rows[d].id)
               || (d in s.db.rows && s.db.rows[d].completedAt.Some?)
    requires forall id: nat :: Due(s.frames, id) ==> Due(s'.frames, id)
    requires newId.Some? ==> Due(s'.frames, newId.value)
    ensures LogSound(s')
  {
    forall e | e in s'.db.events ensures HasId(s'.db.rows, e.artifact) {
      var d :| d in s.db.rows && s.db.rows[d].id == e.artifact;
      assert d in s'.db.rows;
    }
  }

  lemma DeleteKeepsLog(s: System, ids: set<nat>)
    requires LogSound(s)
    ensures LogSound(s.(db := DeleteIds(s.db, ids)))
  {
    var db' := DeleteIds(s.db, ids);
    forall e | e in db'.events ensures HasId(db'.rows, e.artifact) {
      var d :| d in s.db.rows && s.db.rows[d].id == e.artifact;
      assert d in db'.rows;
    }
    forall d | d in db'.rows && StoredLogged(s.db.events, db'.rows[d].id)
      ensures StoredLogged(db'.events, db'.rows[d].id)
    {
      var e :| e in s.db.events && e.artifact == db'.rows[d].id && e.kind == StoredEvent;
      assert e in db'.events;
    }
  }

  /** A new event only adds to the log. */
  lemma EventKeepsLog(db: Db, id: nat, kind: EventKind)
    requires forall e :: e in db.events ==> HasId(db.rows, e.artifact)
    ensures var db' := LogEvent(db, id, kind);
            && db'.rows == db.rows
            && (forall e :: e in db'.events ==> HasId(db'.rows, e.artifact))
            && (forall i :: StoredLogged(db.events, i) ==> StoredLogged(db'.events, i))
            && (kind == StoredEvent && HasId(db.rows, id) ==> StoredLogged(db'.events, id))
  {
    var db' := LogEvent(db, id, kind);
    forall i | StoredLogged(db.events, i) ensures StoredLogged(db'.events, i) {
      var e :| e in db.events && e.artifact == i && e.kind == StoredEvent;
      assert e in db'.events;
    }
    if kind == StoredEvent && HasId(db.rows, id) {
      assert Event(db.nextSerial, id, kind) in db'.events;
    }
  }

  /** The frame of connection `c` moved on; everybody else's duty to log is unchanged. */
  lemma DueMoves(frames: map<nat, Frame>, c: nat, f': Frame)
    requires c in frames
    ensures forall id: nat :: Due(frames, id) && !(frames[c].pc == LogStored && frames[c].id == Some(id)) ==>
              Due(frames[c := f'], id)
    ensures f'.pc == LogStored && f'.id.Some? ==> Due(frames[c := f'], f'.id.value)
  {
    var frames' := frames[c := f'];
    forall id: nat | Due(frames, id) && !(frames[c].pc == LogStored && frames[c].id == Some(id))
      ensures Due(frames', id)
    {
      var o :| o in frames && frames[o].pc == LogStored && frames[o].id == Some(id);
      assert o in frames' && frames'[o] == frames[o];
    }
    if f'.pc == LogStored && f'.id.Some? { assert c in frames' && frames'[c] == f'; }
  }

  lemma WriteKeepsLog(s: System, c: nat, now: int, db': Db, f': Frame)
    requires LogSound(s) && DistinctIds(s.db.rows) && c in s.frames && s.frames[c].pc == Write
    requires Updates(s.db, s.frames[c], now, db') || Inserts(s.db, s.frames[c], now, db')
    requires f'.pc == LogStored && f'.id.Some?
    requires f'.id == s.frames[c].id || (Inserts(s.db, s.frames[c], now, db') && f'.id == Some(s.db.nextId))
    ensures LogSound(s.(db := db', frames := s.frames[c := f']))
  {
    hide StorageKey, IdemTaken;
    DueMoves(s.frames, c, f');
    hide Due, LogSound;
    RowsKeepLog(s, s.(db := db', frames := s.frames[c := f']), f'.id);
  }

  lemma RowsHaveIds(rows: Rows)
    ensures forall d :: d in rows ==> HasId(rows, rows[d].id)
  {
  }

  lemma StatementKeepsLog(cfg: Config, s: System, c: nat, env: Env)
    requires LogSound(s) && IdsSound(s) && c in s.frames
    ensures LogSound(Apply(cfg, s, Statement(c, env)))
  {
    var f := s.frames[c];
    var (db', f') := Advance(cfg, s.db, f, env);
    var s' := s.(db := db', frames := s.frames[c := f']);
    StatementEffect(cfg, s.db, f, env);
    FrameEffect(cfg, s.db, f, env);
    DueMoves(s.frames, c, f');
    hide Advance, Updates, Inserts, Due, HasId, StoredLogged, LogEvent, DeleteIds;
    if f.pc == Write && db' != s.db {
      WriteKeepsLog(s, c, env.now, db', f');
    } else if f.pc == Link && db' != s.db {
      RowsKeepLog(s, s', None);
    } else if f.pc == LogStored {
      if f.id.Some? { EventKeepsLog(s.db, f.id.value, StoredEvent); }
      RowsHaveIds(s.db.rows);
    } else if f.pc == LogDelete && db' != s.db {
      var id :| id in f.left && db' == LogEvent(s.db, id, RetentionDelete);
      EventKeepsLog(s.db, id, RetentionDelete);
    } else if f.pc == DeleteObsolete {
      DeleteKeepsLog(s, f.obsolete);
    }
  }

  lemma FramesKeepLog(cfg: Config, k: nat, s: System, step: Step)
    requires LogSound(s) && Enabled(cfg, k, s, step) && (step.Begin? || step.Release?)
    ensures LogSound(Apply(cfg, s, step))
  {
    hide StoredLogged, HasId, Admissible;
    var s' := Apply(cfg, s, step);
    forall id: nat | Due(s.frames, id) ensures Due(s'.frames, id) {
      var o :| o in s.frames && s.frames[o].pc == LogStored && s.frames[o].id == Some(id);
      assert o in s'.frames && s'.frames[o] == s.frames[o];
    }
    hide Due;
  }

  lemma StepKeepsLog(cfg: Config, k: nat, s: System, step: Step)
    requires LogSound(s) && IdsSound(s) && Enabled(cfg, k, s, step) && !step.Abort?
    ensures LogSound(Apply(cfg, s, step))
  {
    hide LogSound, IdsSound, Due, StorageKey, Admissible, IsHex, Blank, Advance, SignedBy;
    match step
    case Statement(c, env) => StatementKeepsLog(cfg, s, c, env);
    case Begin(_, _) => FramesKeepLog(cfg, k, s, step);
    case Release(_) => FramesKeepLog(cfg, k, s, step);
    case PendingGc(cutoff) => DeleteKeepsLog(s, IdsOf(s.db.rows, Stale(s.db.rows, cutoff)));
    case _ => RowsKeepLog(s, Apply(cfg, s, step), None);
  }

  lemma QuiescentLog(cfg: Config, s: System)
    requires Quiescent(cfg, s)
    ensures LogSound(s)
  {
    var db := s.db;
    forall e | e in db.events ensures HasId(db.rows, e.artifact) {
      assert CompletedId(db.rows, e.artifact);
      var d :| d in db.rows && db.rows[d].id == e.artifact && db.rows[d].completedAt.Some?;
    }
    forall d | d in db.rows && db.rows[d].completedAt.Some? ensures StoredLogged(db.events, db.rows[d].id) {
      assert LoggedId(db.events, db.rows[d].id);
      var e :| e in db.events && e.artifact == db.rows[d].id;
      assert e.kind == StoredEvent;
    }
    hide RowsOk, AppsOk, VerifiedRow;
  }

  /** Over every interleaving in which handlers run to their end: no event outlives its row, and a completed
      row has a "stored" event unless the request that completed it is about to log one. */
  lemma {:induction false} LogStaysSound(cfg: Config, k: nat, t: Traffic, states: seq<System>, i: nat)
    requires Behavior(cfg, k, t, states) && !t.aborts && Quiescent(cfg, states[0]) && i < |states|
    ensures LogSound(states[i])
    decreases i
  {
    hide LogSound, IdsSound, IdemsOk, Enabled, Apply, Quiescent;
    if i == 0 {
      QuiescentLog(cfg, states[0]);
    } else {
      LogStaysSound(cfg, k, t, states, i - 1);
      KeysKept(cfg, k, t, states, i - 1);
      var step := StepAt(cfg, k, t, states, i - 1);
      StepKeepsLog(cfg, k, states[i - 1], step);
    }
  }

  // ---- how many "stored" events a row gets

  function StoredEvents(s: System, id: nat): set<Event> {
    set e | e in s.db.events && e.artifact == id && e.kind == StoredEvent
  }

  function DueFrames(s: System, id: nat): set<nat> {
    set c | c in s.frames && s.frames[c].pc == LogStored && s.frames[c].id == Some(id)
  }

  /** The "stored" events of the row with this id, and those about to be logged. */
  function Entries(s: System, id: nat): nat {
    |StoredEvents(s, id)| + |DueFrames(s, id)|
  }

  /** A completion writes the row with this id, by its UPDATE or its INSERT. */
  predicate Writes(s: System, s': System, step: Step, id: nat) {
    && step.Statement? && step.c in s.frames && step.c in s'.frames
    && s.frames[step.c].pc == Write && s'.frames[step.c].pc == LogStored && s'.frames[step.c].id == Some(id)
  }

  ghost predicate SerialsOk(db: Db) {
    forall e :: e in db.events ==> e.serial < db.nextSerial
  }

  /** The frame of connection `c` moved on. */
  lemma DueChanges(s: System, s': System, c: nat, id: nat)
    requires c in s.frames && c in s'.frames && s'.frames == s.frames[c := s'.frames[c]]
    ensures |DueFrames(s', id)| + (if c in DueFrames(s, id) then 1 else 0) ==
            |DueFrames(s, id)| + (if c in DueFrames(s', id) then 1 else 0)
  {
    var rest := DueFrames(s, id) - {c};
    assert DueFrames(s', id) == if c in DueFrames(s', id) then rest + {c} else rest;
    assert DueFrames(s, id) == if c in DueFrames(s, id) then rest + {c} else rest;
  }

  /** A logged event is a new one. */
  lemma LoggedAdds(db: Db, id: nat, kind: EventKind, s: System, s': System, of: nat)
    requires SerialsOk(db) && s.db == db && s'.db == LogEvent(db, id, kind)
    ensures |StoredEvents(s', of)| ==
            |StoredEvents(s, of)| + (if kind == StoredEvent && id == of && HasId(db.rows, id) then 1 else 0)
    ensures SerialsOk(s'.db)
  {
    var logged := Event(db.nextSerial, id, kind);
    hide HasId;
    if kind == StoredEvent && id == of && HasId(db.rows, id) {
      assert logged !in StoredEvents(s, of) && StoredEvents(s', of) == StoredEvents(s, of) + {logged};
    } else {
      assert StoredEvents(s', of) == StoredEvents(s, of);
    }
  }

  /** Deletions take no event from a row that stays. */
  lemma DeletedKeeps(s: System, s': System, ids: set<nat>, id: nat)
    requires s'.db == DeleteIds(s.db, ids) && HasId(s'.db.rows, id)
    ensures StoredEvents(s', id) == StoredEvents(s, id)
  {
  }

  /** One statement: one more entry exactly when it is the write of this row. */
  lemma StatementEntries(cfg: Config, s: System, c: nat, env: Env, id: nat)
    requires SerialsOk(s.db) && c in s.frames
    ensures var s' := Apply(cfg, s, Statement(c, env));
            && SerialsOk(s'.db)
            && (HasId(s'.db.rows, id) ==>
                  Entries(s', id) == Entries(s, id) + (if Writes(s, s', Statement(c, env), id) then 1 else 0))
  {
    var f, s' := s.frames[c], Apply(cfg, s, Statement(c, env));
    var f' := s'.frames[c];
    StatementEffect(cfg, s.db, f, env);
    FrameEffect(cfg, s.db, f, env);
    DueChanges(s, s', c, id);
    SameLog(cfg, s.db, f, env);
    hide Advance, Updates, Inserts, LogEvent, DeleteIds, HasId;
    if f.pc == LogStored {
      if f.id.Some? { LoggedAdds(s.db, f.id.value, StoredEvent, s, s', id); }
      RowsStay(s.db, f);
    } else if f.pc == LogDelete {
      if s'.db != s.db {
        var gone :| gone in f.left && s'.db == LogEvent(s.db, gone, RetentionDelete);
        LoggedAdds(s.db, gone, RetentionDelete, s, s', id);
      }
    } else if f.pc == DeleteObsolete {
      if HasId(s'.db.rows, id) { DeletedKeeps(s, s', f.obsolete, id); }
      DeletedSerials(s.db, f.obsolete);
    } else {
      assert StoredEvents(s', id) == StoredEvents(s, id);
    }
  }

  lemma RowsStay(db: Db, f: Frame)
    ensures f.id.Some? ==> LogEvent(db, f.id.value, StoredEvent).rows == db.rows
  {
  }

  lemma DeletedSerials(db: Db, ids: set<nat>)
    requires SerialsOk(db)
    ensures SerialsOk(DeleteIds(db, ids))
  {
  }

  lemma SameLog(cfg: Config, db: Db, f: Frame, env: Env)
    ensures var db' := Advance(cfg, db, f, env).0;
            f.pc !in {LogStored, LogDelete, DeleteObsolete} ==>
              db'.events == db.events && db'.nextSerial == db.nextSerial
  {
    StatementEffect(cfg, db, f, env);
    hide Advance, IdemTaken, StorageKey;
  }

  /** Over all steps but the dropping of a handler: the row with this id gets one more entry exactly when a
      completion writes it. */
  lemma StepEntries(cfg: Config, k: nat, s: System, step: Step, id: nat)
    requires SerialsOk(s.db) && Enabled(cfg, k, s, step) && !step.Abort?
    ensures var s' := Apply(cfg, s, step);
            && SerialsOk(s'.db)
            && (HasId(s'.db.rows, id) ==>
                  Entries(s', id) == Entries(s, id) + (if Writes(s, s', step, id) then 1 else 0))
  {
    var s' := Apply(cfg, s, step);
    hide Advance, StorageKey, Admissible, IsHex, Blank, SignedBy, HasId;
    match step
    case Statement(c, env) => StatementEntries(cfg, s, c, env, id);
    case PendingGc(cutoff) =>
      var ids := IdsOf(s.db.rows, Stale(s.db.rows, cutoff));
      if HasId(s'.db.rows, id) { DeletedKeeps(s, s', ids, id); }
      DeletedSerials(s.db, ids);
      assert DueFrames(s', id) == DueFrames(s, id);
    case Abort(_) => assert false;
    case _ => assert StoredEvents(s', id) == StoredEvents(s, id) && DueFrames(s', id) == DueFrames(s, id);
  }

  // ---- exactly one, unless somebody interferes

  /** Only completed rows have entries. */
  ghost predicate OnlyCompleted(s: System) {
    forall d, id :: d in s.db.rows && s.db.rows[d].id == id && Entries(s, id) > 0 ==> s.db.rows[d].completedAt.Some?
  }

  ghost predicate Booked(s: System) {
    LogSound(s) && SerialsOk(s.db) && OnlyCompleted(s)
  }

  /** Entries of an id that is not yet issued. */
  lemma UnissuedEmpty(s: System, id: nat)
    requires IdsSound(s) && LogSound(s) && id >= s.db.nextId
    ensures Entries(s, id) == 0
  {
    forall e | e in s.db.events ensures e.artifact != id { assert HasId(s.db.rows, e.artifact); }
    assert StoredEvents(s, id) == {} && DueFrames(s, id) == {};
  }

  /** A row that was completed stays so, as long as it is in the table. */
  lemma StepCompleted(cfg: Config, k: nat, s: System, step: Step)
    requires Enabled(cfg, k, s, step)
    ensures var rows' := Apply(cfg, s, step).db.rows;
            forall d :: (d in rows' && d in s.db.rows && rows'[d].id == s.db.rows[d].id
                         && s.db.rows[d].completedAt.Some?) ==> rows'[d].completedAt.Some?
  {
    if step.Statement? { StatementEffect(cfg, s.db, s.frames[step.c], step.env); }
    hide Advance, StorageKey, Admissible, IsHex, Blank, SignedBy, IdemTaken, HasId;
  }

  /** The row that is written is completed. */
  lemma WrittenCompleted(cfg: Config, k: nat, s: System, step: Step, d: string)
    requires IdsSound(s) && Enabled(cfg, k, s, step)
    requires var s' := Apply(cfg, s, step); d in s'.db.rows && Writes(s, s', step, s'.db.rows[d].id)
    ensures Apply(cfg, s, step).db.rows[d].completedAt.Some?
  {
    FrameEffect(cfg, s.db, s.frames[step.c], step.env);
    hide Advance, StorageKey, IdemTaken;
  }

  lemma StepBooked(cfg: Config, k: nat, s: System, step: Step)
    requires Booked(s) && IdsSound(s) && Enabled(cfg, k, s, step) && !step.Abort?
    ensures Booked(Apply(cfg, s, step))
  {
    var s' := Apply(cfg, s, step);
    StepKeepsLog(cfg, k, s, step);
    StepIds(cfg, k, s, step);
    StepCompleted(cfg, k, s, step);
    hide Apply, LogSound, Enabled, Writes, Entries, IdsSound;
    StepEntries(cfg, k, s, step, 0);
    forall d, id | d in s'.db.rows && s'.db.rows[d].id == id && Entries(s', id) > 0
      ensures s'.db.rows[d].completedAt.Some?
    {
      StepEntries(cfg, k, s, step, id);
      assert HasId(s'.db.rows, id);
      if Writes(s, s', step, id) {
        WrittenCompleted(cfg, k, s, step, d);
      } else if id >= s.db.nextId {
        UnissuedEmpty(s, id);
      }
    }
  }

  lemma QuiescentBooked(cfg: Config, s: System)
    requires Quiescent(cfg, s)
    ensures Booked(s)
    ensures forall d :: d in s.db.rows && s.db.rows[d].completedAt.Some? ==> Entries(s, s.db.rows[d].id) == 1
  {
    QuiescentLog(cfg, s);
    forall d | d in s.db.rows ensures Entries(s, s.db.rows[d].id) == (if s.db.rows[d].completedAt.Some? then 1 else 0) {
      QuiescentEntries(cfg, s, d);
    }
    hide Entries, LogSound;
  }

  lemma QuiescentEntries(cfg: Config, s: System, d: string)
    requires Quiescent(cfg, s) && d in s.db.rows
    ensures Entries(s, s.db.rows[d].id) == if s.db.rows[d].completedAt.Some? then 1 else 0
  {
    var id := s.db.rows[d].id;
    assert DueFrames(s, id) == {};
    if s.db.rows[d].completedAt.Some? {
      assert LoggedId(s.db.events, id);
      var e :| e in s.db.events && e.artifact == id;
      assert StoredEvents(s, id) == {e};
    } else {
      forall e | e in s.db.events ensures e.artifact != id { assert CompletedId(s.db.rows, e.artifact); }
      assert StoredEvents(s, id) == {};
    }
  }

  lemma {:induction false} BookedKept(cfg: Config, k: nat, t: Traffic, states: seq<System>, i: nat)
    requires Behavior(cfg, k, t, states) && !t.aborts && Quiescent(cfg, states[0]) && i < |states|
    ensures Booked(states[i])
    decreases i
  {
    hide Booked, IdsSound, IdemsOk, Enabled, Apply, Quiescent;
    if i == 0 {
      QuiescentBooked(cfg, states[0]);
    } else {
      BookedKept(cfg, k, t, states, i - 1);
      KeysKept(cfg, k, t, states, i - 1);
      var step := StepAt(cfg, k, t, states, i - 1);
      StepBooked(cfg, k, states[i - 1], step);
    }
  }

  /** Nobody writes a row that nobody disturbs. */
  lemma UndisturbedUnwritten(cfg: Config, k: nat, s: System, step: Step, d: string, row: Row)
    requires IdsSound(s) && Kept(s, d, row) && HasId(s.db.rows, row.id) && Enabled(cfg, k, s, step)
    ensures !Writes(s, Apply(cfg, s, step), step, row.id)
  {
    if step.Statement? { FrameEffect(cfg, s.db, s.frames[step.c], step.env); }
    hide Advance, Updates, Inserts;
  }

  lemma StepKeepsEntries(cfg: Config, k: nat, s: System, step: Step, d: string, row: Row)
    requires IdsSound(s) && Booked(s) && Kept(s, d, row) && Enabled(cfg, k, s, step) && !step.Abort?
    requires HasId(Apply(cfg, s, step).db.rows, row.id)
    ensures HasId(s.db.rows, row.id) && Entries(Apply(cfg, s, step), row.id) == Entries(s, row.id)
  {
    StepIds(cfg, k, s, step);
    assert HasId(s.db.rows, row.id);
    hide Apply, Enabled, Disturbed, Entries, LogSound, OnlyCompleted, Writes;
    StepEntries(cfg, k, s, step, row.id);
    UndisturbedUnwritten(cfg, k, s, step, d, row);
  }

  /** Along every run in which handlers run to their end: from a moment on when a row is stored and nobody can
      disturb it, its number of entries never changes, for as long as its id is in the table. */
  lemma {:induction false} EntriesStay(cfg: Config, k: nat, t: Traffic, states: seq<System>,
                                      i: nat, j: nat, d: string)
    requires Behavior(cfg, k, t, states) && !t.aborts && Quiescent(cfg, states[0]) && i <= j < |states|
    requires StoredAt(states[i].db.rows, d) && !Disturbed(states[i], d, states[i].db.rows[d].id)
    requires HasId(states[j].db.rows, states[i].db.rows[d].id)
    ensures Entries(states[j], states[i].db.rows[d].id) == Entries(states[i], states[i].db.rows[d].id)
    decreases j
  {
    hide Behavior, IdsSound, IdemsOk, Enabled, Apply, Allowed, Disturbed, Quiescent, Entries, Booked, Kept, HasId;
    if i < j {
      var row, s := states[i].db.rows[d], states[j - 1];
      UndisturbedStaysStored(cfg, k, t, states, i, j - 1, d);
      KeysKept(cfg, k, t, states, j - 1);
      BookedKept(cfg, k, t, states, j - 1);
      var step := StepAt(cfg, k, t, states, j - 1);
      NotAborted(cfg, t, s, step);
      StepKeepsEntries(cfg, k, s, step, d, row);
      EntriesStay(cfg, k, t, states, i, j - 1, d);
    }
  }

  lemma NotAborted(cfg: Config, t: Traffic, s: System, step: Step)
    requires Allowed(cfg, t, s, step) && !t.aborts
    ensures !step.Abort?
  {
  }

  /** A row that has just been completed, and that nobody can disturb any more, has one entry. */
  lemma FirstEntry(cfg: Config, k: nat, s: System, step: Step, d: string)
    requires Booked(s) && IdsSound(s) && Enabled(cfg, k, s, step) && !step.Abort?
    requires var s' := Apply(cfg, s, step);
             && d in s'.db.rows && s'.db.rows[d].completedAt.Some?
             && !(d in s.db.rows && s.db.rows[d].id == s'.db.rows[d].id && s.db.rows[d].completedAt.Some?)
    ensures Entries(Apply(cfg, s, step), Apply(cfg, s, step).db.rows[d].id) == 1
  {
    var s' := Apply(cfg, s, step);
    var id := s'.db.rows[d].id;
    StepKeepsLog(cfg, k, s, step);
    StepIds(cfg, k, s, step);
    StepEntries(cfg, k, s, step, id);
    assert HasId(s'.db.rows, id);
    if id >= s.db.nextId { UnissuedEmpty(s, id); }
    HasEntry(s', d);
    hide Apply, Enabled, LogSound, Writes, HasId;
  }

  lemma HasEntry(s: System, d: string)
    requires LogSound(s) && d in s.db.rows && s.db.rows[d].completedAt.Some?
    ensures Entries(s, s.db.rows[d].id) >= 1
  {
    var id := s.db.rows[d].id;
    if StoredLogged(s.db.events, id) {
      var e :| e in s.db.events && e.artifact == id && e.kind == StoredEvent;
      assert e in StoredEvents(s, id);
    } else {
      var c :| c in s.frames && s.frames[c].pc == LogStored && s.frames[c].id == Some(id);
      assert c in DueFrames(s, id);
    }
  }

  /** A row gets exactly one "stored" event if, when it is completed, no other completion holds its id before
      its write and no multipart init has read its digest: at every later moment, while its id is in the
      table, the event is there, or one request is about to log it, and never both or more. */
  lemma ExactlyOneStoredEvent(cfg: Config, k: nat, t: Traffic, states: seq<System>, i: nat, j: nat, d: string)
    requires Behavior(cfg, k, t, states) && !t.aborts && Quiescent(cfg, states[0]) && i < j < |states|
    requires var rows, rows' := states[i].db.rows, states[i + 1].db.rows;
             && StoredAt(rows', d) && rows'[d].completedAt.Some?
             && !(d in rows && rows[d].id == rows'[d].id && rows[d].completedAt.Some?)
    requires !Disturbed(states[i + 1], d, states[i + 1].db.rows[d].id)
    requires HasId(states[j].db.rows, states[i + 1].db.rows[d].id)
    ensures var id := states[i + 1].db.rows[d].id;
            && |StoredEvents(states[j], id)| + |DueFrames(states[j], id)| == 1
            && (states[j].frames == map[] ==> |StoredEvents(states[j], id)| == 1)
  {
    var step := StepAt(cfg, k, t, states, i);
    NotAborted(cfg, t, states[i], step);
    BookedKept(cfg, k, t, states, i);
    KeysKept(cfg, k, t, states, i);
    EntriesStay(cfg, k, t, states, i + 1, j, d);
    hide Booked, IdsSound, Enabled, Apply, Allowed, Disturbed, Quiescent, HasId, IdemsOk;
    FirstEntry(cfg, k, states[i], step, d);
    assert states[j].frames == map[] ==> DueFrames(states[j], states[i + 1].db.rows[d].id) == {};
  }

  /** A row that was completed before anything overlapped keeps its one event for ever. */
  lemma OldRowsKeepTheirEvent(cfg: Config, k: nat, t: Traffic, states: seq<System>, j: nat, d: string)
    requires Behavior(cfg, k, t, states) && !t.aborts && Quiescent(cfg, states[0]) && j < |states|
    requires StoredAt(states[0].db.rows, d) && states[0].db.rows[d].completedAt.Some?
    requires HasId(states[j].db.rows, states[0].db.rows[d].id)
    ensures Entries(states[j], states[0].db.rows[d].id) == 1
  {
    QuiescentBooked(cfg, states[0]);
    EntriesStay(cfg, k, t, states, 0, j, d);
    hide Behavior, Inv, Entries, HasId, Booked;
  }

  // ---- retention's own events

  /** Every "retention_delete" event is about to vanish: some request is going to delete its row. */
  ghost predicate DeletesPending(s: System) {
    && (forall c :: c in s.frames ==> s.frames[c].left <= s.frames[c].obsolete)
    && (forall e :: e in s.db.events && e.kind == RetentionDelete ==> Condemned(s.frames, e.artifact))
  }

  ghost predicate Condemned(frames: map<nat, Frame>, id: nat) {
    exists c :: c in frames && frames[c].pc in {LogDelete, DeleteObsolete} && id in frames[c].obsolete
  }

  /** What a statement does to the sets that its request picked. */
  lemma PickedEffect(cfg: Config, db: Db, f: Frame, env: Env)
    requires f.left <= f.obsolete
    ensures var f' := Advance(cfg, db, f, env).1;
            && f'.left <= f'.obsolete
            && (f.pc == LogDelete ==> f'.pc in {LogDelete, DeleteObsolete} && f'.obsolete == f.obsolete)
  {
    hide SignatureOk, IdemTaken, RemoteCheck, StorageKey, OrElse, StoredCount, StoredBytes, Wrap64, Obsolete, IdsOf,
         LogEvent, DeleteIds, Finalized, Backfill, InsertRow;
  }

  lemma CondemnedMoves(frames: map<nat, Frame>, c: nat, f': Frame, id: nat)
    requires c in frames && Condemned(frames, id)
    requires frames[c].pc in {LogDelete, DeleteObsolete} && id in frames[c].obsolete ==>
               f'.pc in {LogDelete, DeleteObsolete} && f'.obsolete == frames[c].obsolete
    ensures Condemned(frames[c := f'], id)
  {
    var o :| o in frames && frames[o].pc in {LogDelete, DeleteObsolete} && id in frames[o].obsolete;
    assert o in frames[c := f'];
  }

  lemma StatementKeepsPending(cfg: Config, s: System, c: nat, env: Env)
    requires DeletesPending(s) && c in s.frames
    ensures DeletesPending(Apply(cfg, s, Statement(c, env)))
  {
    var f, s' := s.frames[c], Apply(cfg, s, Statement(c, env));
    var f' := s'.frames[c];
    StatementEffect(cfg, s.db, f, env);
    PickedEffect(cfg, s.db, f, env);
    SameLog(cfg, s.db, f, env);
    hide Advance, Updates, Inserts, HasId;
    forall e | e in s'.db.events && e.kind == RetentionDelete ensures Condemned(s'.frames, e.artifact) {
      if e in s.db.events {
        assert Condemned(s.frames, e.artifact);
        assert f.pc == DeleteObsolete ==> e.artifact !in f.obsolete;
        CondemnedMoves(s.frames, c, f', e.artifact);
      } else {
        assert f.pc == LogDelete && e.artifact in f.left;
        assert c in s'.frames && e.artifact in s'.frames[c].obsolete;
      }
    }
  }

  lemma StepKeepsPending(cfg: Config, k: nat, s: System, step: Step)
    requires DeletesPending(s) && Enabled(cfg, k, s, step) && !step.Abort?
    ensures DeletesPending(Apply(cfg, s, step))
  {
    if step.Statement? {
      StatementKeepsPending(cfg, s, step.c, step.env);
    } else {
      var s' := Apply(cfg, s, step);
      hide Advance, StorageKey, Admissible, IsHex, Blank, SignedBy;
      forall id: nat | Condemned(s.frames, id) ensures Condemned(s'.frames, id) {
        var o :| o in s.frames && s.frames[o].pc in {LogDelete, DeleteObsolete} && id in s.frames[o].obsolete;
        assert o in s'.frames && s'.frames[o] == s.frames[o];
      }
      hide Condemned;
    }
  }

  /** Along every run in which handlers run to their end, a "retention_delete" event belongs to a request
      that is going to delete its row; with no request in flight the log holds "stored" events only. */
  lemma {:induction false} RetentionEventsVanish(cfg: Config, k: nat, t: Traffic, states: seq<System>, i: nat)
    requires Behavior(cfg, k, t, states) && !t.aborts && Quiescent(cfg, states[0]) && i < |states|
    ensures DeletesPending(states[i])
    ensures states[i].frames == map[] ==> forall e :: e in states[i].db.events ==> e.kind == StoredEvent
    decreases i
  {
    if i > 0 {
      RetentionEventsVanish(cfg, k, t, states, i - 1);
      var step := StepAt(cfg, k, t, states, i - 1);
      NotAborted(cfg, t, states[i - 1], step);
      StepKeepsPending(cfg, k, states[i - 1], step);
      hide Enabled, Apply, Allowed, Quiescent;
    }
  }

  // ---- all of it, after any run of separate requests

  /** What any run of separate requests from empty tables leaves, followed by any overlapping ones whose
      handlers run to their end, has sound keys and a sound log. */
  lemma SoundFromEmpty(cfg: Config, calls: seq<Call>, k: nat, t: Traffic, states: seq<System>, i: nat)
    requires Behavior(cfg, k, t, states) && !t.aborts && states[0] == Idle(cfg, calls) && i < |states|
    ensures DistinctIds(states[i].db.rows) && IdemsOk(states[i].db.rows)
    ensures t.named ==> VerifiedOk(cfg, states[i].db)
    ensures LogSound(states[i]) && DeletesPending(states[i])
  {
    IdleIsQuiescent(cfg, calls);
    hide Quiescent, Idle, Behavior, LogSound, DeletesPending, VerifiedOk;
    KeysStayInjective(cfg, k, t, states, i);
    if t.named { VerifiedStaySigned(cfg, k, t, states, i); }
    LogStaysSound(cfg, k, t, states, i);
    RetentionEventsVanish(cfg, k, t, states, i);
  }
}
