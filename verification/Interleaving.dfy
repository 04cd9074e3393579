/** How far concurrent completions can overshoot the per-application quotas. */
module Interleaving {
  import opened Prelude
  import opened Sums
  import opened Schema
  import opened Handlers
  import opened Retention
  import opened QuotaRuns
  import opened Statements
  import Lifecycle

  // ---- the system: tables, and one request in flight per connection in use

  /** A multipart init between its SELECT, which found no stored row, and its upsert. */
  datatype InitJob = InitJob(app: string, digest: string)

  /** `frames` are the completions in flight and `inits` the multipart inits, by the connection they hold. */
  datatype System = System(db: Db, frames: map<nat, Frame>, inits: map<nat, InitJob>)

  /** One atomic step. Presign and legacy upload contribute their one write, with whatever their earlier
      reads returned: `linked` tells whether they found the application, and `verified` is the verdict on the
      signature. `Abort` drops a completion between two statements: its client has gone, or its process. */
  datatype Step =
    | Begin(c: nat, job: Job)
    | Statement(c: nat, env: Env)
    | Release(c: nat)
    | Abort(c: nat)
    | InitRead(c: nat, app: string, digest: string)
    | InitUpsert(c: nat, uploadId: string, now: int)
    | InitFail(c: nat)
    | PresignInsert(app: string, digest: string, linked: bool, now: int)
    | LegacyInsert(app: string, digest: string, size: nat, sig: Option<string>, linked: bool, verified: bool, now: int)
    | PendingGc(cutoff: int)
    | RegisterKey(owner: nat, publicKey: string)
    | Register(name: string)

  /** The connection is one of the pool's `k`, and nobody holds it. */
  predicate Free(k: nat, s: System, c: nat) {
    c < k && c !in s.frames && c !in s.inits
  }

  predicate StoredAt(rows: Rows, d: string) {
    d in rows && rows[d].status == Stored
  }

  ghost predicate Enabled(cfg: Config, k: nat, s: System, step: Step) {
    match step
    case Begin(c, job) => Free(k, s, c) && Admissible(cfg, job)
    case Statement(c, _) => c in s.frames
    case Release(c) => c in s.frames && s.frames[c].pc == Done
    case Abort(c) => c in s.frames
    case InitRead(c, _, digest) => Free(k, s, c) && IsHex(digest, 64) && !StoredAt(s.db.rows, digest)
    case InitUpsert(c, _, _) => c in s.inits
    case InitFail(c) => c in s.inits
    case PresignInsert(app, digest, linked, _) => IsHex(digest, 64) && !Blank(app) && (linked ==> app in s.db.apps)
    case LegacyInsert(app, digest, _, sig, linked, verified, _) =>
      && IsHex(digest, 64) && (linked ==> app in s.db.apps)
      && (verified ==> app in s.db.apps && sig.Some? && SignedBy(cfg, s.db.keys, s.db.apps[app], digest, sig.value))
    case PendingGc(_) => true
    case RegisterKey(_, _) => true
    case Register(_) => true
  }

  /** INSERT ... ON CONFLICT (digest) DO UPDATE, whatever the status of the row that is there by now. */
  function Upsert(db: Db, job: InitJob, uploadId: string, now: int): Db {
    var key := StorageKey(job.app, job.digest);
    if job.digest in db.rows then
      db.(rows := db.rows[job.digest := db.rows[job.digest].(uploadId := Some(uploadId), storageKey := Some(key))])
    else InsertRow(db, job.digest, PendingRow(None, key, Some(uploadId), now))
  }

  /** INSERT without a conflict clause: it fails if the digest has a row by now. */
  function LegacyRow(link: Option<nat>, size: nat, sig: Option<string>, verified: bool, now: int): Row {
    Row(0, link, size, sig, verified, None, Stored, now, None, None, None)
  }

  ghost function Apply(cfg: Config, s: System, step: Step): System {
    match step
    case Begin(c, job) => s.(frames := s.frames[c := Start(job)])
    case Statement(c, env) =>
      if c in s.frames then
        var next := Advance(cfg, s.db, s.frames[c], env);
        s.(db := next.0, frames := s.frames[c := next.1])
      else s
    case Release(c) => s.(frames := s.frames - {c})
    case Abort(c) => s.(frames := s.frames - {c})
    case InitRead(c, app, digest) => s.(inits := s.inits[c := InitJob(app, digest)])
    case InitUpsert(c, uploadId, now) =>
      if c in s.inits then s.(db := Upsert(s.db, s.inits[c], uploadId, now), inits := s.inits - {c}) else s
    case InitFail(c) => s.(inits := s.inits - {c})
    case PresignInsert(app, digest, linked, now) =>
      if digest in s.db.rows then s
      else
        var link := if linked then AppNamed(s.db.apps, app) else None;
        s.(db := InsertRow(s.db, digest, PendingRow(link, StorageKey(app, digest), None, now)))
    case LegacyInsert(app, digest, size, sig, linked, verified, now) =>
      if digest in s.db.rows then s
      else
        var link := if linked then AppNamed(s.db.apps, app) else None;
        s.(db := InsertRow(s.db, digest, LegacyRow(link, size, sig, verified, now)))
    case PendingGc(cutoff) => s.(db := DeleteIds(s.db, IdsOf(s.db.rows, Stale(s.db.rows, cutoff))))
    case RegisterKey(owner, publicKey) => s.(db := s.db.(keys := s.db.keys[(owner, publicKey) := true]))
    case Register(name) => s.(db := RegisterApp(s.db, name).db)
  }

  // ---- runs

  /** The sum that the request is about to compare with the byte limit fits in an i64. */
  ghost predicate SumFits(cfg: Config, db: Db, f: Frame) {
    f.pc == SumBytes && f.app.Some? && cfg.MaxBytes().Some? ==>
      StoredBytes(db.rows, f.app.value) + f.job.up.size <= I64_MAX
  }

  /** What a run may contain. `named`: uploads name registered applications, and find them; `metered`: the
      byte check never wraps around; `derived`: clients derive their keys from the digest; `legacy`: there are
      legacy uploads; `aborts`: completions may be dropped between two statements. */
  datatype Traffic = Traffic(named: bool, metered: bool, derived: bool, legacy: bool, aborts: bool)

  ghost predicate Allowed(cfg: Config, t: Traffic, s: System, step: Step) {
    match step
    case Begin(_, job) => (t.named ==> job.up.app in s.db.apps) && (t.derived ==> Lifecycle.KeyDerived(job.up))
    case Statement(c, _) => t.metered && c in s.frames ==> SumFits(cfg, s.db, s.frames[c])
    case LegacyInsert(_, _, _, _, linked, _, _) => t.legacy && (t.named ==> linked)
    case Abort(_) => t.aborts
    case _ => true
  }

  ghost predicate Next(cfg: Config, k: nat, t: Traffic, s: System, s': System) {
    exists step :: Enabled(cfg, k, s, step) && Allowed(cfg, t, s, step) && s' == Apply(cfg, s, step)
  }

  /** A run: every state follows from the one before by one step. */
  ghost predicate Behavior(cfg: Config, k: nat, t: Traffic, states: seq<System>) {
    && states != []
    && forall i :: 0 <= i < |states| - 1 ==> Next(cfg, k, t, states[i], states[i + 1])
  }

  /** The step that leads to the next state of a run. */
  lemma StepAt(cfg: Config, k: nat, t: Traffic, states: seq<System>, i: nat) returns (step: Step)
    requires Behavior(cfg, k, t, states) && i + 1 < |states|
    ensures Enabled(cfg, k, states[i], step) && Allowed(cfg, t, states[i], step)
    ensures states[i + 1] == Apply(cfg, states[i], step)
  {
    hide Enabled, Allowed, Apply;
    assert Next(cfg, k, t, states[i], states[i + 1]);
    step :| Enabled(cfg, k, states[i], step) && Allowed(cfg, t, states[i], step)
            && states[i + 1] == Apply(cfg, states[i], step);
  }

  // ---- writers that the quota has let through, or is about to

  /** The request's row count was below the limit and it has not written yet. */
  predicate CountArmed(cfg: Config, f: Frame, a: nat) {
    && f.app == Some(a)
    && (f.pc == Write || (f.pc == SumBytes && cfg.MaxCount().Some? && f.count < cfg.MaxCount().value))
  }

  predicate BytesArmed(f: Frame, a: nat) {
    f.app == Some(a) && f.pc == Write
  }

  ghost function CountArmedOf(cfg: Config, frames: map<nat, Frame>, a: nat): set<nat> {
    set c | c in frames && CountArmed(cfg, frames[c], a)
  }

  ghost function ArmedSizes(frames: map<nat, Frame>, a: nat): map<nat, int> {
    map c | c in frames && BytesArmed(frames[c], a) :: frames[c].job.up.size
  }

  /** What a request may still add to application `a`. */
  ghost function CountLoad(cfg: Config, s: System, a: nat): int {
    StoredCount(s.db.rows, a) + |CountArmedOf(cfg, s.frames, a)|
  }

  ghost function BytesLoad(s: System, a: nat): int {
    StoredBytes(s.db.rows, a) + Total(ArmedSizes(s.frames, a))
  }

  // ---- the invariant

  ghost predicate Linked(rows: Rows) {
    forall d :: d in rows && rows[d].status == Stored ==> rows[d].app.Some?
  }

  predicate Unresolved(f: Frame) {
    f.pc == ResolveApp || (f.job.Multi? && f.pc == FindRow) || f.pc == Done
  }

  ghost predicate FrameOk(cfg: Config, db: Db, f: Frame) {
    && f.job.up.size >= 0 && f.job.up.app in db.apps
    && (Unresolved(f) || f.app.Some?)
    && (f.pc == Write && cfg.MaxBytes().Some? ==> f.job.up.size <= cfg.MaxBytes().value)
  }

  ghost predicate Shape(cfg: Config, k: nat, s: System) {
    && SizesOk(s.db.rows) && Linked(s.db.rows)
    && forall c :: c in s.frames ==> c < k && FrameOk(cfg, s.db, s.frames[c])
  }

  ghost predicate CountBounded(cfg: Config, k: nat, s: System) {
    cfg.MaxCount().Some? ==> forall a: nat :: CountLoad(cfg, s, a) <= cfg.MaxCount().value + k - 1
  }

  ghost predicate BytesBounded(cfg: Config, k: nat, s: System) {
    cfg.MaxBytes().Some? ==> forall a: nat :: BytesLoad(s, a) <= k * cfg.MaxBytes().value
  }

  ghost predicate Bounded(cfg: Config, k: nat, s: System) {
    Shape(cfg, k, s) && CountBounded(cfg, k, s) && BytesBounded(cfg, k, s)
  }

  // ---- how one frame's change moves the loads

  lemma CountArmedUpdate(cfg: Config, frames: map<nat, Frame>, c: nat, f: Frame, a: nat)
    ensures |CountArmedOf(cfg, frames[c := f], a)| ==
            |CountArmedOf(cfg, frames - {c}, a)| + (if CountArmed(cfg, f, a) then 1 else 0)
    ensures c in frames ==>
              |CountArmedOf(cfg, frames, a)| ==
              |CountArmedOf(cfg, frames - {c}, a)| + (if CountArmed(cfg, frames[c], a) then 1 else 0)
  {
    CountArmedAdd(cfg, frames, c, f, a);
    if c in frames {
      CountArmedAdd(cfg, frames, c, frames[c], a);
      assert frames[c := frames[c]] == frames;
    }
    hide CountArmedOf, CountArmed;
  }

  lemma CountArmedAdd(cfg: Config, frames: map<nat, Frame>, c: nat, f: Frame, a: nat)
    ensures |CountArmedOf(cfg, frames[c := f], a)| ==
            |CountArmedOf(cfg, frames - {c}, a)| + (if CountArmed(cfg, f, a) then 1 else 0)
  {
    hide CountArmed;
    var rest := CountArmedOf(cfg, frames - {c}, a);
    assert c !in rest;
    assert CountArmedOf(cfg, frames[c := f], a) == if CountArmed(cfg, f, a) then rest + {c} else rest;
  }

  lemma ArmedSizesUpdate(frames: map<nat, Frame>, c: nat, f: Frame, a: nat)
    ensures Total(ArmedSizes(frames[c := f], a)) ==
            Total(ArmedSizes(frames - {c}, a)) + (if BytesArmed(f, a) then f.job.up.size else 0)
    ensures c in frames ==>
              Total(ArmedSizes(frames, a)) ==
              Total(ArmedSizes(frames - {c}, a)) + (if BytesArmed(frames[c], a) then frames[c].job.up.size else 0)
  {
    var rest := ArmedSizes(frames - {c}, a);
    assert rest - {c} == rest;
    TotalUpdate(rest, c, f.job.up.size);
    assert ArmedSizes(frames[c := f], a) == if BytesArmed(f, a) then rest[c := f.job.up.size] else rest;
    if c in frames {
      TotalUpdate(rest, c, frames[c].job.up.size);
      assert ArmedSizes(frames, a) ==
             if BytesArmed(frames[c], a) then rest[c := frames[c].job.up.size] else rest;
    }
  }

  /** All other connections together: at most `k - 1` requests, at most `(k - 1) * limit` bytes. */
  lemma OthersBounded(cfg: Config, k: nat, s: System, c: nat, a: nat)
    requires Shape(cfg, k, s) && c < k
    ensures |CountArmedOf(cfg, s.frames - {c}, a)| <= k - 1
    ensures cfg.MaxBytes().Some? ==>
              Total(ArmedSizes(s.frames - {c}, a)) <= (k - 1) * cfg.MaxBytes().value
  {
    hide *;
    OthersFew(cfg, k, s, c, a);
    if cfg.MaxBytes().Some? { OthersBytes(cfg, k, s, c, a); }
  }

  lemma OthersBytes(cfg: Config, k: nat, s: System, c: nat, a: nat)
    requires Shape(cfg, k, s) && c < k && cfg.MaxBytes().Some?
    ensures Total(ArmedSizes(s.frames - {c}, a)) <= (k - 1) * cfg.MaxBytes().value
  {
    assert cfg.MaxBytes().value > 0;
    hide *;
    OthersFew(cfg, k, s, c, a);
    SizesSmall(cfg, k, s, c, a);
    TotalBound(ArmedSizes(s.frames - {c}, a), k - 1, cfg.MaxBytes().value);
  }

  lemma SizesSmall(cfg: Config, k: nat, s: System, c: nat, a: nat)
    requires Shape(cfg, k, s) && cfg.MaxBytes().Some?
    ensures var sizes := ArmedSizes(s.frames - {c}, a);
            forall o :: o in sizes ==> 0 <= sizes[o] <= cfg.MaxBytes().value
  {
  }

  lemma OthersFew(cfg: Config, k: nat, s: System, c: nat, a: nat)
    requires Shape(cfg, k, s) && c < k
    ensures |CountArmedOf(cfg, s.frames - {c}, a)| <= k - 1
    ensures |ArmedSizes(s.frames - {c}, a)| <= k - 1
  {
    var rest := s.frames - {c};
    assert forall o :: o in rest ==> o < k;
    FewerThan(rest.Keys, c, k);
    SubsetSize(CountArmedOf(cfg, rest, a), rest.Keys);
    SubsetSize(ArmedSizes(rest, a).Keys, rest.Keys);
  }

  lemma FewerThan(others: set<nat>, c: nat, k: nat)
    requires c < k && c !in others && forall o :: o in others ==> o < k
    ensures |others| <= k - 1
  {
    IndexSetBound(others + {c}, k);
    assert |others + {c}| == |others| + 1;
  }

  // ---- steps that arm nobody and store nothing

  /** The step changed frame `c` only, armed it in no new way, and stored no row. */
  lemma NeutralStatement(cfg: Config, k: nat, s: System, c: nat, db': Db, f': Frame)
    requires Bounded(cfg, k, s) && c in s.frames
    requires Quiet(s.db.rows, db'.rows)
    requires f'.pc != SumBytes
    requires f'.pc != Write || (cfg.MaxCount().None? && cfg.MaxBytes().None?)
    requires Shape(cfg, k, s.(db := db', frames := s.frames[c := f']))
    ensures Bounded(cfg, k, s.(db := db', frames := s.frames[c := f']))
  {
    hide Shape, Quiet;
    var s' := s.(db := db', frames := s.frames[c := f']);
    if cfg.MaxCount().Some? {
      forall a: nat ensures CountLoad(cfg, s', a) <= cfg.MaxCount().value + k - 1 {
        assert CountLoad(cfg, s, a) <= cfg.MaxCount().value + k - 1;
        CountArmedUpdate(cfg, s.frames, c, f', a);
        NeutralBounds(cfg, k, s, db', a);
      }
    }
    if cfg.MaxBytes().Some? {
      forall a: nat ensures BytesLoad(s', a) <= k * cfg.MaxBytes().value {
        assert BytesLoad(s, a) <= k * cfg.MaxBytes().value;
        ArmedSizesUpdate(s.frames, c, f', a);
        NeutralBounds(cfg, k, s, db', a);
        FrameSize(cfg, k, s, c);
      }
    }
  }

  lemma FrameSize(cfg: Config, k: nat, s: System, c: nat)
    requires Shape(cfg, k, s) && c in s.frames
    ensures s.frames[c].job.up.size >= 0
  {
  }

  lemma NeutralBounds(cfg: Config, k: nat, s: System, db': Db, a: nat)
    requires Shape(cfg, k, s) && Quiet(s.db.rows, db'.rows)
    ensures StoredCount(db'.rows, a) <= StoredCount(s.db.rows, a)
    ensures StoredBytes(db'.rows, a) <= StoredBytes(s.db.rows, a)
  {
    QuietBounds(s.db.rows, db'.rows, a);
  }

  // ---- the statements, one kind at a time

  /** What every statement keeps, apart from the quota arithmetic. */
  ghost predicate StatementOk(db: Db, f: Frame, db': Db, f': Frame) {
    && db'.apps == db.apps && f'.job == f.job
    && SizesOk(db'.rows) && Linked(db'.rows)
    && (Unresolved(f') || f'.app.Some?)
  }

  /** The statement stores nothing and does not lead to the write past a configured limit. */
  ghost predicate Harmless(cfg: Config, db: Db, db': Db, f': Frame) {
    && Quiet(db.rows, db'.rows) && f'.pc != SumBytes
    && (f'.pc != Write || (cfg.MaxCount().None? && cfg.MaxBytes().None?))
  }

  lemma ReadingStatement(cfg: Config, db: Db, f: Frame, env: Env)
    requires SizesOk(db.rows) && Linked(db.rows) && FrameOk(cfg, db, f)
    requires f.pc in {ResolveApp, FindRow, ReadKey, Inspect, LoadKeys, FindKey, PickObsolete, Done}
    ensures var next := Advance(cfg, db, f, env);
            next.0 == db && StatementOk(db, f, db, next.1) && Harmless(cfg, db, db, next.1)
  {
    hide SignatureOk, IdemTaken, RemoteCheck, Obsolete, OrElse, Wrap64, StoredBytes, LogEvent, DeleteIds,
         InsertRow, Finalized, Backfill, IdsOf, StorageKey, SizesOk, Linked;
  }

  lemma WritingStatement(cfg: Config, db: Db, f: Frame, env: Env)
    requires SizesOk(db.rows) && Linked(db.rows) && FrameOk(cfg, db, f)
    requires f.pc in {Link, LogStored, LogDelete, DeleteObsolete}
    ensures var next := Advance(cfg, db, f, env);
            StatementOk(db, f, next.0, next.1) && Harmless(cfg, db, next.0, next.1)
  {
    hide SignatureOk, IdemTaken, RemoteCheck, Obsolete, OrElse, Wrap64, StoredBytes,
         InsertRow, Finalized, IdsOf, StorageKey, WriteStep, FindStep, ToQuota;
  }

  /** The write replaces or adds one row, with the size and application of its request; or it fails. */
  lemma WriteStatement(cfg: Config, db: Db, f: Frame, env: Env)
    requires SizesOk(db.rows) && Linked(db.rows) && FrameOk(cfg, db, f) && f.pc == Write
    ensures var next := Advance(cfg, db, f, env); var d := f.job.up.digest;
            && StatementOk(db, f, next.0, next.1)
            && next.1.pc in {Done, LogStored}
            && (next.0.rows == db.rows ||
                (d in next.0.rows && next.0.rows == db.rows[d := next.0.rows[d]]
                 && next.0.rows[d].size == f.job.up.size && next.0.rows[d].app == f.app))
  {
    hide IdemTaken, StorageKey, OrElse, FindStep, ToQuota;
    var next := WriteStep(cfg, db, f, env);
    assert Advance(cfg, db, f, env) == next;
  }

  /** CountRows arms the request, but only when the count it read was below the limit. */
  lemma CountStatement(cfg: Config, k: nat, s: System, c: nat, f': Frame)
    requires Bounded(cfg, k, s) && c in s.frames && s.frames[c].pc == CountRows && s.frames[c].app.Some?
    requires f' == s.frames[c].(count := StoredCount(s.db.rows, s.frames[c].app.value), pc := SumBytes)
    ensures Bounded(cfg, k, s.(frames := s.frames[c := f']))
  {
    hide StoredCount, StoredBytes;
    var s' := s.(frames := s.frames[c := f']);
    forall a: nat
      ensures cfg.MaxCount().Some? ==> CountLoad(cfg, s', a) <= cfg.MaxCount().value + k - 1
      ensures cfg.MaxBytes().Some? ==> BytesLoad(s', a) <= k * cfg.MaxBytes().value
    {
      CountArmedUpdate(cfg, s.frames, c, f', a);
      ArmedSizesUpdate(s.frames, c, f', a);
      OthersBounded(cfg, k, s, c, a);
      assert cfg.MaxCount().Some? ==> CountLoad(cfg, s, a) <= cfg.MaxCount().value + k - 1;
      assert cfg.MaxBytes().Some? ==> BytesLoad(s, a) <= k * cfg.MaxBytes().value;
    }
  }

  lemma LoadNonnegative(cfg: Config, k: nat, s: System, a: nat)
    requires Shape(cfg, k, s)
    ensures 0 <= StoredBytes(s.db.rows, a) <= BytesLoad(s, a)
  {
    TotalNonnegative(SizesOf(s.db.rows, a));
    TotalNonnegative(ArmedSizes(s.frames, a));
  }

  /** SumBytes lets a request through only if the sum it read leaves room for the request. */
  lemma SumStatement(cfg: Config, k: nat, s: System, c: nat, f': Frame)
    requires Bounded(cfg, k, s) && c in s.frames && s.frames[c].pc == SumBytes && s.frames[c].app.Some?
    requires f' == s.frames[c].(pc := Write)
    requires cfg.MaxCount().Some? ==> s.frames[c].count < cfg.MaxCount().value
    requires cfg.MaxBytes().Some? ==>
               Wrap64(StoredBytes(s.db.rows, s.frames[c].app.value) + f'.job.up.size) <= cfg.MaxBytes().value
    requires SumFits(cfg, s.db, s.frames[c])
    ensures Bounded(cfg, k, s.(frames := s.frames[c := f']))
  {
    hide StoredCount, StoredBytes;
    var s' := s.(frames := s.frames[c := f']);
    var b := f'.app.value;
    LoadNonnegative(cfg, k, s, b);
    if cfg.MaxBytes().Some? {
      assert BytesLoad(s, b) <= k * cfg.MaxBytes().value;
      assert StoredBytes(s.db.rows, b) + f'.job.up.size <= cfg.MaxBytes().value;
    }
    forall a: nat
      ensures cfg.MaxCount().Some? ==> CountLoad(cfg, s', a) <= cfg.MaxCount().value + k - 1
      ensures cfg.MaxBytes().Some? ==> BytesLoad(s', a) <= k * cfg.MaxBytes().value
    {
      CountArmedUpdate(cfg, s.frames, c, f', a);
      ArmedSizesUpdate(s.frames, c, f', a);
      OthersBounded(cfg, k, s, c, a);
      assert cfg.MaxCount().Some? ==> CountLoad(cfg, s, a) <= cfg.MaxCount().value + k - 1;
      assert cfg.MaxBytes().Some? ==> BytesLoad(s, a) <= k * cfg.MaxBytes().value;
      if cfg.MaxBytes().Some? { LessOne(k, cfg.MaxBytes().value); }
    }
  }

  lemma LessOne(k: int, limit: int)
    ensures (k - 1) * limit + limit == k * limit
  {
  }

  /** The write spends exactly what its request was armed for. */
  lemma SpendStatement(cfg: Config, k: nat, s: System, c: nat, db': Db, f': Frame)
    requires Bounded(cfg, k, s) && c in s.frames && s.frames[c].pc == Write
    requires Shape(cfg, k, s.(db := db', frames := s.frames[c := f'])) && f'.pc in {Done, LogStored}
    requires var f, d := s.frames[c], s.frames[c].job.up.digest;
             db'.rows == s.db.rows ||
             (d in db'.rows && db'.rows == s.db.rows[d := db'.rows[d]]
              && db'.rows[d].size == f.job.up.size && db'.rows[d].app == f.app)
    ensures Bounded(cfg, k, s.(db := db', frames := s.frames[c := f']))
  {
    hide StoredCount, StoredBytes, FrameOk;
    var s' := s.(db := db', frames := s.frames[c := f']);
    var d := s.frames[c].job.up.digest;
    FrameSize(cfg, k, s, c);
    forall a: nat
      ensures cfg.MaxCount().Some? ==> CountLoad(cfg, s', a) <= cfg.MaxCount().value + k - 1
      ensures cfg.MaxBytes().Some? ==> BytesLoad(s', a) <= k * cfg.MaxBytes().value
    {
      CountArmedUpdate(cfg, s.frames, c, f', a);
      ArmedSizesUpdate(s.frames, c, f', a);
      if db'.rows != s.db.rows { WriteBounds(s.db.rows, d, db'.rows[d], a); }
      assert cfg.MaxCount().Some? ==> CountLoad(cfg, s, a) <= cfg.MaxCount().value + k - 1;
      assert cfg.MaxBytes().Some? ==> BytesLoad(s, a) <= k * cfg.MaxBytes().value;
    }
  }

  lemma StatementShape(cfg: Config, k: nat, s: System, c: nat, db': Db, f': Frame)
    requires Shape(cfg, k, s) && c in s.frames && StatementOk(s.db, s.frames[c], db', f')
    requires f'.pc == Write && cfg.MaxBytes().Some? ==> f'.job.up.size <= cfg.MaxBytes().value
    ensures Shape(cfg, k, s.(db := db', frames := s.frames[c := f']))
  {
  }

  /** The two quota statements, as Advance runs them. */
  lemma QuotaStatement(cfg: Config, k: nat, s: System, c: nat, env: Env)
    requires Bounded(cfg, k, s) && c in s.frames && s.frames[c].pc in {CountRows, SumBytes}
    requires SumFits(cfg, s.db, s.frames[c])
    ensures Bounded(cfg, k, Apply(cfg, s, Statement(c, env)))
  {
    var f := s.frames[c];
    var f' := Advance(cfg, s.db, f, env).1;
    AdvanceQuota(cfg, s.db, f, env);
    hide Advance;
    if f.pc == CountRows {
      CountStatement(cfg, k, s, c, f');
    } else if f'.pc == Write {
      SumStatement(cfg, k, s, c, f');
    } else {
      StatementShape(cfg, k, s, c, s.db, f');
      NeutralStatement(cfg, k, s, c, s.db, f');
    }
  }

  lemma AdvanceQuota(cfg: Config, db: Db, f: Frame, env: Env)
    requires f.app.Some? && f.pc in {CountRows, SumBytes}
    ensures var next := Advance(cfg, db, f, env); var f' := next.1;
            && next.0 == db
            && (f.pc == CountRows ==> f' == f.(count := StoredCount(db.rows, f.app.value), pc := SumBytes))
            && (f.pc == SumBytes ==>
                  if f'.pc == Write then
                    && f' == f.(pc := Write)
                    && (cfg.MaxCount().Some? ==> f.count < cfg.MaxCount().value)
                    && (cfg.MaxBytes().Some? ==>
                          Wrap64(StoredBytes(db.rows, f.app.value) + f.job.up.size) <= cfg.MaxBytes().value)
                  else f'.pc == Done && f'.job == f.job && f'.app == f.app)
  {
    hide StoredBytes, StoredCount, Wrap64;
  }

  lemma StatementBounded(cfg: Config, k: nat, s: System, c: nat, env: Env)
    requires Bounded(cfg, k, s) && c in s.frames && SumFits(cfg, s.db, s.frames[c])
    ensures Bounded(cfg, k, Apply(cfg, s, Statement(c, env)))
  {
    hide Advance, SizesOk, Linked, Harmless, StatementOk, CountBounded, BytesBounded;
    var f := s.frames[c];
    if f.pc in {CountRows, SumBytes} {
      QuotaStatement(cfg, k, s, c, env);
    } else {
      var next := Advance(cfg, s.db, f, env);
      if f.pc == Write {
        WriteStatement(cfg, s.db, f, env);
        StatementShape(cfg, k, s, c, next.0, next.1);
        SpendStatement(cfg, k, s, c, next.0, next.1);
      } else {
        if f.pc in {Link, LogStored, LogDelete, DeleteObsolete} {
          WritingStatement(cfg, s.db, f, env);
        } else {
          ReadingStatement(cfg, s.db, f, env);
        }
        HarmlessStatement(cfg, k, s, c, next.0, next.1);
      }
    }
  }

  lemma HarmlessStatement(cfg: Config, k: nat, s: System, c: nat, db': Db, f': Frame)
    requires Bounded(cfg, k, s) && c in s.frames
    requires StatementOk(s.db, s.frames[c], db', f') && Harmless(cfg, s.db, db', f')
    ensures Bounded(cfg, k, s.(db := db', frames := s.frames[c := f']))
  {
    StatementShape(cfg, k, s, c, db', f');
    hide Bounded, Shape, Quiet, StatementOk;
    NeutralStatement(cfg, k, s, c, db', f');
  }

  // ---- the other steps

  lemma BeginBounded(cfg: Config, k: nat, s: System, c: nat, job: Job)
    requires Bounded(cfg, k, s) && Enabled(cfg, k, s, Begin(c, job)) && job.up.app in s.db.apps
    ensures Bounded(cfg, k, Apply(cfg, s, Begin(c, job)))
  {
    hide StoredCount, StoredBytes, IsHex, Blank;
    var s' := Apply(cfg, s, Begin(c, job));
    assert s.frames - {c} == s.frames;
    forall a: nat ensures CountLoad(cfg, s', a) == CountLoad(cfg, s, a) && BytesLoad(s', a) == BytesLoad(s, a) {
      CountArmedUpdate(cfg, s.frames, c, Start(job), a);
      ArmedSizesUpdate(s.frames, c, Start(job), a);
    }
  }

  /** A request that leaves, finished or not, takes with it what it could still add. */
  lemma LeaveBounded(cfg: Config, k: nat, s: System, c: nat)
    requires Bounded(cfg, k, s) && c in s.frames
    ensures Bounded(cfg, k, s.(frames := s.frames - {c}))
  {
    FrameSize(cfg, k, s, c);
    hide StoredCount, StoredBytes, FrameOk;
    var s' := s.(frames := s.frames - {c});
    forall a: nat ensures CountLoad(cfg, s', a) <= CountLoad(cfg, s, a) && BytesLoad(s', a) <= BytesLoad(s, a) {
      CountArmedUpdate(cfg, s.frames, c, s.frames[c], a);
      ArmedSizesUpdate(s.frames, c, s.frames[c], a);
    }
  }

  /** Presign, multipart init, pending GC and registrations store nothing. */
  lemma BackgroundQuiet(cfg: Config, k: nat, s: System, step: Step)
    requires Shape(cfg, k, s) && !step.Begin? && !step.Statement?
    requires !step.Release? && !step.Abort? && !step.LegacyInsert?
    ensures var s' := Apply(cfg, s, step);
            s'.frames == s.frames && Quiet(s.db.rows, s'.db.rows) && Shape(cfg, k, s')
  {
    if step.InitUpsert? && step.c in s.inits { UpsertQuiet(s.db, s.inits[step.c], step.uploadId, step.now); }
    hide StorageKey, Upsert, SumFits;
  }

  lemma UpsertQuiet(db: Db, job: InitJob, uploadId: string, now: int)
    requires SizesOk(db.rows) && Linked(db.rows)
    ensures var db' := Upsert(db, job, uploadId, now);
            Quiet(db.rows, db'.rows) && SizesOk(db'.rows) && Linked(db'.rows) && db'.apps == db.apps
  {
    hide StorageKey;
  }

  lemma BackgroundBounded(cfg: Config, k: nat, s: System, step: Step)
    requires Bounded(cfg, k, s) && !step.Begin? && !step.Statement?
    requires !step.Release? && !step.Abort? && !step.LegacyInsert?
    ensures Bounded(cfg, k, Apply(cfg, s, step))
  {
    BackgroundQuiet(cfg, k, s, step);
    hide Apply, Shape, Quiet;
    var s' := Apply(cfg, s, step);
    forall a: nat
      ensures cfg.MaxCount().Some? ==> CountLoad(cfg, s', a) <= cfg.MaxCount().value + k - 1
      ensures cfg.MaxBytes().Some? ==> BytesLoad(s', a) <= k * cfg.MaxBytes().value
    {
      NeutralBounds(cfg, k, s, s'.db, a);
      assert cfg.MaxCount().Some? ==> CountLoad(cfg, s, a) <= cfg.MaxCount().value + k - 1;
      assert cfg.MaxBytes().Some? ==> BytesLoad(s, a) <= k * cfg.MaxBytes().value;
    }
  }

  /** Every step of every metered interleaving without legacy uploads keeps the loads bounded. */
  lemma StepBounded(cfg: Config, k: nat, t: Traffic, s: System, step: Step)
    requires Bounded(cfg, k, s) && Enabled(cfg, k, s, step) && Allowed(cfg, t, s, step)
    requires t.named && t.metered && !t.legacy
    ensures Bounded(cfg, k, Apply(cfg, s, step))
  {
    hide Bounded, SumFits, Advance, Upsert, RegisterApp;
    match step
    case Begin(c, job) => BeginBounded(cfg, k, s, c, job);
    case Statement(c, env) => StatementBounded(cfg, k, s, c, env);
    case Release(c) => LeaveBounded(cfg, k, s, c);
    case Abort(c) => LeaveBounded(cfg, k, s, c);
    case LegacyInsert(_, _, _, _, _, _, _) => assert false;
    case _ => BackgroundBounded(cfg, k, s, step);
  }

  // ---- the theorem

  /** No request in flight, every stored row belongs to an application, and all quotas hold. */
  ghost predicate Initial(cfg: Config, s: System) {
    && s.frames == map[] && s.inits == map[] && SizesOk(s.db.rows) && Linked(s.db.rows)
    && forall a: nat ::
         && (cfg.MaxCount().Some? ==> StoredCount(s.db.rows, a) <= cfg.MaxCount().value)
         && (cfg.MaxBytes().Some? ==> StoredBytes(s.db.rows, a) <= cfg.MaxBytes().value)
  }

  lemma InitialBounded(cfg: Config, k: nat, s: System)
    requires Initial(cfg, s) && k > 0
    ensures Bounded(cfg, k, s)
  {
    forall a: nat
      ensures cfg.MaxCount().Some? ==> CountLoad(cfg, s, a) <= cfg.MaxCount().value + k - 1
      ensures cfg.MaxBytes().Some? ==> BytesLoad(s, a) <= k * cfg.MaxBytes().value
    {
      assert CountArmedOf(cfg, s.frames, a) == {};
      assert ArmedSizes(s.frames, a) == map[];
      if cfg.MaxBytes().Some? { LessOne(k, cfg.MaxBytes().value); ProductNonnegative(k - 1, cfg.MaxBytes().value); }
    }
  }

  lemma {:induction false} BehaviorBounded(cfg: Config, k: nat, t: Traffic, states: seq<System>, i: nat)
    requires k > 0 && Behavior(cfg, k, t, states) && Initial(cfg, states[0]) && i < |states|
    requires t.named && t.metered && !t.legacy
    ensures Bounded(cfg, k, states[i])
    decreases i
  {
    hide Bounded, Initial, Apply, Enabled, Allowed;
    if i == 0 {
      InitialBounded(cfg, k, states[0]);
    } else {
      BehaviorBounded(cfg, k, t, states, i - 1);
      var step := StepAt(cfg, k, t, states, i - 1);
      StepBounded(cfg, k, t, states[i - 1], step);
    }
  }

  /** Over every interleaving of the statements of at most `k` requests in flight, finished or dropped, with
      presigns, registrations and both garbage collectors, an application never has more than `limit + k - 1`
      stored rows, nor more than `k * limit` stored bytes. */
  lemma QuotaOvershootBound(cfg: Config, k: nat, t: Traffic, states: seq<System>, i: nat, a: nat)
    requires k > 0 && Behavior(cfg, k, t, states) && Initial(cfg, states[0]) && i < |states|
    requires t.named && t.metered && !t.legacy
    ensures cfg.MaxCount().Some? ==> StoredCount(states[i].db.rows, a) <= cfg.MaxCount().value + k - 1
    ensures cfg.MaxBytes().Some? ==> StoredBytes(states[i].db.rows, a) <= k * cfg.MaxBytes().value
  {
    BehaviorBounded(cfg, k, t, states, i);
    var s := states[i];
    LoadNonnegative(cfg, k, s, a);
    assert cfg.MaxCount().Some? ==> CountLoad(cfg, s, a) <= cfg.MaxCount().value + k - 1;
    assert cfg.MaxBytes().Some? ==> BytesLoad(s, a) <= k * cfg.MaxBytes().value;
  }

  /** With one connection the documented quotas hold exactly. */
  lemma OneConnectionIsExact(cfg: Config, t: Traffic, states: seq<System>, i: nat, a: nat)
    requires Behavior(cfg, 1, t, states) && Initial(cfg, states[0]) && i < |states|
    requires t.named && t.metered && !t.legacy
    ensures cfg.MaxCount().Some? ==> StoredCount(states[i].db.rows, a) <= cfg.MaxCount().value
    ensures cfg.MaxBytes().Some? ==> StoredBytes(states[i].db.rows, a) <= cfg.MaxBytes().value
  {
    QuotaOvershootBound(cfg, 1, t, states, i, a);
  }
}
