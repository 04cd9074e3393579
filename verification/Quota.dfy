/** Per-application quotas and retention over runs of uninterrupted requests. */
module QuotaRuns {
  import opened Prelude
  import opened Sums
  import opened Schema
  import opened Handlers
  import opened Invariant
  import opened Retention

  // ---- how a write moves the quota queries

  ghost predicate SizesOk(rows: Rows) {
    forall d :: d in rows ==> rows[d].size >= 0
  }

  /** No row becomes stored, changes size or changes application; rows may disappear. */
  ghost predicate Quiet(rows: Rows, rows': Rows) {
    forall d :: d in rows' && rows'[d].status == Stored ==>
      d in rows && rows[d].status == Stored && rows[d].app == rows'[d].app && rows[d].size == rows'[d].size
  }

  lemma QuietBounds(rows: Rows, rows': Rows, a: nat)
    requires Quiet(rows, rows') && SizesOk(rows)
    ensures StoredCount(rows', a) <= StoredCount(rows, a)
    ensures StoredBytes(rows', a) <= StoredBytes(rows, a)
  {
    SubsetSize(StoredOf(rows', a), StoredOf(rows, a));
    TotalSubset(SizesOf(rows', a), SizesOf(rows, a));
  }

  lemma WriteCountBound(rows: Rows, d: string, row: Row, a: nat)
    ensures StoredCount(rows[d := row], a) <= StoredCount(rows, a) + (if row.app == Some(a) then 1 else 0)
  {
    var before, after := StoredOf(rows, a), StoredOf(rows[d := row], a);
    SubsetSize(after - {d}, before);
    assert after == if d in after then (after - {d}) + {d} else after - {d};
  }

  lemma WriteBytesBound(rows: Rows, d: string, row: Row, a: nat)
    requires SizesOk(rows) && row.size >= 0
    ensures StoredBytes(rows[d := row], a) <= StoredBytes(rows, a) + (if row.app == Some(a) then row.size else 0)
  {
    var before, after := SizesOf(rows, a), SizesOf(rows[d := row], a);
    TotalSubset(after - {d}, before);
    if d in after { TotalWithout(after, d); } else { assert after - {d} == after; }
  }

  /** Writing one row adds at most that row to its application, and nothing to any other. */
  lemma WriteBounds(rows: Rows, d: string, row: Row, a: nat)
    requires SizesOk(rows) && row.size >= 0
    ensures StoredCount(rows[d := row], a) <= StoredCount(rows, a) + (if row.app == Some(a) then 1 else 0)
    ensures StoredBytes(rows[d := row], a) <= StoredBytes(rows, a) + (if row.app == Some(a) then row.size else 0)
  {
    WriteCountBound(rows, d, row, a);
    WriteBytesBound(rows, d, row, a);
    hide StoredCount, StoredBytes, SizesOk;
  }

  // ---- the i64 comparison

  /** The byte check decides `used + incoming > limit` exactly when that sum fits in an i64. */
  lemma ByteCheckExact(used: int, incoming: int, limit: int)
    requires 0 <= used <= I64_MAX && 0 <= incoming <= I64_MAX && 0 < limit <= I64_MAX
    ensures (Wrap64(used + incoming) > limit <==> used + incoming > limit) <==> used + incoming <= I64_MAX
  {
    if used + incoming > I64_MAX {
      assert (used + incoming + I64_MAX + 1) % (2 * (I64_MAX + 1)) == used + incoming - I64_MAX - 1;
    }
  }

  /** Storing a row adds one row and its size to its application. */
  lemma InsertAdds(rows: Rows, d: string, row: Row, a: nat)
    requires d !in StoredOf(rows, a) && row.app == Some(a) && row.status == Stored
    ensures StoredCount(rows[d := row], a) == StoredCount(rows, a) + 1
    ensures StoredBytes(rows[d := row], a) == StoredBytes(rows, a) + row.size
  {
    assert StoredOf(rows[d := row], a) == StoredOf(rows, a) + {d};
    var sizes := SizesOf(rows, a);
    assert SizesOf(rows[d := row], a) == sizes[d := row.size];
    assert sizes - {d} == sizes;
    TotalUpdate(sizes, d, row.size);
  }

  /** The check admits a row exactly when the application is within both quotas once that row is stored. */
  lemma AdmitsExactlyWhatFits(cfg: Config, rows: Rows, a: nat, d: string, row: Row)
    requires d !in StoredOf(rows, a) && row.app == Some(a) && row.status == Stored && row.size >= 0
    requires SizesOk(rows) && StoredBytes(rows, a) + row.size <= I64_MAX
    ensures Quota(cfg, rows, a, row.size).None? <==>
              && (cfg.MaxCount().Some? ==> StoredCount(rows[d := row], a) <= cfg.MaxCount().value)
              && (cfg.MaxBytes().Some? ==> StoredBytes(rows[d := row], a) <= cfg.MaxBytes().value)
  {
    InsertAdds(rows, d, row, a);
    TotalNonnegative(SizesOf(rows, a));
    hide StoredCount;
  }

  // ---- quotas and retention hold after every request

  ghost predicate CountWithin(cfg: Config, rows: Rows, a: nat) {
    && (cfg.MaxCount().Some? ==> StoredCount(rows, a) <= cfg.MaxCount().value)
    && (cfg.Retain() > 0 ==> StoredCount(rows, a) <= cfg.Retain())
  }

  ghost predicate BytesWithin(cfg: Config, rows: Rows, a: nat) {
    cfg.MaxBytes().Some? ==> StoredBytes(rows, a) <= cfg.MaxBytes().value
  }

  ghost predicate AllCounts(cfg: Config, rows: Rows) {
    forall a: nat :: CountWithin(cfg, rows, a)
  }

  ghost predicate AllBytes(cfg: Config, rows: Rows) {
    forall a: nat :: BytesWithin(cfg, rows, a)
  }

  /** The sum that a completion would compare with the byte limit, if there is one, fits in an i64. */
  ghost predicate Summable(cfg: Config, db: Db, req: Request) {
    (req.Complete? || req.MultipartComplete?) && cfg.MaxBytes().Some? && req.up.app in db.apps ==>
      StoredBytes(db.rows, db.apps[req.up.app]) + req.up.size <= I64_MAX
  }

  /** The retention step deletes the obsolete rows and nothing else. */
  lemma RetainRows(cfg: Config, db: Db, a: nat, tie: TieBreak)
    requires DistinctIds(db.rows) && cfg.Retain() > 0
    ensures Retain(cfg, db, Some(a), tie).rows == db.rows - Obsolete(db.rows, a, cfg.Retain(), tie)
  {
    var gone := Obsolete(db.rows, a, cfg.Retain(), tie);
    var ids := IdsOf(db.rows, gone);
    assert forall d :: d in db.rows ==> (db.rows[d].id in ids <==> d in gone);
    assert forall d :: d in gone ==> db.rows[d].id in ids;
  }

  lemma MinusEffect(rows: Rows, gone: set<string>, a: nat)
    requires gone <= StoredOf(rows, a)
    ensures rows.Keys - (rows - gone).Keys == gone
    ensures StoredCount(rows - gone, a) == StoredCount(rows, a) - |gone|
  {
    assert StoredOf(rows - gone, a) == StoredOf(rows, a) - gone;
  }

  /** Afterwards the application keeps the smaller of its old count and the limit; the rows that went
      are the surplus, and all others stay as they were. */
  lemma RetainEffect(cfg: Config, db: Db, a: nat, tie: TieBreak, rows': Rows)
    requires DistinctIds(db.rows) && cfg.Retain() > 0 && rows' == Retain(cfg, db, Some(a), tie).rows
    ensures StoredCount(rows', a) ==
            if StoredCount(db.rows, a) > cfg.Retain() then cfg.Retain() else StoredCount(db.rows, a)
    ensures SurplusOf(db.rows, a, cfg.Retain(), db.rows.Keys - rows'.Keys)
    ensures forall d :: d in rows' ==> d in db.rows && rows'[d] == db.rows[d]
  {
    hide *;
    RetainRows(cfg, db, a, tie);
    ObsoleteIsSurplus(db.rows, a, cfg.Retain(), tie);
    MinusEffect(db.rows, Obsolete(db.rows, a, cfg.Retain(), tie), a);
  }

  lemma QuietWithin(cfg: Config, rows: Rows, rows': Rows)
    requires Quiet(rows, rows') && SizesOk(rows)
    ensures AllCounts(cfg, rows) ==> AllCounts(cfg, rows')
    ensures AllBytes(cfg, rows) ==> AllBytes(cfg, rows')
  {
    forall a: nat
      ensures CountWithin(cfg, rows, a) ==> CountWithin(cfg, rows', a)
      ensures BytesWithin(cfg, rows, a) ==> BytesWithin(cfg, rows', a)
    {
      QuietBounds(rows, rows', a);
    }
  }

  lemma QuietCount(rows: Rows, rows': Rows, a: nat)
    requires Quiet(rows, rows')
    ensures StoredCount(rows', a) <= StoredCount(rows, a)
  {
    SubsetSize(StoredOf(rows', a), StoredOf(rows, a));
  }

  lemma RetainCount(cfg: Config, db: Db, a: nat, tie: TieBreak)
    requires DistinctIds(db.rows) && cfg.Retain() > 0
    ensures StoredCount(Retain(cfg, db, Some(a), tie).rows, a) <= cfg.Retain()
  {
    RetainEffect(cfg, db, a, tie, Retain(cfg, db, Some(a), tie).rows);
  }

  lemma RetainQuiet(cfg: Config, db: Db, app: Option<nat>, tie: TieBreak)
    ensures Quiet(db.rows, Retain(cfg, db, app, tie).rows)
  {
  }

  /** The write that quota admitted, followed by retention, stays within the count limits. */
  lemma WriteCountWithin(cfg: Config, rows: Rows, written: Db, d: string, tie: TieBreak, b: nat)
    requires SizesOk(rows) && DistinctIds(written.rows) && CountWithin(cfg, rows, b)
    requires d in written.rows && written.rows == rows[d := written.rows[d]] && written.rows[d].size >= 0
    requires QuotaIfLinked(cfg, rows, written.rows[d].app, written.rows[d].size).None?
    ensures CountWithin(cfg, Retain(cfg, written, written.rows[d].app, tie).rows, b)
  {
    var app := written.rows[d].app;
    var out := Retain(cfg, written, app, tie).rows;
    assert app == Some(b) && cfg.MaxCount().Some? ==> StoredCount(rows, b) < cfg.MaxCount().value;
    RetainQuiet(cfg, written, app, tie);
    hide QuotaIfLinked, Retain, StoredCount, StoredBytes, SizesOk, DistinctIds, Quiet;
    WriteCountBound(rows, d, written.rows[d], b);
    assert StoredCount(written.rows, b) <= StoredCount(rows, b) + (if app == Some(b) then 1 else 0);
    QuietCount(written.rows, out, b);
    if app == Some(b) && cfg.Retain() > 0 { RetainCount(cfg, written, b, tie); }
  }

  /** And within the byte quota, if the sum that it compared was right. */
  lemma WriteBytesWithin(cfg: Config, rows: Rows, written: Db, d: string, tie: TieBreak, b: nat)
    requires SizesOk(rows) && BytesWithin(cfg, rows, b)
    requires d in written.rows && written.rows == rows[d := written.rows[d]] && written.rows[d].size >= 0
    requires QuotaIfLinked(cfg, rows, written.rows[d].app, written.rows[d].size).None?
    requires written.rows[d].app == Some(b) && cfg.MaxBytes().Some? ==>
               StoredBytes(rows, b) + written.rows[d].size <= I64_MAX
    ensures BytesWithin(cfg, Retain(cfg, written, written.rows[d].app, tie).rows, b)
  {
    RetainQuiet(cfg, written, written.rows[d].app, tie);
    hide Retain;
    WriteBounds(rows, d, written.rows[d], b);
    QuietBounds(written.rows, Retain(cfg, written, written.rows[d].app, tie).rows, b);
    TotalNonnegative(SizesOf(rows, b));
  }

  lemma StoresWithin(cfg: Config, db: Db, up: Upload, env: Env, base: Db, written: Db, out: Db)
    requires Stores(cfg, db, up, env, base, written, out)
    ensures AllCounts(cfg, base.rows) ==> AllCounts(cfg, out.rows)
    ensures AllBytes(cfg, base.rows) && Summable(cfg, base, Complete(up)) ==> AllBytes(cfg, out.rows)
  {
    WriteKeepsTables(cfg, base, written, up.digest);
    var logged := LogEvent(written, written.rows[up.digest].id, StoredEvent);
    assert SizesOk(base.rows) && DistinctIds(written.rows) && logged.rows == written.rows;
    hide StoredCount, StoredBytes, Wrap64, RowOk, VerifiedRow, IdemTaken, IsHex, SizesOk, DistinctIds, Inv, LogEvent,
         Retain, QuotaIfLinked, CountWithin, BytesWithin;
    forall b: nat
      ensures CountWithin(cfg, base.rows, b) ==> CountWithin(cfg, out.rows, b)
      ensures BytesWithin(cfg, base.rows, b) && Summable(cfg, base, Complete(up)) ==> BytesWithin(cfg, out.rows, b)
    {
      if CountWithin(cfg, base.rows, b) { WriteCountWithin(cfg, base.rows, logged, up.digest, env.tie, b); }
      if BytesWithin(cfg, base.rows, b) && Summable(cfg, base, Complete(up)) {
        WriteBytesWithin(cfg, base.rows, logged, up.digest, env.tie, b);
      }
    }
  }

  lemma CompletionWithin(cfg: Config, db: Db, req: Request, env: Env)
    requires Inv(cfg, db) && (req.Complete? || req.MultipartComplete?)
    ensures AllCounts(cfg, db.rows) ==> AllCounts(cfg, Handle(cfg, db, req, env).db.rows)
    ensures AllBytes(cfg, db.rows) && Summable(cfg, db, req) ==> AllBytes(cfg, Handle(cfg, db, req, env).db.rows)
  {
    hide Handle, AllCounts, AllBytes, WritesRow, Final, LogAndRetain, QuotaIfLinked, NewlyStored;
    var base, written := CompletionStages(cfg, db, req, env);
    var out := Handle(cfg, db, req, env);
    if NewlyStored(db, req, out.reply) {
      QuietWithin(cfg, db.rows, base.rows);
      if req.up.app in db.apps { QuietBounds(db.rows, base.rows, db.apps[req.up.app]); }
      StoresWithin(cfg, db, req.up, env, base, written, out.db);
    } else {
      QuietWithin(cfg, db.rows, out.db.rows);
    }
  }

  lemma OtherRequestsQuiet(cfg: Config, db: Db, req: Request, env: Env)
    requires !req.Complete? && !req.MultipartComplete? && !req.LegacyUpload?
    ensures Quiet(db.rows, Handle(cfg, db, req, env).db.rows)
  {
  }

  lemma HandleWithin(cfg: Config, db: Db, req: Request, env: Env)
    requires Inv(cfg, db) && !req.LegacyUpload?
    ensures AllCounts(cfg, db.rows) ==> AllCounts(cfg, Handle(cfg, db, req, env).db.rows)
    ensures AllBytes(cfg, db.rows) && Summable(cfg, db, req) ==> AllBytes(cfg, Handle(cfg, db, req, env).db.rows)
  {
    hide Summable;
    if req.Complete? || req.MultipartComplete? {
      CompletionWithin(cfg, db, req, env);
    } else {
      OtherRequestsQuiet(cfg, db, req, env);
      QuietWithin(cfg, db.rows, Handle(cfg, db, req, env).db.rows);
    }
  }

  predicate NoLegacy(calls: seq<Call>) {
    forall i :: 0 <= i < |calls| ==> !calls[i].req.LegacyUpload?
  }

  /** At every call of the run, the byte check compares a sum that fits in an i64. */
  ghost predicate AllSummable(cfg: Config, db: Db, calls: seq<Call>) {
    forall i :: 0 <= i < |calls| ==> Summable(cfg, Run(cfg, db, calls[..i]), calls[i].req)
  }

  /** Over every run without legacy uploads, after every request each application is within the count
      quota and the retention limit at once. */
  lemma {:induction false} CountAndRetention(cfg: Config, db: Db, calls: seq<Call>)
    requires Inv(cfg, db) && AllCounts(cfg, db.rows) && NoLegacy(calls)
    ensures AllCounts(cfg, Run(cfg, db, calls).rows)
    decreases |calls|
  {
    if calls != [] {
      var init, last := calls[..|calls| - 1], calls[|calls| - 1];
      CountAndRetention(cfg, db, init);
      RunKeeps(cfg, db, init);
      HandleWithin(cfg, Run(cfg, db, init), last.req, last.env);
    }
  }

  /** If moreover every sum fits in an i64, each application is also within the byte quota. */
  lemma {:induction false} QuotaAndRetention(cfg: Config, db: Db, calls: seq<Call>)
    requires Inv(cfg, db) && AllCounts(cfg, db.rows) && AllBytes(cfg, db.rows)
    requires NoLegacy(calls) && AllSummable(cfg, db, calls)
    ensures AllCounts(cfg, Run(cfg, db, calls).rows)
    ensures AllBytes(cfg, Run(cfg, db, calls).rows)
    decreases |calls|
  {
    CountAndRetention(cfg, db, calls);
    if calls != [] {
      var init, last := calls[..|calls| - 1], calls[|calls| - 1];
      forall i | 0 <= i < |init| ensures Summable(cfg, Run(cfg, db, init[..i]), init[i].req) {
        assert init[..i] == calls[..i] && Summable(cfg, Run(cfg, db, calls[..i]), calls[i].req);
      }
      QuotaAndRetention(cfg, db, init);
      RunKeeps(cfg, db, init);
      HandleWithin(cfg, Run(cfg, db, init), last.req, last.env);
    }
  }

  // ---- the byte quota, request by request

  /** An admitted completion leaves its application within the byte quota, before retention, exactly when
      the sum that the check compared fits in an i64. */
  lemma AdmittedWithinBytesIff(cfg: Config, db: Db, req: Request, env: Env) returns (base: Db, written: Db)
    requires Inv(cfg, db) && (req.Complete? || req.MultipartComplete?)
    requires NewlyStored(db, req, Handle(cfg, db, req, env).reply)
    requires req.up.app in db.apps && req.up.size <= I64_MAX
    requires cfg.MaxBytes().Some? && cfg.MaxBytes().value <= I64_MAX && BytesWithin(cfg, db.rows, db.apps[req.up.app])
    ensures var a := db.apps[req.up.app]; var out := Handle(cfg, db, req, env).db;
            && Stores(cfg, db, req.up, env, base, written, out)
            && (StoredBytes(written.rows, a) <= cfg.MaxBytes().value <==> Summable(cfg, db, req))
            && (cfg.Retain() == 0 ==> out.rows == written.rows)
  {
    hide Handle, Inv, VerifiedRow, RowOk, IsHex, IdemTaken;
    base, written := CompletionStages(cfg, db, req, env);
    WrittenBytes(cfg, db, req.up, env, base, written, Handle(cfg, db, req, env).db);
    hide StoredCount, StoredBytes, SizesOf, Stores;
    var used := StoredBytes(db.rows, db.apps[req.up.app]);
    if used + req.up.size <= I64_MAX { assert Wrap64(used + req.up.size) == used + req.up.size; }
  }

  /** The write adds its size to what the check found. */
  lemma WrittenBytes(cfg: Config, db: Db, up: Upload, env: Env, base: Db, written: Db, out: Db)
    requires Inv(cfg, db) && Stores(cfg, db, up, env, base, written, out) && up.app in db.apps
    ensures var used := StoredBytes(db.rows, db.apps[up.app]);
            && 0 <= used
            && StoredBytes(written.rows, db.apps[up.app]) == used + up.size
            && (cfg.MaxBytes().Some? ==> Wrap64(used + up.size) <= cfg.MaxBytes().value)
            && (cfg.Retain() == 0 ==> out.rows == written.rows)
  {
    hide *;
    var a := db.apps[up.app];
    UsedNonnegative(cfg, db, a);
    StoresSame(cfg, db, up, env, base, written, out);
    InsertAdds(base.rows, up.digest, written.rows[up.digest], a);
  }

  lemma UsedNonnegative(cfg: Config, db: Db, a: nat)
    requires Inv(cfg, db)
    ensures StoredBytes(db.rows, a) >= 0
  {
    SizesNonnegative(cfg, db);
    hide Inv;
    TotalNonnegative(SizesOf(db.rows, a));
  }

  /** What the stages of a completion leave alone, as far as sums go. */
  lemma StoresSame(cfg: Config, db: Db, up: Upload, env: Env, base: Db, written: Db, out: Db)
    requires Stores(cfg, db, up, env, base, written, out) && up.app in db.apps
    ensures var a := db.apps[up.app]; var d := up.digest;
            && StoredBytes(base.rows, a) == StoredBytes(db.rows, a)
            && d in written.rows && written.rows == base.rows[d := written.rows[d]] && d !in StoredOf(base.rows, a)
            && written.rows[d].app == Some(a) && written.rows[d].status == Stored && written.rows[d].size == up.size
            && (cfg.MaxBytes().Some? ==> Wrap64(StoredBytes(base.rows, a) + up.size) <= cfg.MaxBytes().value)
            && (cfg.Retain() == 0 ==> out.rows == written.rows)
  {
    SameSizes(db, base, up.digest, AppNamed(db.apps, up.app));
    assert StoredBytes(base.rows, db.apps[up.app]) == StoredBytes(db.rows, db.apps[up.app]);
    hide Inv, VerifiedRow, IsHex, IdemTaken, RowOk, StoredCount, StoredBytes, SizesOf, Wrap64, Backfill;
  }

  /** Linking a pending row changes no sum. */
  lemma SameSizes(db: Db, base: Db, d: string, app: Option<nat>)
    requires base == db || (d in db.rows && db.rows[d].status == Pending && base == Backfill(db, d, app))
    ensures forall a: nat :: SizesOf(base.rows, a) == SizesOf(db.rows, a)
  {
  }

  lemma EmptyWithin(cfg: Config)
    ensures AllCounts(cfg, EMPTY_DB.rows) && AllBytes(cfg, EMPTY_DB.rows)
  {
    forall a: nat ensures CountWithin(cfg, EMPTY_DB.rows, a) && BytesWithin(cfg, EMPTY_DB.rows, a) {
      assert StoredOf(EMPTY_DB.rows, a) == {};
      assert SizesOf(EMPTY_DB.rows, a) == map[];
    }
  }

  // ---- which of the two limits ever acts

  /** With retention below the count quota, no request is ever refused for its count. */
  lemma CountQuotaUnreachable(cfg: Config, calls: seq<Call>, i: nat)
    requires NoLegacy(calls) && i < |calls|
    requires cfg.MaxCount().Some? && 0 < cfg.Retain() < cfg.MaxCount().value
    ensures ReplyAt(cfg, EMPTY_DB, calls, i) != Fail(CountQuota)
  {
    var db := Run(cfg, EMPTY_DB, calls[..i]);
    EmptyInv(cfg);
    EmptyWithin(cfg);
    CountAndRetention(cfg, EMPTY_DB, calls[..i]);
    RunKeeps(cfg, EMPTY_DB, calls[..i]);
    NeverCountQuota(cfg, db, calls[i].req, calls[i].env);
  }

  lemma NeverCountQuota(cfg: Config, db: Db, req: Request, env: Env)
    requires Inv(cfg, db) && AllCounts(cfg, db.rows)
    requires cfg.MaxCount().Some? && 0 < cfg.Retain() < cfg.MaxCount().value
    ensures Handle(cfg, db, req, env).reply != Fail(CountQuota)
  {
    hide CompleteArtifact, CompleteMultipart, AllCounts, Inv;
    if req.Complete? {
      NeverForSingle(cfg, db, req.up, env);
    } else if req.MultipartComplete? {
      CountQuotaPasses(cfg, db.rows, AppNamed(db.apps, req.up.app), req.up.size);
      NeverForMultipart(cfg, db, req.up, req.uploadId, env);
    }
  }

  lemma NeverForMultipart(cfg: Config, db: Db, up: Upload, uploadId: string, env: Env)
    requires QuotaIfLinked(cfg, db.rows, AppNamed(db.apps, up.app), up.size) != Some(CountQuota)
    ensures CompleteMultipart(cfg, db, up, uploadId, env).reply != Fail(CountQuota)
  {
    hide QuotaIfLinked, LogAndRetain, IdemTaken, Finalized;
  }

  lemma NeverForPending(cfg: Config, db: Db, up: Upload, env: Env)
    requires Inv(cfg, db) && AllCounts(cfg, db.rows)
    requires cfg.MaxCount().Some? && 0 < cfg.Retain() < cfg.MaxCount().value
    requires up.digest in db.rows && db.rows[up.digest].status == Pending
    ensures CompletePending(cfg, db, up, env).reply != Fail(CountQuota)
  {
    var app := AppNamed(db.apps, up.app);
    var linked := Backfill(db, up.digest, app).rows;
    QuietWithin(cfg, db.rows, linked);
    CountQuotaPasses(cfg, linked, app, up.size);
    hide QuotaIfLinked, LogAndRetain, IdemTaken, Finalized, AllCounts, Inv;
  }

  lemma NeverForSingle(cfg: Config, db: Db, up: Upload, env: Env)
    requires Inv(cfg, db) && AllCounts(cfg, db.rows)
    requires cfg.MaxCount().Some? && 0 < cfg.Retain() < cfg.MaxCount().value
    ensures CompleteArtifact(cfg, db, up, env).reply != Fail(CountQuota)
  {
    CountQuotaPasses(cfg, db.rows, AppNamed(db.apps, up.app), up.size);
    if up.digest in db.rows && db.rows[up.digest].status == Pending {
      NeverForPending(cfg, db, up, env);
    }
    hide CompletePending, QuotaIfLinked, LogAndRetain, IdemTaken, AllCounts, Inv;
  }

  lemma CountQuotaPasses(cfg: Config, rows: Rows, app: Option<nat>, size: int)
    requires AllCounts(cfg, rows) && cfg.MaxCount().Some? && 0 < cfg.Retain() < cfg.MaxCount().value
    ensures QuotaIfLinked(cfg, rows, app, size) != Some(CountQuota)
  {
    if app.Some? { assert CountWithin(cfg, rows, app.value); }
  }

  /** The retention limit does not undercut the count quota. */
  predicate RetentionSlack(cfg: Config) {
    cfg.Retain() == 0 || (cfg.MaxCount().Some? && cfg.Retain() >= cfg.MaxCount().value)
  }

  /** Right after an admitted write there is no surplus. */
  lemma RetainIdle(cfg: Config, rows: Rows, written: Db, d: string, tie: TieBreak)
    requires SizesOk(rows) && DistinctIds(written.rows) && RetentionSlack(cfg)
    requires d in written.rows && written.rows == rows[d := written.rows[d]] && written.rows[d].size >= 0
    requires QuotaIfLinked(cfg, rows, written.rows[d].app, written.rows[d].size).None?
    ensures Retain(cfg, written, written.rows[d].app, tie).rows == written.rows
  {
    var app := written.rows[d].app;
    if app.Some? && cfg.Retain() > 0 {
      WriteBounds(rows, d, written.rows[d], app.value);
      ObsoleteIsSurplus(written.rows, app.value, cfg.Retain(), tie);
      RetainRows(cfg, written, app.value, tie);
      assert Obsolete(written.rows, app.value, cfg.Retain(), tie) == {};
    }
  }

  lemma SizesNonnegative(cfg: Config, db: Db)
    requires Inv(cfg, db)
    ensures SizesOk(db.rows)
  {
  }

  lemma CompletionSpares(cfg: Config, db: Db, req: Request, env: Env, d: string)
    requires Inv(cfg, db) && RetentionSlack(cfg) && (req.Complete? || req.MultipartComplete?)
    requires d in db.rows && db.rows[d].status == Stored
    ensures var rows' := Handle(cfg, db, req, env).db.rows; d in rows' && rows'[d] == db.rows[d]
  {
    hide Handle, RowsOk, VerifiedRow, EventsOk, AppsOk, IdemTaken, QuotaIfLinked, SignedBy, IsHex;
    var base, written := CompletionStages(cfg, db, req, env);
    if NewlyStored(db, req, Handle(cfg, db, req, env).reply) {
      WriteKeepsTables(cfg, base, written, req.up.digest);
      SizesNonnegative(cfg, base);
      var logged := LogEvent(written, written.rows[req.up.digest].id, StoredEvent);
      RetainIdle(cfg, base.rows, logged, req.up.digest, env.tie);
      assert d != req.up.digest && base.rows[d] == db.rows[d] && logged.rows == written.rows;
    }
  }

  /** With retention at or above the count quota, a stored row survives every request unchanged. */
  lemma StoredSurvives(cfg: Config, db: Db, req: Request, env: Env, d: string)
    requires Inv(cfg, db) && RetentionSlack(cfg)
    requires d in db.rows && db.rows[d].status == Stored
    ensures var rows' := Handle(cfg, db, req, env).db.rows; d in rows' && rows'[d] == db.rows[d]
  {
    if req.Complete? || req.MultipartComplete? {
      CompletionSpares(cfg, db, req, env, d);
    } else {
      OthersSpare(cfg, db, req, env, d);
    }
  }

  lemma OthersSpare(cfg: Config, db: Db, req: Request, env: Env, d: string)
    requires IdsOk(db) && !req.Complete? && !req.MultipartComplete?
    requires d in db.rows && db.rows[d].status == Stored
    ensures var rows' := Handle(cfg, db, req, env).db.rows; d in rows' && rows'[d] == db.rows[d]
  {
    if req.SweepPending? {
      var stale := Stale(db.rows, env.now - MICROS * (if req.ttl > 0 then req.ttl else 0));
      assert db.rows[d].id !in IdsOf(db.rows, stale);
    }
  }

  /** Hence over every such run a stored row stays in the table, unchanged, for ever. */
  lemma {:induction false} RetentionNeverActs(cfg: Config, db: Db, calls: seq<Call>, d: string)
    requires Inv(cfg, db) && RetentionSlack(cfg)
    requires d in db.rows && db.rows[d].status == Stored
    ensures var rows' := Run(cfg, db, calls).rows; d in rows' && rows'[d] == db.rows[d]
    decreases |calls|
  {
    if calls != [] {
      var init, last := calls[..|calls| - 1], calls[|calls| - 1];
      RetentionNeverActs(cfg, db, init, d);
      RunKeeps(cfg, db, init);
      StoredSurvives(cfg, Run(cfg, db, init), last.req, last.env, d);
    }
  }
}
