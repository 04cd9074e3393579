/** Explicit runs from empty tables, for the results that exhibit an input: one application, some
    presigned digests, and some of them completed. */
module Scenarios {
  import opened Prelude
  import opened Schema
  import opened Handlers
  import opened Invariant
  import opened Retention
  import opened QuotaRuns

  // ---- distinct digests

  function Pow2(n: nat): nat {
    if n == 0 then 1 else 2 * Pow2(n - 1)
  }

  /** The last `n` binary digits of `i`. */
  function Bits(i: nat, n: nat): string {
    if n == 0 then "" else Bits(i / 2, n - 1) + [if i % 2 == 0 then '0' else '1']
  }

  function Digest(i: nat): string {
    Bits(i, 64)
  }

  const DIGESTS: nat := 0x1_0000_0000_0000_0000

  lemma {:induction false} BitsHex(i: nat, n: nat)
    ensures IsHex(Bits(i, n), n)
    decreases n
  {
    if n > 0 { BitsHex(i / 2, n - 1); }
  }

  lemma {:induction false} BitsInjective(i: nat, j: nat, n: nat)
    requires i < Pow2(n) && j < Pow2(n) && Bits(i, n) == Bits(j, n)
    ensures i == j
    decreases n
  {
    if n > 0 {
      BitsHex(i / 2, n - 1);
      BitsHex(j / 2, n - 1);
      var x, y := Bits(i, n), Bits(j, n);
      assert x[..n - 1] == Bits(i / 2, n - 1) && y[..n - 1] == Bits(j / 2, n - 1);
      assert x[n - 1] == y[n - 1];
      BitsInjective(i / 2, j / 2, n - 1);
    }
  }

  lemma PowStep(n: nat)
    ensures Pow2(n + 8) == 256 * Pow2(n)
  {
    assert Pow2(n + 4) == 16 * Pow2(n) by { assert Pow2(n + 2) == 4 * Pow2(n); }
    assert Pow2(n + 8) == 16 * Pow2(n + 4) by { assert Pow2(n + 6) == 4 * Pow2(n + 4); }
  }

  lemma EnoughDigests()
    ensures Pow2(64) == DIGESTS
  {
    assert Pow2(0) == 1;
    hide Pow2;
    PowStep(0);
    PowStep(8);
    PowStep(16);
    PowStep(24);
    PowStep(32);
    PowStep(40);
    PowStep(48);
    PowStep(56);
  }

  lemma DigestHex(i: nat)
    ensures IsHex(Digest(i), 64)
  {
    BitsHex(i, 64);
    hide Bits, IsHex;
  }

  lemma DigestsDiffer(i: nat, j: nat)
    requires i < DIGESTS && j < DIGESTS && i != j
    ensures Digest(i) != Digest(j)
  {
    EnoughDigests();
    hide Pow2, Bits;
    if Digest(i) == Digest(j) { BitsInjective(i, j, 64); }
  }

  // ---- the run

  /** A clock reading, and a storage backend that reports nothing and never fails. */
  function Calm(now: int): Env {
    Env(now, id => id, true, None, None, None, Some("u"), true, true)
  }

  function UploadOf(name: string, digest: string, size: int): Upload {
    Upload(name, digest, size, None, None)
  }

  function Presigned(name: string, n: nat): seq<Call> {
    if n == 0 then [Call(CreateApp(name), Calm(0))]
    else Presigned(name, n - 1) + [Call(Presign(name, Digest(n - 1)), Calm(n - 1))]
  }

  /** `n` digests presigned at times 0, 1, ...; then those from `lo` up to `hi` completed, without bytes. */
  function Filled(name: string, n: nat, lo: nat, hi: nat): seq<Call>
    requires lo <= hi <= n
    decreases hi
  {
    if hi == lo then Presigned(name, n)
    else Filled(name, n, lo, hi - 1) + [Call(Complete(UploadOf(name, Digest(hi - 1), 0)), Calm(n + hi))]
  }

  lemma RunAppend(cfg: Config, db: Db, calls: seq<Call>, last: Call)
    ensures Run(cfg, db, calls + [last]) == Handle(cfg, Run(cfg, db, calls), last.req, last.env).db
    ensures ReplyAt(cfg, db, calls + [last], |calls|) == Handle(cfg, Run(cfg, db, calls), last.req, last.env).reply
  {
    hide Handle;
    assert (calls + [last])[..|calls|] == calls;
  }

  // ---- the tables it leaves

  predicate RowIs(row: Row, name: string, i: nat, stored: bool) {
    && row.id == i && row.app == Some(0) && row.size == 0 && row.idem.None? && row.createdAt == i
    && row.storageKey == Some(StorageKey(name, Digest(i))) && row.status == (if stored then Stored else Pending)
  }

  /** `n` rows of application 0; those from `lo` up to `hi` are stored, the others pending. */
  ghost predicate Prepared(db: Db, name: string, n: nat, lo: nat, hi: nat) {
    && db.apps == map[name := 0] && db.nextId == n
    && (forall d :: d in db.rows ==> exists i: nat :: i < n && d == Digest(i))
    && (forall i: nat :: i < n ==> Digest(i) in db.rows && RowIs(db.rows[Digest(i)], name, i, lo <= i < hi))
    && StoredCount(db.rows, 0) == hi - lo && StoredBytes(db.rows, 0) == 0
  }

  lemma RowAt(db: Db, name: string, n: nat, lo: nat, hi: nat, i: nat)
    requires Prepared(db, name, n, lo, hi) && i < n
    ensures Digest(i) in db.rows && RowIs(db.rows[Digest(i)], name, i, lo <= i < hi)
    ensures db.apps == map[name := 0] && StoredCount(db.rows, 0) == hi - lo && StoredBytes(db.rows, 0) == 0
  {
  }

  lemma PresignOne(cfg: Config, db: Db, name: string, n: nat)
    requires Prepared(db, name, n, 0, 0) && n + 1 < DIGESTS && !Blank(name)
    ensures Prepared(Handle(cfg, db, Presign(name, Digest(n)), Calm(n)).db, name, n + 1, 0, 0)
  {
    DigestHex(n);
    hide Digest;
    forall i: nat | i < n ensures Digest(i) != Digest(n) { DigestsDiffer(i, n); }
    hide IsHex, StorageKey, Blank;
    var db' := Handle(cfg, db, Presign(name, Digest(n)), Calm(n)).db;
    var row := PendingRow(Some(0), StorageKey(name, Digest(n)), None, n).(id := n);
    assert db'.rows == db.rows[Digest(n) := row];
    assert StoredOf(db'.rows, 0) == StoredOf(db.rows, 0);
    assert SizesOf(db'.rows, 0) == SizesOf(db.rows, 0);
  }

  lemma Registered(cfg: Config, name: string)
    ensures Prepared(Run(cfg, EMPTY_DB, [Call(CreateApp(name), Calm(0))]), name, 0, 0, 0)
  {
    var call := Call(CreateApp(name), Calm(0));
    assert [] + [call] == [call];
    RunAppend(cfg, EMPTY_DB, [], call);
    var db := Run(cfg, EMPTY_DB, [call]);
    assert db.rows == map[] && StoredOf(db.rows, 0) == {} && SizesOf(db.rows, 0) == map[];
  }

  lemma {:induction false} PresignedRun(cfg: Config, name: string, n: nat)
    requires n < DIGESTS && !Blank(name)
    ensures Prepared(Run(cfg, EMPTY_DB, Presigned(name, n)), name, n, 0, 0)
    decreases n
  {
    hide Handle, Prepared, Digest, Blank, Run, Calm;
    if n == 0 {
      Registered(cfg, name);
    } else {
      PresignedRun(cfg, name, n - 1);
      RunAppend(cfg, EMPTY_DB, Presigned(name, n - 1), Call(Presign(name, Digest(n - 1)), Calm(n - 1)));
      PresignOne(cfg, Run(cfg, EMPTY_DB, Presigned(name, n - 1)), name, n - 1);
    }
  }

  /** A linked pending row, a request that the quota admits, and no retention due: the row is stored, and
      nothing else changes. */
  lemma CompleteOne(cfg: Config, db: Db, up: Upload, a: nat, now: int)
    requires Inv(cfg, db) && up.app in db.apps && db.apps[up.app] == a && CompleteError(cfg, up).None?
    requires up.digest in db.rows && db.rows[up.digest].status == Pending && db.rows[up.digest].app == Some(a)
    requires !IdemTaken(db.rows, up.digest, up.idem) && Quota(cfg, db.rows, a, up.size).None?
    requires cfg.Retain() == 0 || StoredCount(db.rows, a) < cfg.Retain()
    ensures var out := Handle(cfg, db, Complete(up), Calm(now)); var d := up.digest;
            && NewlyStored(db, Complete(up), out.reply)
            && out.db.apps == db.apps && out.db.nextId == db.nextId
            && out.db.rows == db.rows[d := Finalized(db.rows[d], Some(a), up, Some(StorageKey(up.app, d)), now)]
            && StoredCount(out.db.rows, a) == StoredCount(db.rows, a) + 1
            && StoredBytes(out.db.rows, a) == StoredBytes(db.rows, a) + up.size
  {
    var d, env := up.digest, Calm(now);
    var final := Finalized(db.rows[d], Some(a), up, Some(StorageKey(up.app, d)), now);
    var written := db.(rows := db.rows[d := final]);
    CompleteReply(cfg, db, up, a, now);
    InsertAdds(db.rows, d, final, a);
    assert DistinctIds(written.rows);
    var logged := LogEvent(written, db.rows[d].id, StoredEvent);
    hide Handle, Inv, StorageKey;
    if cfg.Retain() > 0 { RetainNone(cfg, logged, a, env.tie); }
  }

  lemma CompleteReply(cfg: Config, db: Db, up: Upload, a: nat, now: int)
    requires Inv(cfg, db) && up.app in db.apps && db.apps[up.app] == a && CompleteError(cfg, up).None?
    requires up.digest in db.rows && db.rows[up.digest].status == Pending && db.rows[up.digest].app == Some(a)
    requires !IdemTaken(db.rows, up.digest, up.idem) && Quota(cfg, db.rows, a, up.size).None?
    ensures var out := Handle(cfg, db, Complete(up), Calm(now)); var d := up.digest;
            var final := Finalized(db.rows[d], Some(a), up, Some(StorageKey(up.app, d)), now);
            && out.reply == Completed(db.rows[d].id, false, false, StorageKey(up.app, d), up.idem)
            && out.db == LogAndRetain(cfg, db.(rows := db.rows[d := final]), db.rows[d].id, Some(a), Calm(now).tie)
  {
    assert RowOk(db.rows[up.digest]);
    hide LogAndRetain, StorageKey, Inv, Quota, CompleteError, RowOk, IdemTaken;
  }

  lemma RetainNone(cfg: Config, db: Db, a: nat, tie: TieBreak)
    requires DistinctIds(db.rows) && 0 < cfg.Retain() && StoredCount(db.rows, a) <= cfg.Retain()
    ensures Retain(cfg, db, Some(a), tie) == db
  {
    ObsoleteNone(db.rows, a, cfg.Retain(), tie);
  }

  lemma ObsoleteNone(rows: Rows, a: nat, n: nat, tie: TieBreak)
    requires DistinctIds(rows) && StoredCount(rows, a) <= n
    ensures Obsolete(rows, a, n, tie) == {}
  {
    ObsoleteIsSurplus(rows, a, n, tie);
  }

  lemma FillRows(db: Db, db': Db, name: string, n: nat, lo: nat, hi: nat)
    requires Prepared(db, name, n, lo, hi) && lo <= hi < n < DIGESTS
    requires db'.apps == db.apps && db'.nextId == db.nextId
    requires Digest(hi) in db'.rows && db'.rows == db.rows[Digest(hi) := db'.rows[Digest(hi)]]
    requires RowIs(db'.rows[Digest(hi)], name, hi, true)
    requires StoredCount(db'.rows, 0) == hi + 1 - lo && StoredBytes(db'.rows, 0) == 0
    ensures Prepared(db', name, n, lo, hi + 1)
  {
    forall i: nat | i < n && i != hi ensures Digest(i) != Digest(hi) { DigestsDiffer(i, hi); }
    hide Digest, RowIs, StoredCount, StoredBytes;
  }

  lemma FillOne(cfg: Config, db: Db, name: string, n: nat, lo: nat, hi: nat)
    requires Inv(cfg, db) && Prepared(db, name, n, lo, hi) && lo <= hi < n < DIGESTS && !Blank(name)
    requires cfg.MaxCount().Some? ==> hi - lo < cfg.MaxCount().value
    requires cfg.Retain() == 0 || hi - lo < cfg.Retain()
    ensures Prepared(Handle(cfg, db, Complete(UploadOf(name, Digest(hi), 0)), Calm(n + hi + 1)).db, name, n, lo, hi + 1)
  {
    var d, now := Digest(hi), n + hi + 1;
    var up := UploadOf(name, d, 0);
    hide Digest, Prepared, Handle, Inv;
    DigestHex(hi);
    assert CompleteError(cfg, up).None?;
    RowAt(db, name, n, lo, hi, hi);
    hide StorageKey, StoredCount, StoredBytes, CompleteError, IsHex, Blank;
    CompleteOne(cfg, db, up, 0, now);
    FillRows(db, Handle(cfg, db, Complete(up), Calm(now)).db, name, n, lo, hi);
  }

  /** The run leaves these tables, in any configuration whose limits admit it. */
  lemma {:induction false} FilledRun(cfg: Config, name: string, n: nat, lo: nat, hi: nat)
    requires lo <= hi <= n < DIGESTS && !Blank(name)
    requires cfg.MaxCount().Some? ==> hi - lo <= cfg.MaxCount().value
    requires cfg.Retain() == 0 || hi - lo <= cfg.Retain()
    ensures var db := Run(cfg, EMPTY_DB, Filled(name, n, lo, hi)); Prepared(db, name, n, lo, hi) && Inv(cfg, db)
    decreases hi
  {
    hide Handle, Inv, Prepared, Digest, Blank, Run, Calm;
    EmptyInv(cfg);
    RunKeeps(cfg, EMPTY_DB, Filled(name, n, lo, hi));
    if hi == lo {
      PresignedRun(cfg, name, n);
      PreparedEmpty(Run(cfg, EMPTY_DB, Presigned(name, n)), name, n, lo);
    } else {
      FilledRun(cfg, name, n, lo, hi - 1);
      var up := UploadOf(name, Digest(hi - 1), 0);
      RunAppend(cfg, EMPTY_DB, Filled(name, n, lo, hi - 1), Call(Complete(up), Calm(n + hi)));
      FillOne(cfg, Run(cfg, EMPTY_DB, Filled(name, n, lo, hi - 1)), name, n, lo, hi - 1);
    }
  }

  lemma PreparedEmpty(db: Db, name: string, n: nat, lo: nat)
    requires Prepared(db, name, n, 0, 0)
    ensures Prepared(db, name, n, lo, lo)
  {
    hide StoredCount, StoredBytes;
  }
}
