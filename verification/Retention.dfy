/** The retention query: which rows it returns, and that it returns exactly the surplus. */
module Retention {
  import opened Sums
  import opened Schema

  // ---- the order behind the retention query

  /** A non-empty set of rows with distinct ids has a newest member. */
  lemma {:induction false} NewestExists(rows: Rows, ds: set<string>, tie: TieBreak)
    requires ds != {} && ds <= rows.Keys && DistinctIds(rows)
    ensures exists d :: d in ds && forall e :: e in ds && e != d ==> Newer(rows[d], rows[e], tie)
    decreases |ds|
  {
    var x :| x in ds;
    var rest := ds - {x};
    if rest == {} {
      assert ds == {x};
    } else {
      NewestExists(rows, rest, tie);
      var d :| d in rest && forall e :: e in rest && e != d ==> Newer(rows[d], rows[e], tie);
      var best := if Newer(rows[d], rows[x], tie) then d else x;
      assert forall e :: e in ds && e != best ==> Newer(rows[best], rows[e], tie);
    }
  }

  predicate NewestFirst(rows: Rows, tie: TieBreak, order: seq<string>) {
    && (forall i :: 0 <= i < |order| ==> order[i] in rows)
    && (forall i, j :: 0 <= i < j < |order| ==> Newer(rows[order[i]], rows[order[j]], tie))
  }

  lemma NewestFirstGrows(rows: Rows, tie: TieBreak, order: seq<string>, d: string)
    requires NewestFirst(rows, tie, order) && d in rows
    requires forall e :: e in order ==> e in rows && Newer(rows[e], rows[d], tie)
    ensures NewestFirst(rows, tie, order + [d])
  {
  }

  /** In a listing from newest to oldest, position is the number of rows ahead. */
  lemma OrderedRanks(rows: Rows, a: nat, tie: TieBreak, order: seq<string>)
    requires forall d :: d in order <==> d in StoredOf(rows, a)
    requires NewestFirst(rows, tie, order)
    ensures forall i :: 0 <= i < |order| ==> |Ahead(rows, a, tie, order[i])| == i
  {
    forall i | 0 <= i < |order| ensures |Ahead(rows, a, tie, order[i])| == i {
      var first := order[..i];
      assert Members(first) == Ahead(rows, a, tie, order[i]) by {
        forall d | d in Ahead(rows, a, tie, order[i]) ensures d in first {
          var j :| 0 <= j < |order| && order[j] == d;
          assert j < i;
        }
      }
      forall j, k | 0 <= j < k < |first| ensures first[j] != first[k] {
        assert Newer(rows[order[j]], rows[order[k]], tie);
      }
      DistinctCount(first);
    }
  }

  /** Skipping the first `n` of a listing from newest to oldest leaves the obsolete rows. */
  lemma SkippedIds(rows: Rows, a: nat, n: nat, tie: TieBreak, order: seq<string>, ids: seq<nat>)
    requires NewestFirst(rows, tie, order)
    requires forall d :: d in order <==> d in StoredOf(rows, a)
    requires |ids| == if n <= |order| then |order| - n else 0
    requires forall i :: 0 <= i < |ids| ==> ids[i] == rows[order[n + i]].id
    requires DistinctIds(rows)
    ensures forall i, j :: 0 <= i < j < |ids| ==> ids[i] != ids[j]
    ensures forall i :: 0 <= i < |ids| ==> HasId(rows, ids[i])
    ensures Members(ids) == IdsOf(rows, Obsolete(rows, a, n, tie))
  {
    OrderedRanks(rows, a, tie, order);
    var obsolete := Obsolete(rows, a, n, tie);
    forall i, j | 0 <= i < j < |ids| ensures ids[i] != ids[j] {
      assert Newer(rows[order[n + i]], rows[order[n + j]], tie);
    }
    forall id | id in ids ensures id in IdsOf(rows, obsolete) {
      var i :| 0 <= i < |ids| && ids[i] == id;
      assert order[n + i] in obsolete;
    }
    forall id | id in IdsOf(rows, obsolete) ensures id in ids {
      var d :| d in obsolete && rows[d].id == id;
      var i :| 0 <= i < |order| && order[i] == d;
      assert ids[i - n] == id;
    }
  }

  lemma {:induction false} DistinctCount<T>(s: seq<T>)
    requires forall i, j :: 0 <= i < j < |s| ==> s[i] != s[j]
    ensures |Members(s)| == |s|
    decreases |s|
  {
    if s != [] {
      var last := |s| - 1;
      DistinctCount(s[..last]);
      assert Members(s) == Members(s[..last]) + {s[last]};
      assert s[last] !in s[..last];
    }
  }

  // ---- what the query returns

  /** The rows of an application can be listed from newest to oldest. */
  lemma {:induction false} ListingExists(rows: Rows, ds: set<string>, tie: TieBreak) returns (order: seq<string>)
    requires ds <= rows.Keys && DistinctIds(rows)
    ensures NewestFirst(rows, tie, order)
    ensures forall d :: d in order <==> d in ds
    decreases |ds|
  {
    if ds == {} {
      order := [];
    } else {
      NewestExists(rows, ds, tie);
      var d :| d in ds && forall e :: e in ds && e != d ==> Newer(rows[d], rows[e], tie);
      var rest := ListingExists(rows, ds - {d}, tie);
      order := [d] + rest;
      forall i | 0 <= i < |rest| ensures Newer(rows[d], rows[rest[i]], tie) {
        assert rest[i] in ds - {d};
      }
    }
  }

  /** `gone` is what skipping the newest `n` of the stored rows of `a` may leave, whatever the order
      among rows with equal timestamps. */
  ghost predicate SurplusOf(rows: Rows, a: nat, n: nat, gone: set<string>) {
    var stored := StoredOf(rows, a);
    && gone <= stored
    && |gone| == (if |stored| > n then |stored| - n else 0)
    && forall k, g :: k in stored - gone && g in gone ==> rows[k].createdAt >= rows[g].createdAt
  }

  /** The obsolete rows are the tail of the listing. */
  lemma ObsoleteIsTail(rows: Rows, a: nat, n: nat, tie: TieBreak, order: seq<string>)
    requires NewestFirst(rows, tie, order)
    requires forall d :: d in order <==> d in StoredOf(rows, a)
    ensures forall i :: 0 <= i < |order| ==> (order[i] in Obsolete(rows, a, n, tie) <==> i >= n)
    ensures |StoredOf(rows, a)| == |order|
    ensures |Obsolete(rows, a, n, tie)| == if |order| > n then |order| - n else 0
  {
    OrderedRanks(rows, a, tie, order);
    forall i, j | 0 <= i < j < |order| ensures order[i] != order[j] {
      assert Newer(rows[order[i]], rows[order[j]], tie);
    }
    TailSizes(StoredOf(rows, a), Obsolete(rows, a, n, tie), order, n);
  }

  lemma TailSizes(all: set<string>, tail: set<string>, order: seq<string>, n: nat)
    requires forall i, j :: 0 <= i < j < |order| ==> order[i] != order[j]
    requires forall d :: d in order <==> d in all
    requires tail <= all && forall i :: 0 <= i < |order| ==> (order[i] in tail <==> i >= n)
    ensures |all| == |order|
    ensures |tail| == if |order| > n then |order| - n else 0
  {
    var m := if n <= |order| then n else |order|;
    DistinctCount(order);
    DistinctCount(order[m..]);
    assert Members(order) == all;
    forall d | d in tail ensures d in order[m..] {
      var i :| 0 <= i < |order| && order[i] == d;
      assert order[m..][i - m] == d;
    }
    assert Members(order[m..]) == tail;
  }

  /** The query returns the surplus: as many rows as exceed `n`, none newer than a row that stays. */
  lemma ObsoleteIsSurplus(rows: Rows, a: nat, n: nat, tie: TieBreak)
    requires DistinctIds(rows)
    ensures SurplusOf(rows, a, n, Obsolete(rows, a, n, tie))
    ensures Obsolete(rows, a, n, tie) <= StoredOf(rows, a)
    ensures |Obsolete(rows, a, n, tie)| == if StoredCount(rows, a) > n then StoredCount(rows, a) - n else 0
  {
    var stored, gone := StoredOf(rows, a), Obsolete(rows, a, n, tie);
    var order := ListingExists(rows, stored, tie);
    ObsoleteIsTail(rows, a, n, tie, order);
    forall k, g | k in stored - gone && g in gone ensures rows[k].createdAt >= rows[g].createdAt {
      var i :| 0 <= i < |order| && order[i] == k;
      var j :| 0 <= j < |order| && order[j] == g;
      assert Newer(rows[order[i]], rows[order[j]], tie);
    }
  }

  /** The tie-break that lists the rows with the given ids after their equals. */
  function Last(ids: set<nat>): TieBreak {
    id => if id in ids then 0 else 1
  }

  lemma SurplusRank(rows: Rows, a: nat, n: nat, gone: set<string>, d: string)
    requires DistinctIds(rows) && SurplusOf(rows, a, n, gone) && d in StoredOf(rows, a)
    ensures d in Obsolete(rows, a, n, Last(IdsOf(rows, gone))) <==> d in gone
  {
    var stored := StoredOf(rows, a);
    var kept := stored - gone;
    var ids := IdsOf(rows, gone);
    assert forall e :: e in stored ==> (rows[e].id in ids <==> e in gone);
    var ahead := Ahead(rows, a, Last(ids), d);
    assert |kept| == |stored| - |gone|;
    if d in gone {
      assert kept <= ahead;
      SubsetSize(kept, ahead);
    } else {
      assert ahead <= kept - {d};
      SubsetSize(ahead, kept - {d});
    }
  }

  /** Conversely, every surplus is what the query returns for some order among equal timestamps. */
  lemma SurplusIsObsolete(rows: Rows, a: nat, n: nat, gone: set<string>) returns (tie: TieBreak)
    requires DistinctIds(rows) && SurplusOf(rows, a, n, gone)
    ensures Obsolete(rows, a, n, tie) == gone
  {
    tie := Last(IdsOf(rows, gone));
    forall d | d in StoredOf(rows, a) ensures d in Obsolete(rows, a, n, tie) <==> d in gone {
      SurplusRank(rows, a, n, gone, d);
    }
  }

  lemma {:induction false} SubsetSize<T>(small: set<T>, big: set<T>)
    requires small <= big
    ensures |small| <= |big|
  {
    assert big == small + (big - small);
  }
}
