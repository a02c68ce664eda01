/**
 Four pieces of SQL say how many tickets are ahead: the index in `listWaiting`, the COUNT in
 `getWaitingPosition` and in the dashboard, the ROW_NUMBER in `bulkUpdateEta`, and the ROW_NUMBER over
 rows with a LINE user in `findNearThresholdWaiting`.
 */
module Positions {
  import opened Options
  import opened Sets
  import opened WaitingOrder
  import opened QueueEntries

  /** `getWaitingPosition`: the waiting rows of the queue with a strictly smaller key. */
  function WaitingPosition(t: Table, q: QueueId, priority: nat, ticket: nat): nat {
    |set x | x in WaitingIds(t, q) && (t[x].priority > priority || (t[x].priority == priority && t[x].ticket < ticket))|
  }

  function PositionOf(t: Table, q: QueueId, id: EntryId): nat
    requires id in t
  {
    WaitingPosition(t, q, t[id].priority, t[id].ticket)
  }

  predicate KeysDistinct(t: Table, q: QueueId) {
    forall x, y :: x in WaitingIds(t, q) && y in WaitingIds(t, q) && x != y ==>
      Before(t[x], t[y]) || Before(t[y], t[x])
  }

  /** `findNearThresholdWaiting` for one open, active queue: ahead-counts among the rows with a LINE user. */
  function LineUserIds(t: Table, q: QueueId): set<EntryId> {
    set x | x in WaitingIds(t, q) && t[x].hasLineUser
  }

  function AheadCount(t: Table, q: QueueId, id: EntryId): nat
    requires id in OrderBy(t, LineUserIds(t, q))
  {
    IndexOf(OrderBy(t, LineUserIds(t, q)), id)
  }

  function NearThreshold(t: Table, q: QueueId, threshold: int): set<EntryId> {
    set x | x in t && x in OrderBy(t, LineUserIds(t, q)) && 1 <= AheadCount(t, q, x) <= threshold
  }

  /** The COUNTs of rows ahead, added up. */
  function TotalAhead(t: Table, q: QueueId, s: seq<EntryId>): nat
    requires forall i :: 0 <= i < |s| ==> s[i] in t
  {
    if s == [] then 0 else TotalAhead(t, q, s[..|s| - 1]) + PositionOf(t, q, s[|s| - 1])
  }

  // ---------------------------------------------------------------- counting predecessors

  function Predecessors(t: Table, ids: set<EntryId>, x: EntryId): set<EntryId>
    requires ids <= t.Keys && x in t
  {
    set y | y in ids && Ordered(t, y, x)
  }

  lemma {:induction false} PrefixSize(s: seq<EntryId>, i: nat)
    requires i <= |s|
    requires forall k, l :: 0 <= k < l < |s| ==> s[k] != s[l]
    ensures |set k | 0 <= k < i :: s[k]| == i
  {
    if i > 0 {
      PrefixSize(s, i - 1);
      assert (set k | 0 <= k < i :: s[k]) == (set k | 0 <= k < i - 1 :: s[k]) + {s[i - 1]};
    }
  }

  /** The index of a row in a listing is the number of listed rows ordered before it. */
  lemma IndexCountsPredecessors(t: Table, ids: set<EntryId>, s: seq<EntryId>, x: EntryId)
    requires ids <= t.Keys && IsListing(t, ids, s) && x in s
    ensures x in ids && IndexOf(s, x) == |Predecessors(t, ids, x)|
  {
    ListingHasNoRepeats(t, ids, s);
    var i := IndexOf(s, x);
    PrefixSize(s, i);
    var ahead := set k | 0 <= k < i :: s[k];
    forall y
      ensures y in ahead <==> y in Predecessors(t, ids, x)
    {
      if y in Predecessors(t, ids, x) {
        var k := IndexOf(s, y);
        assert k < i;
      }
    }
    assert ahead == Predecessors(t, ids, x);
  }

  /** The SQL COUNT never exceeds the index, and falls short by the ties the order breaks before the row. */
  lemma PositionAtMostIndex(t: Table, q: QueueId, x: EntryId)
    requires x in WaitingIds(t, q)
    ensures x in ListWaiting(t, q)
    ensures PositionOf(t, q, x) <= IndexOf(ListWaiting(t, q), x)
    ensures PositionOf(t, q, x) == IndexOf(ListWaiting(t, q), x) <==>
      forall y :: y in WaitingIds(t, q) && y < x ==> Before(t[x], t[y]) || Before(t[y], t[x])
  {
    Listed(t, q);
    var ids := WaitingIds(t, q);
    IndexCountsPredecessors(t, ids, ListWaiting(t, q), x);
    var strict := set y | y in ids && (t[y].priority > t[x].priority || (t[y].priority == t[x].priority && t[y].ticket < t[x].ticket));
    var all := Predecessors(t, ids, x);
    SubsetSize(strict, all);
    if strict == all {
      forall y | y in ids && y < x
        ensures Before(t[x], t[y]) || Before(t[y], t[x])
      {
        assert y in all <==> y in strict;
      }
    }
    if forall y :: y in ids && y < x ==> Before(t[x], t[y]) || Before(t[y], t[x]) {
      assert strict == all;
    }
  }

  /** COUNT and index agree on every waiting row of a queue exactly when no two of them share a key. */
  lemma PositionsAgreeExactlyWhenDistinct(t: Table, q: QueueId)
    ensures (forall x :: x in WaitingIds(t, q) ==>
        x in ListWaiting(t, q) && PositionOf(t, q, x) == IndexOf(ListWaiting(t, q), x))
      <==> KeysDistinct(t, q)
  {
    forall x | x in WaitingIds(t, q)
      ensures x in ListWaiting(t, q)
      ensures PositionOf(t, q, x) == IndexOf(ListWaiting(t, q), x) <==>
        forall y :: y in WaitingIds(t, q) && y < x ==> Before(t[x], t[y]) || Before(t[y], t[x])
    {
      PositionAtMostIndex(t, q, x);
    }
  }

  /** Counting only LINE users ahead never gives more, and gives the same when every waiting row has one. */
  lemma AheadCountAtMostIndex(t: Table, q: QueueId, x: EntryId)
    requires x in LineUserIds(t, q)
    ensures x in OrderBy(t, LineUserIds(t, q)) && x in ListWaiting(t, q)
    ensures AheadCount(t, q, x) <= IndexOf(ListWaiting(t, q), x)
    ensures (forall y :: y in WaitingIds(t, q) ==> t[y].hasLineUser) ==>
      AheadCount(t, q, x) == IndexOf(ListWaiting(t, q), x)
  {
    var ids, some := WaitingIds(t, q), LineUserIds(t, q);
    IndexInOrder(t, ids, x);
    IndexInOrder(t, some, x);
    SubsetSize(Predecessors(t, some, x), Predecessors(t, ids, x));
    if forall y :: y in ids ==> t[y].hasLineUser { assert some == ids; }
  }

  /** The ahead count is the number of rows with a LINE user that stand before the row in the line. */
  lemma AheadCountsLineUsers(t: Table, q: QueueId, x: EntryId)
    requires x in LineUserIds(t, q)
    ensures x in OrderBy(t, LineUserIds(t, q)) && x in ListWaiting(t, q)
    ensures AheadCount(t, q, x) ==
      |set y | y in t && t[y].hasLineUser && y in ListWaiting(t, q) && IndexOf(ListWaiting(t, q), y) < IndexOf(ListWaiting(t, q), x)|
  {
    var ids, some, s := WaitingIds(t, q), LineUserIds(t, q), ListWaiting(t, q);
    IndexInOrder(t, some, x);
    Listed(t, q);
    forall y | y in ids
      ensures IndexOf(s, y) < IndexOf(s, x) <==> Ordered(t, y, x)
    {
      IndicesFollowOrder(t, q, y, x);
    }
    assert Predecessors(t, some, x) == set y | y in t && t[y].hasLineUser && y in s && IndexOf(s, y) < IndexOf(s, x);
  }

  lemma IndicesFollowOrder(t: Table, q: QueueId, y: EntryId, x: EntryId)
    requires y in WaitingIds(t, q) && x in WaitingIds(t, q)
    ensures y in ListWaiting(t, q) && x in ListWaiting(t, q)
    ensures IndexOf(ListWaiting(t, q), y) < IndexOf(ListWaiting(t, q), x) <==> Ordered(t, y, x)
  {
    Listed(t, q);
    var s := ListWaiting(t, q);
    var i, j := IndexOf(s, y), IndexOf(s, x);
    assert i < j ==> Ordered(t, s[i], s[j]);
    assert j < i ==> Ordered(t, s[j], s[i]);
  }

  /** The near-threshold query returns exactly the LINE users' rows with 1 to `threshold` LINE users' rows ahead. */
  lemma NearThresholdIsByAheadCount(t: Table, q: QueueId, threshold: int, x: EntryId)
    ensures x in NearThreshold(t, q, threshold) <==>
      x in LineUserIds(t, q) && 1 <= |Predecessors(t, LineUserIds(t, q), x)| <= threshold
  {
    if x in LineUserIds(t, q) { IndexInOrder(t, LineUserIds(t, q), x); }
    OrderByLists(t, LineUserIds(t, q));
  }

  lemma IndexInOrder(t: Table, ids: set<EntryId>, x: EntryId)
    requires ids <= t.Keys && x in ids
    ensures x in OrderBy(t, ids) && IndexOf(OrderBy(t, ids), x) == |Predecessors(t, ids, x)|
  {
    OrderByLists(t, ids);
    IndexCountsPredecessors(t, ids, OrderBy(t, ids), x);
  }

  /**
   The near-threshold query finds no LINE user's row that is not near, and finds all at the places 1 to
   `threshold` of the line when every waiting row has a LINE user.
   */
  lemma NearThresholdRows(t: Table, q: QueueId, threshold: int)
    ensures forall x :: x in NearThreshold(t, q, threshold) ==>
      x in LineUserIds(t, q) && x in ListWaiting(t, q) && IndexOf(ListWaiting(t, q), x) >= 1
    ensures (forall y :: y in WaitingIds(t, q) ==> t[y].hasLineUser) ==>
      NearThreshold(t, q, threshold) ==
        set x | x in ListWaiting(t, q) && 1 <= IndexOf(ListWaiting(t, q), x) <= threshold
  {
    Listed(t, q);
    OrderByLists(t, LineUserIds(t, q));
    forall x | x in LineUserIds(t, q)
      ensures x in OrderBy(t, LineUserIds(t, q)) && x in ListWaiting(t, q)
      ensures AheadCount(t, q, x) <= IndexOf(ListWaiting(t, q), x)
      ensures (forall y :: y in WaitingIds(t, q) ==> t[y].hasLineUser) ==>
        AheadCount(t, q, x) == IndexOf(ListWaiting(t, q), x)
    {
      AheadCountAtMostIndex(t, q, x);
    }
  }

  /** The total of the first `n` rows of the line, one row at a time. */
  function TotalUpTo(t: Table, q: QueueId, n: nat): nat
    requires n <= |ListWaiting(t, q)|
  {
    if n == 0 then 0 else TotalUpTo(t, q, n - 1) + PositionOf(t, q, WaitingAt(t, q, n - 1))
  }

  lemma {:induction false} TotalByIndex(t: Table, q: QueueId, n: nat)
    requires n <= |ListWaiting(t, q)|
    ensures forall i :: 0 <= i < n ==> ListWaiting(t, q)[..n][i] in t
    ensures TotalAhead(t, q, ListWaiting(t, q)[..n]) == TotalUpTo(t, q, n)
  {
    var s := ListWaiting(t, q);
    forall i | 0 <= i < n
      ensures s[..n][i] in t
    {
      assert WaitingAt(t, q, i) == s[i];
    }
    if n > 0 {
      TotalByIndex(t, q, n - 1);
      assert s[..n][..n - 1] == s[..n - 1];
    }
  }

  lemma {:induction false} TotalOfPrefix(t: Table, q: QueueId, n: nat)
    requires n <= |ListWaiting(t, q)|
    ensures 2 * TotalUpTo(t, q, n) <= n * (n - 1)
    ensures 2 * TotalUpTo(t, q, n) == n * (n - 1) <==>
      forall i :: 0 <= i < n ==> PositionOf(t, q, WaitingAt(t, q, i)) == i
  {
    if n > 0 {
      TotalOfPrefix(t, q, n - 1);
      PositionOfNth(t, q, n - 1);
      assert n * (n - 1) == (n - 1) * (n - 2) + 2 * (n - 1);
    }
  }

  lemma PositionOfNth(t: Table, q: QueueId, i: nat)
    requires i < |ListWaiting(t, q)|
    ensures PositionOf(t, q, WaitingAt(t, q, i)) <= i
  {
    PositionAtMostIndex(t, q, WaitingAt(t, q, i));
    ListedIndex(t, q, i);
  }

  lemma PositionsByIndex(t: Table, q: QueueId)
    ensures (forall i :: 0 <= i < |ListWaiting(t, q)| ==> PositionOf(t, q, WaitingAt(t, q, i)) == i)
      <==> KeysDistinct(t, q)
  {
    var s, ids := ListWaiting(t, q), WaitingIds(t, q);
    PositionsAgreeExactlyWhenDistinct(t, q);
    if forall i :: 0 <= i < |s| ==> PositionOf(t, q, WaitingAt(t, q, i)) == i {
      forall x | x in ids
        ensures x in s && PositionOf(t, q, x) == IndexOf(s, x)
      {
        PositionAtMostIndex(t, q, x);
        assert WaitingAt(t, q, IndexOf(s, x)) == x;
      }
    }
    if KeysDistinct(t, q) {
      forall i | 0 <= i < |s|
        ensures PositionOf(t, q, WaitingAt(t, q, i)) == i
      {
        ListedIndex(t, q, i);
      }
    }
  }

  /** What the dashboard adds up before it averages: COUNT times the service time, row by row. */
  function EtaTotal(t: Table, q: QueueId, s: seq<EntryId>, avg: int): int
    requires forall i :: 0 <= i < |s| ==> s[i] in t
  {
    if s == [] then 0 else EtaTotal(t, q, s[..|s| - 1], avg) + PositionOf(t, q, s[|s| - 1]) * avg
  }

  lemma {:induction false} EtaTotalIsMultiple(t: Table, q: QueueId, s: seq<EntryId>, avg: int)
    requires forall i :: 0 <= i < |s| ==> s[i] in t
    ensures EtaTotal(t, q, s, avg) == TotalAhead(t, q, s) * avg
  {
    if s != [] {
      var before, ahead := TotalAhead(t, q, s[..|s| - 1]), PositionOf(t, q, s[|s| - 1]);
      EtaTotalIsMultiple(t, q, s[..|s| - 1], avg);
      assert before * avg + ahead * avg == (before + ahead) * avg;
    }
  }

  lemma {:induction false} ScaledTotal(total: int, bound: int, factor: int)
    requires 2 * total <= bound && factor > 0
    ensures 2 * (total * factor) <= bound * factor
    ensures 2 * (total * factor) == bound * factor <==> 2 * total == bound
    decreases factor
  {
    if factor > 1 {
      ScaledTotal(total, bound, factor - 1);
      assert total * factor == total * (factor - 1) + total;
      assert bound * factor == bound * (factor - 1) + bound;
    }
  }

  lemma TotalOfLine(t: Table, q: QueueId)
    ensures forall i :: 0 <= i < |ListWaiting(t, q)| ==> ListWaiting(t, q)[i] in t
    ensures var n, total := |WaitingIds(t, q)|, TotalAhead(t, q, ListWaiting(t, q));
      2 * total <= n * (n - 1) && (2 * total == n * (n - 1) <==> KeysDistinct(t, q))
  {
    var s := ListWaiting(t, q);
    assert s[..|s|] == s;
    TotalByIndex(t, q, |s|);
    TotalOfPrefix(t, q, |s|);
    PositionsByIndex(t, q);
    assert |s| == |WaitingIds(t, q)|;
  }

  /**
   The dashboard's total for n waiting rows is at most n(n-1)/2 service times, and is exactly that when
   and only when no two of them share a key.
   */
  lemma DashboardTotal(t: Table, q: QueueId, avg: int)
    requires avg > 0
    ensures forall i :: 0 <= i < |ListWaiting(t, q)| ==> ListWaiting(t, q)[i] in t
    ensures var n, total := |WaitingIds(t, q)|, EtaTotal(t, q, ListWaiting(t, q), avg);
      2 * total <= n * (n - 1) * avg && (2 * total == n * (n - 1) * avg <==> KeysDistinct(t, q))
  {
    TotalOfLine(t, q);
    EtaTotalIsMultiple(t, q, ListWaiting(t, q), avg);
    var n := |WaitingIds(t, q)|;
    ScaledTotal(TotalAhead(t, q, ListWaiting(t, q)), n * (n - 1), avg);
  }

  /** A second update of the estimates changes no row. */
  lemma EtaUpdateSettles(t: Table, q: QueueId, avg: int)
    ensures StaleEtas(EtaRows(t, q, avg), q, avg) == {}
  {
    var t' := EtaRows(t, q, avg);
    assert WaitingIds(t', q) == WaitingIds(t, q);
    SameRowsSameListing(t, t', q);
  }

  /** After the update a waiting row's estimate is its position times the average, if keys are distinct. */
  lemma EtaIsPositionTimesAverage(t: Table, q: QueueId, avg: int, x: EntryId)
    requires KeysDistinct(t, q) && x in WaitingIds(t, q)
    ensures EtaRows(t, q, avg)[x].eta == Some(PositionOf(t, q, x) * avg)
  {
    PositionsAgreeExactlyWhenDistinct(t, q);
  }
}
