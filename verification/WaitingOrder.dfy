/**
 The rows of `queue_entries` and the order in which a queue serves its waiting rows:
 `ORDER BY priority DESC, ticket_number ASC` over the rows with status 'waiting'.
 */
module WaitingOrder {
  import opened Options

  type EntryId = nat
  type QueueId = nat

  datatype Status = Waiting | Called | Serving | Served | Skipped | Cancelled | NoShow

  datatype Row = Row(
    queueId: QueueId,
    ticket: nat,
    businessDate: int,
    hasLineUser: bool,
    status: Status,
    priority: nat,
    absences: nat,
    eta: Option<int>,
    createdAt: int,
    calledAt: Option<int>,
    servingAt: Option<int>,
    servedAt: Option<int>,
    skippedAt: Option<int>,
    cancelledAt: Option<int>,
    noShowAt: Option<int>)

  type Table = map<EntryId, Row>

  /** The SQL sort key: a higher priority first, then a lower ticket number. */
  predicate Before(a: Row, b: Row) {
    a.priority > b.priority || (a.priority == b.priority && a.ticket < b.ticket)
  }

  /** The key order made total. SQL leaves rows with equal keys in any order; here the id decides. */
  predicate Ordered(t: Table, x: EntryId, y: EntryId)
    requires x in t && y in t
  {
    Before(t[x], t[y]) || (!Before(t[y], t[x]) && x < y)
  }

  /** `s` lists exactly the rows `ids`, each before all the later ones. */
  ghost predicate IsListing(t: Table, ids: set<EntryId>, s: seq<EntryId>)
    requires ids <= t.Keys
  {
    && (forall x :: x in s <==> x in ids)
    && (forall i, j :: 0 <= i < j < |s| ==> Ordered(t, s[i], s[j]))
  }

  lemma OrderedIsTransitive(t: Table, x: EntryId, y: EntryId, z: EntryId)
    requires x in t && y in t && z in t
    requires Ordered(t, x, y) && Ordered(t, y, z)
    ensures Ordered(t, x, z)
  {
  }

  ghost predicate IsFirst(t: Table, ids: set<EntryId>, x: EntryId)
    requires ids <= t.Keys
  {
    x in ids && forall y :: y in ids && y != x ==> Ordered(t, x, y)
  }

  lemma {:induction false} FirstExists(t: Table, ids: set<EntryId>)
    requires ids <= t.Keys && ids != {}
    ensures exists x :: IsFirst(t, ids, x)
    decreases |ids|
  {
    var x :| x in ids;
    if ids == {x} {
      assert IsFirst(t, ids, x);
    } else {
      var rest := ids - {x};
      FirstExists(t, rest);
      var f :| IsFirst(t, rest, f);
      if Ordered(t, f, x) {
        assert IsFirst(t, ids, f);
      } else {
        forall y | y in ids && y != x
          ensures Ordered(t, x, y)
        {
          if y != f { OrderedIsTransitive(t, x, f, y); }
        }
        assert IsFirst(t, ids, x);
      }
    }
  }

  function First(t: Table, ids: set<EntryId>): (x: EntryId)
    requires ids <= t.Keys && ids != {}
    ensures IsFirst(t, ids, x)
  {
    FirstExists(t, ids);
    assert exists x :: x in ids && forall y :: y in ids && y != x ==> Ordered(t, x, y) by {
      var f :| IsFirst(t, ids, f);
    }
    var x :| x in ids && forall y :: y in ids && y != x ==> Ordered(t, x, y);
    x
  }

  /** The rows `ids` in SQL order. */
  function OrderBy(t: Table, ids: set<EntryId>): (s: seq<EntryId>)
    requires ids <= t.Keys
    ensures |s| == |ids|
    decreases |ids|
  {
    if ids == {} then [] else var x := First(t, ids); [x] + OrderBy(t, ids - {x})
  }

  lemma {:induction false} OrderByLists(t: Table, ids: set<EntryId>)
    requires ids <= t.Keys
    ensures IsListing(t, ids, OrderBy(t, ids))
    decreases |ids|
  {
    if ids != {} {
      var x := First(t, ids);
      OrderByLists(t, ids - {x});
      ListingAfterFirst(t, ids, x, OrderBy(t, ids - {x}));
    }
  }

  lemma ListingAfterFirst(t: Table, ids: set<EntryId>, x: EntryId, rest: seq<EntryId>)
    requires ids <= t.Keys && IsFirst(t, ids, x) && IsListing(t, ids - {x}, rest)
    ensures IsListing(t, ids, [x] + rest)
  {
    var s := [x] + rest;
    forall y
      ensures y in s <==> y in ids
    {
      assert y in s <==> y == x || y in rest;
    }
    forall i, j | 0 <= i < j < |s|
      ensures Ordered(t, s[i], s[j])
    {
      assert s[j] == rest[j - 1] && s[j] in ids - {x};
      if i > 0 { assert s[i] == rest[i - 1]; }
    }
  }

  /** A set of rows has one listing only, so any sequence with the right rows in the right order is it. */
  lemma {:induction false} ListingIsUnique(t: Table, ids: set<EntryId>, a: seq<EntryId>, b: seq<EntryId>)
    requires ids <= t.Keys
    requires IsListing(t, ids, a) && IsListing(t, ids, b)
    ensures a == b
    decreases |a|
  {
    assert |a| > 0 ==> a[0] in ids;
    assert |b| > 0 ==> b[0] in ids;
    if a != [] {
      assert a[0] in ids && a[0] in b;
      assert b[0] in ids && b[0] in a;
      assert a[0] == b[0];
      var rest := ids - {a[0]};
      assert forall x :: x in a[1..] <==> x in rest;
      assert forall x :: x in b[1..] <==> x in rest;
      ListingIsUnique(t, rest, a[1..], b[1..]);
      assert a == [a[0]] + a[1..] && b == [b[0]] + b[1..];
    }
  }

  function WaitingIds(t: Table, q: QueueId): set<EntryId> {
    set id | id in t && t[id].queueId == q && t[id].status == Waiting
  }

  /** `listWaiting` without a limit. */
  function ListWaiting(t: Table, q: QueueId): seq<EntryId> {
    OrderBy(t, WaitingIds(t, q))
  }

  lemma Listed(t: Table, q: QueueId)
    ensures IsListing(t, WaitingIds(t, q), ListWaiting(t, q))
    ensures |ListWaiting(t, q)| == |WaitingIds(t, q)|
    ensures forall i, j :: 0 <= i < j < |ListWaiting(t, q)| ==> ListWaiting(t, q)[i] != ListWaiting(t, q)[j]
  {
    OrderByLists(t, WaitingIds(t, q));
    ListingHasNoRepeats(t, WaitingIds(t, q), ListWaiting(t, q));
  }

  /** A sequence that lists a queue's waiting rows in order is its listing. */
  lemma IsTheListing(t: Table, q: QueueId, s: seq<EntryId>)
    requires IsListing(t, WaitingIds(t, q), s)
    ensures ListWaiting(t, q) == s
  {
    OrderByLists(t, WaitingIds(t, q));
    ListingIsUnique(t, WaitingIds(t, q), ListWaiting(t, q), s);
  }

  /** The waiting row at position `k`. */
  function WaitingAt(t: Table, q: QueueId, k: nat): (id: EntryId)
    requires k < |ListWaiting(t, q)|
    ensures id in WaitingIds(t, q) && id == ListWaiting(t, q)[k]
  {
    Listed(t, q);
    ListWaiting(t, q)[k]
  }

  /** The first place of `x` in `s`. */
  function IndexOf(s: seq<EntryId>, x: EntryId): (i: nat)
    requires x in s
    ensures i < |s| && s[i] == x
  {
    IndexFrom(s, x, 0)
  }

  function IndexFrom(s: seq<EntryId>, x: EntryId, from: nat): (i: nat)
    requires exists k :: from <= k < |s| && s[k] == x
    ensures from <= i < |s| && s[i] == x
    decreases |s| - from
  {
    if s[from] == x then from else IndexFrom(s, x, from + 1)
  }

  /** `s` with its first `x` taken out; everyone else keeps their relative order. */
  function Without(s: seq<EntryId>, x: EntryId): seq<EntryId> {
    if x in s then var i := IndexOf(s, x); s[..i] + s[i + 1..] else s
  }

  function InsertAt(s: seq<EntryId>, i: nat, x: EntryId): seq<EntryId>
    requires i <= |s|
  {
    s[..i] + [x] + s[i..]
  }

  lemma ListingOfUnchangedKeys(t: Table, t': Table, ids: set<EntryId>, s: seq<EntryId>)
    requires ids <= t.Keys && ids <= t'.Keys
    requires IsListing(t, ids, s)
    requires forall x :: x in ids ==> t[x].priority == t'[x].priority && t[x].ticket == t'[x].ticket
    ensures IsListing(t', ids, s)
  {
    forall i, j | 0 <= i < j < |s|
      ensures Ordered(t', s[i], s[j])
    {
      assert s[i] in ids && s[j] in ids;
      assert Ordered(t, s[i], s[j]);
    }
  }

  lemma ListingHasNoRepeats(t: Table, ids: set<EntryId>, s: seq<EntryId>)
    requires ids <= t.Keys && IsListing(t, ids, s)
    ensures forall i, j :: 0 <= i < j < |s| ==> s[i] != s[j]
  {
    forall i, j | 0 <= i < j < |s|
      ensures s[i] != s[j]
    {
      assert Ordered(t, s[i], s[j]);
    }
  }

  lemma WithoutKeepsOthers(s: seq<EntryId>, x: EntryId)
    requires x in s
    requires forall i, j :: 0 <= i < j < |s| ==> s[i] != s[j]
    ensures forall y :: y in Without(s, x) <==> y in s && y != x
  {
    var i := IndexOf(s, x);
    var before, after := s[..i], s[i + 1..];
    assert s == before + [x] + after;
    assert x !in before && x !in after;
  }

  lemma ListingWithout(t: Table, ids: set<EntryId>, s: seq<EntryId>, x: EntryId)
    requires ids <= t.Keys && IsListing(t, ids, s) && x in ids
    ensures IsListing(t, ids - {x}, Without(s, x))
  {
    ListingHasNoRepeats(t, ids, s);
    WithoutKeepsOthers(s, x);
    var i := IndexOf(s, x);
    var w := Without(s, x);
    forall k, l | 0 <= k < l < |w|
      ensures Ordered(t, w[k], w[l])
    {
      assert Ordered(t, s[if k < i then k else k + 1], s[if l < i then l else l + 1]);
    }
  }

  lemma ListingWithInserted(t: Table, ids: set<EntryId>, s: seq<EntryId>, i: nat, x: EntryId)
    requires ids <= t.Keys && IsListing(t, ids, s) && x in t && x !in ids && i <= |s|
    requires forall k :: 0 <= k < |s| ==> s[k] in ids
    requires forall k :: 0 <= k < i ==> Ordered(t, s[k], x)
    requires forall k :: i <= k < |s| ==> Ordered(t, x, s[k])
    ensures IsListing(t, ids + {x}, InsertAt(s, i, x))
  {
    var w := InsertAt(s, i, x);
    assert forall k :: 0 <= k < |w| && k != i ==> w[k] == s[if k < i then k else k - 1];
    forall y
      ensures y in w <==> y in ids + {x}
    {
      if y in ids {
        var k := IndexOf(s, y);
        assert w[if k < i then k else k + 1] == y;
      }
      assert w[i] == x;
    }
    forall k, l | 0 <= k < l < |w|
      ensures Ordered(t, w[k], w[l])
    {
      if k != i && l != i {
        assert Ordered(t, s[if k < i then k else k - 1], s[if l < i then l else l - 1]);
      }
    }
  }

  /** The listing of a queue depends only on its own waiting rows and their keys. */
  lemma SameRowsSameListing(t: Table, t': Table, q: QueueId)
    requires WaitingIds(t, q) == WaitingIds(t', q)
    requires forall id :: id in WaitingIds(t, q) ==> t[id].priority == t'[id].priority && t[id].ticket == t'[id].ticket
    ensures ListWaiting(t, q) == ListWaiting(t', q)
  {
    Listed(t, q);
    ListingOfUnchangedKeys(t, t', WaitingIds(t, q), ListWaiting(t, q));
    IsTheListing(t', q, ListWaiting(t, q));
  }

  /** A row that stops waiting leaves its queue's line; every other line is untouched. */
  lemma LeavingRow(t: Table, id: EntryId, row: Row, q: QueueId)
    requires id in t && row.queueId == t[id].queueId && row.status != Waiting
    ensures ListWaiting(t[id := row], q) == Without(ListWaiting(t, q), id)
  {
    var t' := t[id := row];
    var ids, s := WaitingIds(t, q), ListWaiting(t, q);
    Listed(t, q);
    if id in ids {
      assert WaitingIds(t', q) == ids - {id};
      ListingWithout(t, ids, s, id);
      ListingOfUnchangedKeys(t, t', ids - {id}, Without(s, id));
      IsTheListing(t', q, Without(s, id));
    } else {
      UnrelatedRow(t, id, row, q);
    }
  }

  /** A row that starts waiting goes to the place its key gives it. */
  lemma EnteringRow(t: Table, id: EntryId, row: Row, q: QueueId, i: nat)
    requires row.queueId == q && row.status == Waiting
    requires id !in WaitingIds(t, q)
    requires i <= |ListWaiting(t, q)|
    requires forall k :: 0 <= k < i ==> Before(t[WaitingAt(t, q, k)], row)
    requires forall k :: i <= k < |ListWaiting(t, q)| ==> Before(row, t[WaitingAt(t, q, k)])
    ensures ListWaiting(t[id := row], q) == InsertAt(ListWaiting(t, q), i, id)
  {
    var t' := t[id := row];
    var ids, s := WaitingIds(t, q), ListWaiting(t, q);
    Listed(t, q);
    assert WaitingIds(t', q) == ids + {id};
    ListingOfUnchangedKeys(t, t', ids, s);
    forall k | 0 <= k < |s|
      ensures s[k] in ids && if k < i then Ordered(t', s[k], id) else Ordered(t', id, s[k])
    {
      assert s[k] == WaitingAt(t, q, k);
    }
    ListingWithInserted(t', ids, s, i, id);
    IsTheListing(t', q, InsertAt(s, i, id));
  }

  /** A row of another queue, or one that does not wait before or after, does not matter to `q`. */
  lemma UnrelatedRow(t: Table, id: EntryId, row: Row, q: QueueId)
    requires row.queueId != q || row.status != Waiting
    requires id !in WaitingIds(t, q)
    ensures ListWaiting(t[id := row], q) == ListWaiting(t, q)
  {
    assert WaitingIds(t[id := row], q) == WaitingIds(t, q);
    SameRowsSameListing(t, t[id := row], q);
  }
}
