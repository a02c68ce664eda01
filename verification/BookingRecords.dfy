/**
 The bookings a browser remembers under one storage key: the newest first, one per queue entry, at
 most twenty, with repeated bookings of an entry merged product by product.
 */
module BookingRecords {
  import opened Options

  const MAX_RECORDS := 20

  datatype Item = Item(productId: string, name: string, quantity: int, unitPrice: int, subtotal: int)

  datatype Record = Record(queueEntryId: string, orderId: string, createdAt: int, items: seq<Item>, subtotal: int)

  datatype Group = Group(orgSlug: string, records: seq<Record>)

  // ---------------------------------------------------------------- merging items

  /** The place of a product, or the length. */
  function PlaceOf(items: seq<Item>, productId: string): (i: nat)
    ensures i <= |items| && (i < |items| ==> items[i].productId == productId)
    ensures forall k :: 0 <= k < i ==> items[k].productId != productId
  {
    if items == [] || items[0].productId == productId then 0 else 1 + PlaceOf(items[1..], productId)
  }

  /** `Map.set` with the sum: a known product keeps its place and takes the new item's other fields. */
  function Merge(merged: seq<Item>, item: Item): seq<Item> {
    var i := PlaceOf(merged, item.productId);
    if i < |merged| then
      merged[i := item.(
        quantity := merged[i].quantity + item.quantity,
        subtotal := merged[i].subtotal + item.subtotal)]
    else merged + [item]
  }

  function MergeAll(items: seq<Item>): seq<Item> {
    if items == [] then [] else Merge(MergeAll(items[..|items| - 1]), items[|items| - 1])
  }

  function QuantityOf(items: seq<Item>, p: string): int {
    if items == [] then 0
    else
      var last := items[|items| - 1];
      QuantityOf(items[..|items| - 1], p) + if last.productId == p then last.quantity else 0
  }

  function SubtotalOf(items: seq<Item>, p: string): int {
    if items == [] then 0
    else
      var last := items[|items| - 1];
      SubtotalOf(items[..|items| - 1], p) + if last.productId == p then last.subtotal else 0
  }

  lemma SumsOfSnoc(items: seq<Item>, x: Item, p: string)
    ensures QuantityOf(items + [x], p) == QuantityOf(items, p) + if x.productId == p then x.quantity else 0
    ensures SubtotalOf(items + [x], p) == SubtotalOf(items, p) + if x.productId == p then x.subtotal else 0
  {
    assert (items + [x])[..|items|] == items;
  }

  lemma {:induction false} SumsOfConcat(a: seq<Item>, b: seq<Item>, p: string)
    ensures QuantityOf(a + b, p) == QuantityOf(a, p) + QuantityOf(b, p)
    ensures SubtotalOf(a + b, p) == SubtotalOf(a, p) + SubtotalOf(b, p)
  {
    if b == [] {
      assert a + b == a;
    } else {
      SumsOfConcat(a, b[..|b| - 1], p);
      assert (a + b)[..|a + b| - 1] == a + b[..|b| - 1];
    }
  }

  /** Replacing one item by another of the same product shifts that product's sums by the difference. */
  lemma {:induction false} SumsOfUpdate(items: seq<Item>, i: nat, x: Item, p: string)
    requires i < |items| && items[i].productId == x.productId
    ensures QuantityOf(items[i := x], p) ==
      QuantityOf(items, p) + if x.productId == p then x.quantity - items[i].quantity else 0
    ensures SubtotalOf(items[i := x], p) ==
      SubtotalOf(items, p) + if x.productId == p then x.subtotal - items[i].subtotal else 0
  {
    var n := |items| - 1;
    if i == n {
      assert items[i := x][..n] == items[..n];
    } else {
      SumsOfUpdate(items[..n], i, x, p);
      assert items[i := x][..n] == items[..n][i := x];
    }
  }

  lemma MergeAddsUp(merged: seq<Item>, item: Item, p: string)
    ensures QuantityOf(Merge(merged, item), p) == QuantityOf(merged + [item], p)
    ensures SubtotalOf(Merge(merged, item), p) == SubtotalOf(merged + [item], p)
  {
    SumsOfSnoc(merged, item, p);
    var i := PlaceOf(merged, item.productId);
    if i < |merged| { SumsOfUpdate(merged, i, Merge(merged, item)[i], p); }
  }

  ghost predicate ProductsDistinct(items: seq<Item>) {
    forall i, j :: 0 <= i < j < |items| ==> items[i].productId != items[j].productId
  }

  lemma MergeKeepsDistinct(merged: seq<Item>, item: Item)
    requires ProductsDistinct(merged)
    ensures ProductsDistinct(Merge(merged, item))
  {
  }

  lemma {:induction false} MergeAllDistinct(items: seq<Item>)
    ensures ProductsDistinct(MergeAll(items))
  {
    if items != [] {
      MergeAllDistinct(items[..|items| - 1]);
      MergeKeepsDistinct(MergeAll(items[..|items| - 1]), items[|items| - 1]);
    }
  }

  /** Merging keeps every product's quantity and subtotal and leaves one item per product. */
  lemma {:induction false} MergeAllAddsUp(items: seq<Item>, p: string)
    ensures QuantityOf(MergeAll(items), p) == QuantityOf(items, p)
    ensures SubtotalOf(MergeAll(items), p) == SubtotalOf(items, p)
    ensures ProductsDistinct(MergeAll(items))
  {
    MergeAllDistinct(items);
    if items != [] {
      var before, last := items[..|items| - 1], items[|items| - 1];
      MergeAllAddsUp(before, p);
      MergeAddsUp(MergeAll(before), last, p);
      SumsOfSnoc(MergeAll(before), last, p);
    }
  }

  /** A merged item keeps its place and takes name and unit price from the newer one; others are untouched. */
  lemma MergeTakesNewer(merged: seq<Item>, item: Item)
    requires ProductsDistinct(merged)
    ensures (forall x :: x in merged ==> x.productId != item.productId) ==> Merge(merged, item) == merged + [item]
    ensures forall i :: 0 <= i < |merged| && merged[i].productId == item.productId ==>
      && |Merge(merged, item)| == |merged| && (forall j :: 0 <= j < |merged| && j != i ==> Merge(merged, item)[j] == merged[j])
      && Merge(merged, item)[i] == Item(item.productId, item.name, merged[i].quantity + item.quantity, item.unitPrice,
                                       merged[i].subtotal + item.subtotal)
  {
    var i := PlaceOf(merged, item.productId);
    if i < |merged| {
      assert merged[i] in merged;
    }
  }

  /** The sum of all item subtotals. */
  function ItemTotal(items: seq<Item>): int {
    if items == [] then 0 else ItemTotal(items[..|items| - 1]) + items[|items| - 1].subtotal
  }

  lemma TotalOfSnoc(items: seq<Item>, x: Item)
    ensures ItemTotal(items + [x]) == ItemTotal(items) + x.subtotal
  {
    assert (items + [x])[..|items|] == items;
  }

  lemma {:induction false} TotalOfConcat(a: seq<Item>, b: seq<Item>)
    ensures ItemTotal(a + b) == ItemTotal(a) + ItemTotal(b)
  {
    if b == [] {
      assert a + b == a;
    } else {
      TotalOfConcat(a, b[..|b| - 1]);
      assert (a + b)[..|a + b| - 1] == a + b[..|b| - 1];
    }
  }

  lemma {:induction false} TotalOfUpdate(items: seq<Item>, i: nat, x: Item)
    requires i < |items|
    ensures ItemTotal(items[i := x]) == ItemTotal(items) - items[i].subtotal + x.subtotal
  {
    var n := |items| - 1;
    if i < n {
      TotalOfUpdate(items[..n], i, x);
      assert items[i := x][..n] == items[..n][i := x];
    } else {
      assert items[i := x][..n] == items[..n];
    }
  }

  lemma {:induction false} MergeAllKeepsTotal(items: seq<Item>)
    ensures ItemTotal(MergeAll(items)) == ItemTotal(items)
  {
    if items != [] {
      var merged, last := MergeAll(items[..|items| - 1]), items[|items| - 1];
      MergeAllKeepsTotal(items[..|items| - 1]);
      var i := PlaceOf(merged, last.productId);
      if i < |merged| { TotalOfUpdate(merged, i, Merge(merged, last)[i]); } else { TotalOfSnoc(merged, last); }
    }
  }

  // ---------------------------------------------------------------- appending a record

  /** The first record of an entry. */
  function Find(records: seq<Record>, id: string): Option<Record> {
    if records == [] then None
    else if records[0].queueEntryId == id then Some(records[0])
    else Find(records[1..], id)
  }

  function Drop(records: seq<Record>, id: string): seq<Record> {
    if records == [] then []
    else if records[0].queueEntryId == id then Drop(records[1..], id)
    else [records[0]] + Drop(records[1..], id)
  }

  function Newest<T>(s: seq<T>): seq<T> {
    if |s| <= MAX_RECORDS then s else s[..MAX_RECORDS]
  }

  function Combined(previous: Option<Record>, record: Record): Record {
    match previous
    case None => record
    case Some(earlier) => record.(createdAt := earlier.createdAt, items := MergeAll(earlier.items + record.items))
  }

  function AppendRecord(records: seq<Record>, record: Record): seq<Record> {
    Newest([Combined(Find(records, record.queueEntryId), record)] + Drop(records, record.queueEntryId))
  }

  /** Local storage, as far as booking groups go. */
  class BookingStorage {
    var groups: map<string, Group>

    constructor ()
      ensures groups == map[]
    {
      groups := map[];
    }

    /** The `reduce` into a map, whose entries keep the order of their first insertion. */
    static method MergeItems(all: seq<Item>) returns (merged: seq<Item>)
      ensures merged == MergeAll(all)
    {
      merged := [];
      for i := 0 to |all|
        invariant merged == MergeAll(all[..i])
      {
        var current := PlaceOf(merged, all[i].productId);
        if current < |merged| {
          merged := merged[current := all[i].(
            quantity := merged[current].quantity + all[i].quantity,
            subtotal := merged[current].subtotal + all[i].subtotal)];
        } else {
          merged := merged + [all[i]];
        }
        assert all[..i + 1][..i] == all[..i];
      }
      assert all[..|all|] == all;
    }

    method AppendBookingRecord(key: string, orgSlug: string, record: Record) returns (group: Group)
      modifies this
      ensures var records := if key in old(groups) then old(groups)[key].records else [];
        group == Group(orgSlug, AppendRecord(records, record))
      ensures groups == old(groups)[key := group]
    {
      var records := if key in groups then groups[key].records else [];
      var previous := Find(records, record.queueEntryId);
      var next := record;
      if previous.Some? {
        var merged := MergeItems(previous.value.items + record.items);
        next := record.(createdAt := previous.value.createdAt, items := merged);
      }
      group := Group(orgSlug, Newest([next] + Drop(records, record.queueEntryId)));
      groups := groups[key := group];
    }
  }

  // ---------------------------------------------------------------- a history of appends

  function RecordsAfter(history: seq<Record>): seq<Record> {
    if history == [] then []
    else AppendRecord(RecordsAfter(history[..|history| - 1]), history[|history| - 1])
  }

  function WithoutId(ids: seq<string>, id: string): seq<string> {
    if ids == [] then []
    else if ids[0] == id then WithoutId(ids[1..], id)
    else [ids[0]] + WithoutId(ids[1..], id)
  }

  /** All entry ids ever appended, each once, by its latest append, newest first. */
  function RecentIds(history: seq<Record>): seq<string> {
    if history == [] then []
    else
      var last := history[|history| - 1].queueEntryId;
      [last] + WithoutId(RecentIds(history[..|history| - 1]), last)
  }

  /** The appends of an entry since it last entered the list: an entry that was pushed out starts anew. */
  function Since(history: seq<Record>, id: string): seq<Record> {
    if history == [] then []
    else
      var before, last := history[..|history| - 1], history[|history| - 1];
      if last.queueEntryId != id then Since(before, id)
      else if id in Newest(RecentIds(before)) then Since(before, id) + [last]
      else [last]
  }

  function AllItems(appends: seq<Record>): seq<Item> {
    if appends == [] then [] else AllItems(appends[..|appends| - 1]) + appends[|appends| - 1].items
  }

  function Ids(records: seq<Record>): (ids: seq<string>)
    ensures |ids| == |records| && forall i :: 0 <= i < |ids| ==> ids[i] == records[i].queueEntryId
  {
    seq(|records|, i requires 0 <= i < |records| => records[i].queueEntryId)
  }

  ghost predicate Distinct(ids: seq<string>) {
    forall i, j :: 0 <= i < j < |ids| ==> ids[i] != ids[j]
  }

  // ---------------------------------------------------------------- which entries are listed

  lemma {:induction false} WithoutIdFacts(ids: seq<string>, id: string)
    ensures forall x :: x in WithoutId(ids, id) <==> x in ids && x != id
    ensures Distinct(ids) ==> Distinct(WithoutId(ids, id))
    ensures Distinct(ids) ==> |WithoutId(ids, id)| == |ids| - if id in ids then 1 else 0
    ensures id !in ids ==> WithoutId(ids, id) == ids
  {
    if ids != [] {
      WithoutIdFacts(ids[1..], id);
      assert ids == [ids[0]] + ids[1..];
      if Distinct(ids) {
        assert ids[0] !in ids[1..];
        var rest := WithoutId(ids[1..], id);
        assert forall j :: 0 <= j < |rest| ==> rest[j] in ids[1..];
      }
    }
  }

  lemma {:induction false} RecentIdsDistinct(history: seq<Record>)
    ensures Distinct(RecentIds(history))
  {
    if history != [] {
      var before, last := history[..|history| - 1], history[|history| - 1].queueEntryId;
      RecentIdsDistinct(before);
      WithoutIdFacts(RecentIds(before), last);
      var rest := WithoutId(RecentIds(before), last);
      assert forall j :: 0 <= j < |rest| ==> rest[j] in rest;
    }
  }

  lemma IdsOfTail(records: seq<Record>)
    requires records != []
    ensures records == [records[0]] + records[1..]
    ensures Ids(records) == [records[0].queueEntryId] + Ids(records[1..])
    ensures Ids(records)[1..] == Ids(records[1..])
  {
  }

  lemma {:induction false} IdsOfDrop(records: seq<Record>, id: string)
    ensures Ids(Drop(records, id)) == WithoutId(Ids(records), id)
    ensures forall r :: r in Drop(records, id) <==> r in records && r.queueEntryId != id
  {
    if records != [] {
      IdsOfDrop(records[1..], id);
      IdsOfTail(records);
    }
  }

  /** Taking an id out of the first `n` and out of all of them agree on the first `n` that remain. */
  lemma {:induction false} WithoutIdOfPrefix(ids: seq<string>, id: string, n: nat)
    requires n <= |ids|
    ensures WithoutId(ids[..n], id) <= WithoutId(ids, id)
  {
    if n > 0 {
      WithoutIdOfPrefix(ids[1..], id, n - 1);
      assert ids[..n][1..] == ids[1..][..n - 1];
    }
  }

  /** Dropping the oldest record before an append or after it leaves the same list. */
  lemma TruncationCommutes(ids: seq<string>, id: string)
    requires Distinct(ids)
    ensures Newest([id] + WithoutId(Newest(ids), id)) == Newest([id] + WithoutId(ids, id))
  {
    var t := Newest(ids);
    assert t == ids[..|t|];
    assert Distinct(t);
    WithoutIdFacts(ids, id);
    WithoutIdFacts(t, id);
    WithoutIdOfPrefix(ids, id, |t|);
    var a, b := [id] + WithoutId(t, id), [id] + WithoutId(ids, id);
    assert a <= b;
    if |ids| > MAX_RECORDS { assert |a| >= MAX_RECORDS; } else { assert t == ids; }
    assert Newest(a) == Newest(b);
  }

  /** The group lists the up to twenty most recently appended entries, newest first, each once. */
  lemma {:induction false} ListsMostRecentEntries(history: seq<Record>)
    ensures Ids(RecordsAfter(history)) == Newest(RecentIds(history))
    ensures Distinct(Ids(RecordsAfter(history)))
  {
    RecentIdsDistinct(history);
    if history != [] {
      var before, last := history[..|history| - 1], history[|history| - 1];
      var records, id := RecordsAfter(before), last.queueEntryId;
      ListsMostRecentEntries(before);
      RecentIdsDistinct(before);
      IdsOfDrop(records, id);
      var all := [Combined(Find(records, id), last)] + Drop(records, id);
      assert Ids(all) == [id] + WithoutId(Ids(records), id);
      assert Ids(Newest(all)) == Newest(Ids(all));
      TruncationCommutes(RecentIds(before), id);
    }
  }

  /** The group lists as many records as entries were appended, up to twenty. */
  lemma ListsUpToTwenty(history: seq<Record>)
    ensures |RecordsAfter(history)| == Min(20, |RecentIds(history)|)
    ensures Ids(RecordsAfter(history)) <= RecentIds(history)
  {
    ListsMostRecentEntries(history);
  }

  // ---------------------------------------------------------------- what each record holds

  lemma {:induction false} FindFacts(records: seq<Record>, id: string)
    ensures Find(records, id).Some? <==> id in Ids(records)
    ensures Find(records, id).Some? ==>
      Find(records, id).value in records && Find(records, id).value.queueEntryId == id
  {
    if records != [] {
      var rest := records[1..];
      FindFacts(rest, id);
      IdsOfTail(records);
      assert id in Ids(records) <==> records[0].queueEntryId == id || id in Ids(rest);
      assert forall r :: r in rest ==> r in records;
    }
  }

  ghost predicate Holds(r: Record, appends: seq<Record>) {
    && appends != []
    && r.createdAt == appends[0].createdAt
    && r.orderId == appends[|appends| - 1].orderId && r.subtotal == appends[|appends| - 1].subtotal
    && ItemTotal(r.items) == ItemTotal(AllItems(appends))
    && (forall p :: QuantityOf(r.items, p) == QuantityOf(AllItems(appends), p))
    && (forall p :: SubtotalOf(r.items, p) == SubtotalOf(AllItems(appends), p))
  }

  lemma CombinedHolds(previous: Option<Record>, appends: seq<Record>, record: Record)
    requires previous.Some? ==> Holds(previous.value, appends)
    ensures Holds(Combined(previous, record), if previous.Some? then appends + [record] else [record])
  {
    var r := Combined(previous, record);
    if previous.Some? {
      var now := appends + [record];
      assert now[..|now| - 1] == appends;
      MergeAllKeepsTotal(previous.value.items + record.items);
      TotalOfConcat(previous.value.items, record.items);
      TotalOfConcat(AllItems(appends), record.items);
      forall p
        ensures QuantityOf(r.items, p) == QuantityOf(AllItems(now), p)
        ensures SubtotalOf(r.items, p) == SubtotalOf(AllItems(now), p)
      {
        MergeAllAddsUp(previous.value.items + record.items, p);
        SumsOfConcat(previous.value.items, record.items, p);
        SumsOfConcat(AllItems(appends), record.items, p);
      }
    } else {
      assert [record][..0] == [];
      assert AllItems([record]) == record.items;
    }
  }

  /**
   Every listed record holds, product by product, the quantities and subtotals of all appends since its
   entry last entered the list, was created with the first of them, and is otherwise the last of them.
   */
  lemma {:induction false} RecordsHoldTheirSums(history: seq<Record>, r: Record)
    requires r in RecordsAfter(history)
    ensures Holds(r, Since(history, r.queueEntryId))
  {
    var before, last := history[..|history| - 1], history[|history| - 1];
    var records, id := RecordsAfter(before), last.queueEntryId;
    AppendedRecord(records, last, r);
    if r.queueEntryId != id {
      RecordsHoldTheirSums(before, r);
    } else {
      var previous := Find(records, id);
      FindFacts(records, id);
      ListsMostRecentEntries(before);
      if previous.Some? { RecordsHoldTheirSums(before, previous.value); }
      CombinedHolds(previous, Since(before, id), last);
    }
  }

  lemma AppendedRecord(records: seq<Record>, last: Record, r: Record)
    requires r in AppendRecord(records, last)
    ensures if r.queueEntryId == last.queueEntryId then r == Combined(Find(records, last.queueEntryId), last)
            else r in records
  {
    var first, rest := Combined(Find(records, last.queueEntryId), last), Drop(records, last.queueEntryId);
    IdsOfDrop(records, last.queueEntryId);
    assert r in [first] + rest;
  }

  // ---------------------------------------------------------------- the record's own subtotal

  /** The record's subtotal is what its items add up to. */
  predicate AddsUp(r: Record) {
    r.subtotal == ItemTotal(r.items)
  }

  function SubtotalSum(appends: seq<Record>): int {
    if appends == [] then 0 else SubtotalSum(appends[..|appends| - 1]) + appends[|appends| - 1].subtotal
  }

  lemma {:induction false} TotalOfAppends(appends: seq<Record>)
    requires forall i :: 0 <= i < |appends| ==> AddsUp(appends[i])
    ensures ItemTotal(AllItems(appends)) == SubtotalSum(appends)
  {
    if appends != [] {
      var before, last := appends[..|appends| - 1], appends[|appends| - 1];
      TotalOfAppends(before);
      TotalOfConcat(AllItems(before), last.items);
      assert AddsUp(last);
    }
  }

  /** For one append of a record that adds up: the stored one does exactly when nothing of value was there before. */
  lemma StoredAddsUpExactlyWhen(previous: Option<Record>, record: Record)
    requires AddsUp(record)
    ensures AddsUp(Combined(previous, record)) <==> previous.Some? ==> ItemTotal(previous.value.items) == 0
  {
    if previous.Some? {
      MergeAllKeepsTotal(previous.value.items + record.items);
      TotalOfConcat(previous.value.items, record.items);
    }
  }

  /**
   Over a whole history: a listed record adds up, all appends of its entry since it entered the list having
   done so, exactly when the subtotals of all these appends but the last sum to 0.
   */
  lemma ListedAddsUpExactlyWhen(history: seq<Record>, r: Record)
    requires r in RecordsAfter(history)
    requires forall a :: a in Since(history, r.queueEntryId) ==> AddsUp(a)
    ensures var appends := Since(history, r.queueEntryId);
      appends != [] && (AddsUp(r) <==> SubtotalSum(appends[..|appends| - 1]) == 0)
  {
    var appends := Since(history, r.queueEntryId);
    RecordsHoldTheirSums(history, r);
    TotalOfAppends(appends);
  }

  /** Two equal bookings of one entry: the items say 200, the record says 100. */
  lemma SecondBookingDoesNotAddUp(id: string, order: string, now: int)
    ensures var item := Item("p", "tea", 1, 100, 100);
      var booking := Record(id, order, now, [item], 100);
      && AddsUp(booking) && AppendRecord([], booking) == [booking]
      && AppendRecord([booking], booking) == [booking.(items := [item.(quantity := 2, subtotal := 200)])]
      && !AddsUp(AppendRecord([booking], booking)[0])
  {
    var item := Item("p", "tea", 1, 100, 100);
    var booking := Record(id, order, now, [item], 100);
    assert ItemTotal([item]) == 100 by { TotalOfSnoc([], item); assert [] + [item] == [item]; }
    var both, sum := [item] + [item], item.(quantity := 2, subtotal := 200);
    assert both[..1] == [item] && [item][..0] == [];
    assert MergeAll([item]) == [item];
    assert MergeAll(both) == [item][0 := sum];
    assert [item][0 := sum] == [sum];
    assert Drop([booking], id) == [];
    assert Find([booking], id) == Some(booking);
    assert ItemTotal([sum]) == 200 by { TotalOfSnoc([], sum); assert [] + [sum] == [sum]; }
  }
}
