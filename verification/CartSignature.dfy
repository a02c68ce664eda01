/**
 The signature of a cart: its positive items sorted by product id, printed as `id:quantity` and joined
 with '|'. Collation is a parameter; all it has to be is a total order on product ids.
 */
module CartSignature {
  import opened TicketFormat

  datatype Item = Item(productId: string, quantity: int)

  type Collation = (string, string) -> bool

  ghost predicate TotalOrder(leq: Collation) {
    && (forall a, b :: leq(a, b) || leq(b, a))
    && (forall a, b :: leq(a, b) && leq(b, a) ==> a == b)
    && (forall a, b, c :: leq(a, b) && leq(b, c) ==> leq(a, c))
  }

  function Positive(items: seq<Item>): seq<Item> {
    if items == [] then []
    else if items[0].quantity > 0 then [items[0]] + Positive(items[1..])
    else Positive(items[1..])
  }

  function Insert(item: Item, sorted: seq<Item>, leq: Collation): seq<Item> {
    if sorted == [] || leq(item.productId, sorted[0].productId) then [item] + sorted
    else [sorted[0]] + Insert(item, sorted[1..], leq)
  }

  /** A stable sort by product id. */
  function Sort(items: seq<Item>, leq: Collation): seq<Item> {
    if items == [] then [] else Insert(items[0], Sort(items[1..], leq), leq)
  }

  function Print(item: Item): string
    requires item.quantity >= 0
  {
    item.productId + ":" + Decimal(item.quantity)
  }

  function Join(parts: seq<string>): string {
    if parts == [] then ""
    else if |parts| == 1 then parts[0]
    else parts[0] + "|" + Join(parts[1..])
  }

  function PrintAll(items: seq<Item>): (parts: seq<string>)
    requires forall i :: 0 <= i < |items| ==> items[i].quantity > 0
    ensures |parts| == |items| && forall i :: 0 <= i < |items| ==> parts[i] == Print(items[i])
  {
    if items == [] then [] else [Print(items[0])] + PrintAll(items[1..])
  }

  function Signature(items: seq<Item>, leq: Collation): string {
    SortedIsPositive(items, leq);
    Join(PrintAll(Sort(Positive(items), leq)))
  }

  // ---------------------------------------------------------------- filtering and sorting

  lemma {:induction false} PositiveItems(items: seq<Item>)
    ensures forall x :: x in Positive(items) <==> x in items && x.quantity > 0
  {
    if items != [] {
      PositiveItems(items[1..]);
      assert items == [items[0]] + items[1..];
    }
  }

  lemma {:induction false} InsertItems(item: Item, sorted: seq<Item>, leq: Collation)
    ensures forall x :: x in Insert(item, sorted, leq) <==> x == item || x in sorted
  {
    if sorted != [] && !leq(item.productId, sorted[0].productId) {
      InsertItems(item, sorted[1..], leq);
      assert sorted == [sorted[0]] + sorted[1..];
    }
  }

  lemma {:induction false} SortItems(items: seq<Item>, leq: Collation)
    ensures forall x :: x in Sort(items, leq) <==> x in items
  {
    if items != [] {
      SortItems(items[1..], leq);
      InsertItems(items[0], Sort(items[1..], leq), leq);
      assert items == [items[0]] + items[1..];
    }
  }

  lemma SortedIsPositive(items: seq<Item>, leq: Collation)
    ensures forall x :: x in Sort(Positive(items), leq) <==> x in items && x.quantity > 0
  {
    PositiveItems(items);
    SortItems(Positive(items), leq);
  }

  ghost predicate IdsDistinct(items: seq<Item>) {
    forall i, j :: 0 <= i < j < |items| ==> items[i].productId != items[j].productId
  }

  /** Strictly ascending ids. */
  ghost predicate Ascending(items: seq<Item>, leq: Collation) {
    forall i, j :: 0 <= i < j < |items| ==>
      leq(items[i].productId, items[j].productId) && items[i].productId != items[j].productId
  }

  lemma {:induction false} PositiveIdsDistinct(items: seq<Item>)
    requires IdsDistinct(items)
    ensures IdsDistinct(Positive(items))
  {
    if items != [] {
      var rest := Positive(items[1..]);
      PositiveIdsDistinct(items[1..]);
      PositiveItems(items[1..]);
      forall j | 0 <= j < |rest|
        ensures rest[j].productId != items[0].productId
      {
        assert rest[j] in items[1..];
      }
    }
  }

  lemma {:induction false} InsertAscends(item: Item, sorted: seq<Item>, leq: Collation)
    requires TotalOrder(leq) && Ascending(sorted, leq)
    requires forall i :: 0 <= i < |sorted| ==> sorted[i].productId != item.productId
    ensures Ascending(Insert(item, sorted, leq), leq)
  {
    if sorted != [] && !leq(item.productId, sorted[0].productId) {
      var rest := Insert(item, sorted[1..], leq);
      InsertAscends(item, sorted[1..], leq);
      InsertItems(item, sorted[1..], leq);
      forall j | 0 <= j < |rest|
        ensures leq(sorted[0].productId, rest[j].productId) && sorted[0].productId != rest[j].productId
      {
        assert rest[j] == item || rest[j] in sorted[1..];
      }
    }
  }

  lemma {:induction false} SortAscends(items: seq<Item>, leq: Collation)
    requires TotalOrder(leq) && IdsDistinct(items)
    ensures Ascending(Sort(items, leq), leq)
  {
    if items != [] {
      var rest := Sort(items[1..], leq);
      SortAscends(items[1..], leq);
      SortItems(items[1..], leq);
      forall i | 0 <= i < |rest|
        ensures rest[i].productId != items[0].productId
      {
        assert rest[i] in items[1..];
      }
      InsertAscends(items[0], rest, leq);
    }
  }

  /** A set of items has one ascending arrangement. */
  lemma {:induction false} AscendingIsUnique(a: seq<Item>, b: seq<Item>, leq: Collation)
    requires TotalOrder(leq) && Ascending(a, leq) && Ascending(b, leq)
    requires forall x :: x in a <==> x in b
    ensures a == b
  {
    assert |a| > 0 ==> a[0] in b;
    assert |b| > 0 ==> b[0] in a;
    if a != [] {
      assert a[0] == b[0];
      forall x
        ensures x in a[1..] <==> x in b[1..]
      {
        assert a == [a[0]] + a[1..] && b == [b[0]] + b[1..];
        assert x in a[1..] ==> x in a && x != a[0];
        assert x in b[1..] ==> x in b && x != b[0];
      }
      AscendingIsUnique(a[1..], b[1..], leq);
      assert a == [a[0]] + a[1..] && b == [b[0]] + b[1..];
    }
  }

  // ---------------------------------------------------------------- reading a signature back

  lemma DecimalDigits(n: nat)
    ensures forall i :: 0 <= i < |Decimal(n)| ==> Decimal(n)[i] != ':' && Decimal(n)[i] != '|'
  {
    ParseOfDecimal(n);
  }

  /** An item can be read back from its text: the quantity is what follows the last ':'. */
  lemma PrintIsInjective(a: Item, b: Item)
    requires a.quantity >= 0 && b.quantity >= 0 && Print(a) == Print(b)
    ensures a == b
  {
    var p, i, j := Print(a), |a.productId|, |b.productId|;
    DecimalDigits(a.quantity);
    DecimalDigits(b.quantity);
    assert p[i] == ':' && p[j] == ':';
    assert forall k :: i < k < |p| ==> p[k] == Decimal(a.quantity)[k - i - 1];
    assert forall k :: j < k < |p| ==> p[k] == Decimal(b.quantity)[k - j - 1];
    assert i == j;
    assert p[i + 1..] == Decimal(a.quantity) && p[j + 1..] == Decimal(b.quantity);
    assert p[..i] == a.productId && p[..j] == b.productId;
    ParseOfDecimal(a.quantity);
    ParseOfDecimal(b.quantity);
  }

  ghost predicate BarFree(s: string) {
    '|' !in s
  }

  lemma PartsBeforeBar(x: string, xs: string, y: string, ys: string)
    requires BarFree(x) && BarFree(y) && x + "|" + xs == y + "|" + ys
    ensures x == y && xs == ys
  {
    var s := x + "|" + xs;
    assert s[|x|] == '|' && s[|y|] == '|';
    assert forall k :: 0 <= k < |x| ==> s[k] == x[k] && x[k] in x;
    assert forall k :: 0 <= k < |y| ==> s[k] == y[k] && y[k] in y;
    assert |x| == |y|;
    assert s[..|x|] == x && s[..|y|] == y;
    assert s[|x| + 1..] == xs && s[|y| + 1..] == ys;
  }

  lemma JoinShowsLength(a: seq<string>)
    requires forall i :: 0 <= i < |a| ==> BarFree(a[i]) && a[i] != ""
    ensures '|' in Join(a) <==> |a| >= 2
    ensures Join(a) == "" <==> a == []
  {
    if |a| >= 2 {
      assert Join(a)[|a[0]|] == '|';
    }
  }

  lemma {:induction false} JoinIsInjective(a: seq<string>, b: seq<string>)
    requires forall i :: 0 <= i < |a| ==> BarFree(a[i]) && a[i] != ""
    requires forall i :: 0 <= i < |b| ==> BarFree(b[i]) && b[i] != ""
    requires Join(a) == Join(b)
    ensures a == b
  {
    JoinShowsLength(a);
    JoinShowsLength(b);
    if |a| >= 2 {
      PartsBeforeBar(a[0], Join(a[1..]), b[0], Join(b[1..]));
      JoinIsInjective(a[1..], b[1..]);
      assert a == [a[0]] + a[1..] && b == [b[0]] + b[1..];
    }
  }

  // ---------------------------------------------------------------- canonical form

  /** A cart's product ids are distinct, and none contains the separator. */
  ghost predicate WellFormed(items: seq<Item>) {
    IdsDistinct(items) && forall i :: 0 <= i < |items| ==> BarFree(items[i].productId)
  }

  /** The cart as a map from product to positive quantity. */
  ghost function Quantities(items: seq<Item>): map<string, int> {
    map x | x in items && x.quantity > 0 :: x.productId := QuantityIn(items, x.productId)
  }

  ghost function QuantityIn(items: seq<Item>, id: string): int {
    if items == [] then 0
    else if items[0].productId == id then items[0].quantity
    else QuantityIn(items[1..], id)
  }

  lemma {:induction false} QuantityOfItem(items: seq<Item>, i: nat)
    requires IdsDistinct(items) && i < |items|
    ensures QuantityIn(items, items[i].productId) == items[i].quantity
  {
    if i > 0 {
      assert items[0].productId != items[i].productId;
      QuantityOfItem(items[1..], i - 1);
    }
  }

  lemma QuantitiesOf(items: seq<Item>)
    requires IdsDistinct(items)
    ensures forall id, q :: id in Quantities(items) && Quantities(items)[id] == q <==>
      Item(id, q) in items && q > 0
  {
    forall x | x in items
      ensures QuantityIn(items, x.productId) == x.quantity
    {
      var i :| 0 <= i < |items| && items[i] == x;
      QuantityOfItem(items, i);
    }
  }

  lemma SameQuantitiesSameItems(a: seq<Item>, b: seq<Item>)
    requires IdsDistinct(a) && IdsDistinct(b)
    ensures Quantities(a) == Quantities(b) <==>
      forall x :: x in a && x.quantity > 0 <==> x in b && x.quantity > 0
  {
    QuantitiesOf(a);
    QuantitiesOf(b);
    if Quantities(a) == Quantities(b) {
      forall x
        ensures x in a && x.quantity > 0 <==> x in b && x.quantity > 0
      {
        assert x == Item(x.productId, x.quantity);
      }
    }
    if forall x :: x in a && x.quantity > 0 <==> x in b && x.quantity > 0 {
      forall id
        ensures id in Quantities(a) <==> id in Quantities(b)
        ensures id in Quantities(a) ==> Quantities(a)[id] == Quantities(b)[id]
      {
        if id in Quantities(a) { assert Item(id, Quantities(a)[id]) in b; }
        if id in Quantities(b) { assert Item(id, Quantities(b)[id]) in a; }
      }
    }
  }

  lemma PrintedParts(items: seq<Item>, leq: Collation)
    requires WellFormed(items)
    ensures forall x :: x in Sort(Positive(items), leq) ==> x.quantity > 0 && BarFree(Print(x)) && Print(x) != ""
  {
    SortedIsPositive(items, leq);
    forall x | x in Sort(Positive(items), leq)
      ensures x.quantity > 0 && BarFree(Print(x)) && Print(x) != ""
    {
      DecimalDigits(x.quantity);
    }
  }

  lemma SameSignatureSameArrangement(a: seq<Item>, b: seq<Item>, leq: Collation)
    requires WellFormed(a) && WellFormed(b) && Signature(a, leq) == Signature(b, leq)
    ensures Sort(Positive(a), leq) == Sort(Positive(b), leq)
  {
    var sa, sb := Sort(Positive(a), leq), Sort(Positive(b), leq);
    PrintedParts(a, leq);
    PrintedParts(b, leq);
    var pa, pb := PrintAll(sa), PrintAll(sb);
    assert forall i :: 0 <= i < |pa| ==> pa[i] == Print(sa[i]) && sa[i] in sa;
    assert forall i :: 0 <= i < |pb| ==> pb[i] == Print(sb[i]) && sb[i] in sb;
    JoinIsInjective(pa, pb);
    forall i | 0 <= i < |sa|
      ensures sa[i] == sb[i]
    {
      PrintIsInjective(sa[i], sb[i]);
    }
  }

  lemma SameItemsSameArrangement(a: seq<Item>, b: seq<Item>, leq: Collation)
    requires TotalOrder(leq) && IdsDistinct(a) && IdsDistinct(b)
    requires forall x :: x in a && x.quantity > 0 <==> x in b && x.quantity > 0
    ensures Sort(Positive(a), leq) == Sort(Positive(b), leq)
  {
    SortedIsPositive(a, leq);
    SortedIsPositive(b, leq);
    PositiveIdsDistinct(a);
    PositiveIdsDistinct(b);
    SortAscends(Positive(a), leq);
    SortAscends(Positive(b), leq);
    AscendingIsUnique(Sort(Positive(a), leq), Sort(Positive(b), leq), leq);
  }

  /**
   The signature is a canonical form: two carts have the same one exactly when they hold the same
   positive quantities of the same products, whatever their order and their other items.
   */
  lemma SignatureIsCanonical(a: seq<Item>, b: seq<Item>, leq: Collation)
    requires TotalOrder(leq) && WellFormed(a) && WellFormed(b)
    ensures Signature(a, leq) == Signature(b, leq) <==> Quantities(a) == Quantities(b)
  {
    SameQuantitiesSameItems(a, b);
    if Signature(a, leq) == Signature(b, leq) {
      SameSignatureSameArrangement(a, b, leq);
      SortedIsPositive(a, leq);
      SortedIsPositive(b, leq);
    }
    if Quantities(a) == Quantities(b) {
      SameItemsSameArrangement(a, b, leq);
    }
  }

  /** An id that contains the separator can imitate two items. */
  lemma SeparatorInIdCollides(leq: Collation)
    requires TotalOrder(leq) && leq("a", "b")
    ensures Signature([Item("a:1|b", 2)], leq) == Signature([Item("a", 1), Item("b", 2)], leq)
    ensures Quantities([Item("a:1|b", 2)]) != Quantities([Item("a", 1), Item("b", 2)])
  {
    var one, b := [Item("a:1|b", 2)], [Item("b", 2)];
    var two := [Item("a", 1)] + b;
    assert two == [Item("a", 1), Item("b", 2)];
    assert two[1..] == b && one[1..] == [] && b[1..] == [];
    assert Positive(one) == one && Positive(b) == b && Positive(two) == two;
    assert Sort(b, leq) == b && Sort(two, leq) == two && Sort(one, leq) == one;
    assert Print(one[0]) == "a:1|b:2" && Print(two[0]) == "a:1" && Print(b[0]) == "b:2";
    assert PrintAll(one) == ["a:1|b:2"] && PrintAll(two) == ["a:1", "b:2"];
    assert ["a:1", "b:2"][1..] == ["b:2"] && "a:1" + "|" + "b:2" == "a:1|b:2";
    assert Item("a", 1) in two && Item("a", 1) !in one;
    SameQuantitiesSameItems(one, two);
  }
}
