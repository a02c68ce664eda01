/**
 Product codes: the migrations that number the existing products and seed the counters, and the
 shared counter row from which new codes and order numbers are taken.
 */
module CatalogCodes {
  import opened Options
  import opened Sets
  import opened TicketFormat

  type OrgId = nat
  type ProductId = nat

  datatype Kind = Product | Service

  datatype Row = Row(org: OrgId, kind: Kind, code: string, createdAt: int)

  /** The row of `organization_counters`; each column holds the next number to hand out. */
  datatype Counters = Counters(nextOrder: nat, nextProduct: nat, nextService: nat)

  type Products = map<ProductId, Row>
  type CounterRows = map<OrgId, Counters>

  function Prefix(kind: Kind): string {
    match kind
    case Product => "SP"
    case Service => "DV"
  }

  function Code(kind: Kind, n: nat): string {
    Prefix(kind) + Decimal(n)
  }

  /** The number of a code that matches `^SP[1-9][0-9]*$` or `^DV[1-9][0-9]*$`, as `SUBSTRING(code FROM 3)` reads it. */
  function NumberUnder(kind: Kind, code: string): Option<nat> {
    if |code| >= 3 && code[..2] == Prefix(kind) && code[2] != '0' && IsNumeral(code[2..]) then Some(Parse(code[2..]))
    else None
  }

  lemma {:induction false} DecimalHasNoLeadingZero(n: nat)
    requires n > 0
    ensures Decimal(n)[0] != '0'
  {
    if n >= 10 {
      DecimalHasNoLeadingZero(n / 10);
    }
  }

  /** A generated code reads back as its number, under its own prefix only. */
  lemma CodeReadsBack(kind: Kind, n: nat)
    requires n > 0
    ensures NumberUnder(kind, Code(kind, n)) == Some(n)
    ensures forall other :: other != kind ==> NumberUnder(other, Code(kind, n)) == None
  {
    var code := Code(kind, n);
    assert code[2..] == Decimal(n) && code[..2] == Prefix(kind);
    DecimalHasNoLeadingZero(n);
    ParseOfDecimal(n);
    assert Prefix(Product)[0] == 'S' && Prefix(Service)[0] == 'D' && code[..2][0] == code[0];
  }

  // ---------------------------------------------------------------- numbering the existing products

  predicate Precedes(t: Products, x: ProductId, y: ProductId)
    requires x in t && y in t
  {
    t[x].createdAt < t[y].createdAt || (t[x].createdAt == t[y].createdAt && x <= y)
  }

  function Partition(t: Products, org: OrgId, kind: Kind): set<ProductId> {
    set x | x in t && t[x].org == org && t[x].kind == kind
  }

  function UpTo(t: Products, id: ProductId): set<ProductId>
    requires id in t
  {
    set x | x in Partition(t, t[id].org, t[id].kind) && Precedes(t, x, id)
  }

  /** `ROW_NUMBER() OVER (PARTITION BY organization_id, product_type ORDER BY created_at, id)`. */
  function RowNumber(t: Products, id: ProductId): nat
    requires id in t
  {
    |UpTo(t, id)|
  }

  function Numbered(t: Products): Products {
    map id | id in t :: t[id].(code := Code(t[id].kind, RowNumber(t, id)))
  }

  /** Row numbers start at one and grow along the order of creation. */
  lemma RowNumbersGrow(t: Products, x: ProductId, y: ProductId)
    requires x in t && y in t && t[x].org == t[y].org && t[x].kind == t[y].kind
    requires x != y && Precedes(t, x, y)
    ensures 0 < RowNumber(t, x) < RowNumber(t, y) <= |Partition(t, t[y].org, t[y].kind)|
  {
    assert x in UpTo(t, x) && y in UpTo(t, y) && y !in UpTo(t, x);
    SubsetSize({x}, UpTo(t, x));
    SubsetSize(UpTo(t, x), UpTo(t, y));
    SubsetSize(UpTo(t, y), Partition(t, t[y].org, t[y].kind));
  }

  /** Within an organization and type the earlier product has the lower number, of two at one time the lower id. */
  lemma EarlierHasLowerNumber(t: Products, x: ProductId, y: ProductId)
    requires x in t && y in t && x != y && t[x].org == t[y].org && t[x].kind == t[y].kind
    ensures t[x].createdAt < t[y].createdAt ==> RowNumber(t, x) < RowNumber(t, y)
    ensures t[x].createdAt == t[y].createdAt ==> (RowNumber(t, x) < RowNumber(t, y) <==> x < y)
  {
    if Precedes(t, x, y) { RowNumbersGrow(t, x, y); } else { RowNumbersGrow(t, y, x); }
  }

  lemma {:induction false} LastExists(t: Products, ids: set<ProductId>) returns (last: ProductId)
    requires ids <= t.Keys && ids != {}
    ensures last in ids && forall x :: x in ids ==> Precedes(t, x, last)
    decreases ids
  {
    var some :| some in ids;
    if ids == {some} {
      last := some;
    } else {
      var latest := LastExists(t, ids - {some});
      last := if Precedes(t, some, latest) then latest else some;
      assert forall x :: x in ids ==> x == some || x in ids - {some};
    }
  }

  lemma RowNumberBounds(t: Products, id: ProductId)
    requires id in t
    ensures 0 < RowNumber(t, id) <= |Partition(t, t[id].org, t[id].kind)|
  {
    assert id in UpTo(t, id);
    SubsetSize({id}, UpTo(t, id));
    SubsetSize(UpTo(t, id), Partition(t, t[id].org, t[id].kind));
  }

  /** The codes within an organization are all different, and each has its type's prefix. */
  lemma NumberingIsUnique(t: Products, x: ProductId, y: ProductId)
    requires x in t && y in t && x != y && t[x].org == t[y].org
    ensures Numbered(t)[x].code != Numbered(t)[y].code
    ensures NumberUnder(t[x].kind, Numbered(t)[x].code) == Some(RowNumber(t, x))
  {
    RowNumberBounds(t, x);
    RowNumberBounds(t, y);
    CodeReadsBack(t[x].kind, RowNumber(t, x));
    CodeReadsBack(t[y].kind, RowNumber(t, y));
    if t[x].kind == t[y].kind {
      if Precedes(t, x, y) { RowNumbersGrow(t, x, y); } else { RowNumbersGrow(t, y, x); }
    }
  }

  // ---------------------------------------------------------------- seeding the counters

  /** The numbers the seeding query sees: codes of the type's own prefix on rows of that type. */
  function NumbersSeen(t: Products, org: OrgId, kind: Kind): set<nat> {
    set id | id in Partition(t, org, kind) && NumberUnder(kind, t[id].code).Some? :: NumberUnder(kind, t[id].code).value
  }

  lemma {:induction false} Largest(s: set<nat>) returns (m: nat)
    requires s != {}
    ensures m in s && forall n :: n in s ==> n <= m
    decreases s
  {
    var some :| some in s;
    assert forall n :: n in s ==> n == some || n in s - {some};
    if s == {some} {
      m := some;
    } else {
      var other := Largest(s - {some});
      m := if other < some then some else other;
    }
  }

  lemma LargestExists(s: set<nat>)
    requires s != {}
    ensures exists m :: m in s && forall n :: n in s ==> n <= m
  {
    var m := Largest(s);
  }

  /** `COALESCE(MAX(...), 0)`. */
  function MaxOrZero(s: set<nat>): (m: nat)
    ensures forall n :: n in s ==> n <= m
    ensures m in s || (m == 0 && s == {})
  {
    if s == {} then 0
    else
      LargestExists(s);
      var m :| m in s && forall n :: n in s ==> n <= m;
      m
  }

  /** `GREATEST` of the new column's default and `COALESCE(MAX(...), 0) + 1`. */
  function SeedFor(t: Products, org: OrgId, kind: Kind): nat {
    Max(1, MaxOrZero(NumbersSeen(t, org, kind)) + 1)
  }

  /** The counter rows after seeding; `orders` is the earlier table, which counted orders only. */
  function Seeded(t: Products, orders: map<OrgId, nat>): CounterRows {
    map org | org in orders.Keys + set id | id in t :: t[id].org ::
      Counters(if org in orders then orders[org] else 1,
               SeedFor(t, org, Product), SeedFor(t, org, Service))
  }

  datatype Stream = Orders | Codes(kind: Kind)

  /** The next number of a stream; an organization without a counter row starts at one. */
  function Next(counters: CounterRows, org: OrgId, stream: Stream): nat {
    if org !in counters then 1
    else match stream
      case Orders => counters[org].nextOrder
      case Codes(Product) => counters[org].nextProduct
      case Codes(Service) => counters[org].nextService
  }

  datatype State = State(products: Products, counters: CounterRows)

  predicate HasNumber(row: Row, kind: Kind) {
    NumberUnder(kind, row.code).Some?
  }

  /** Every existing number is below the counter it was taken from, whatever the row's type is by now. */
  ghost predicate Bounded(s: State) {
    && (forall org, kind :: Next(s.counters, org, Codes(kind)) > 0)
    && (forall id, kind :: id in s.products && HasNumber(s.products[id], kind) ==>
          NumberUnder(kind, s.products[id].code).value < Next(s.counters, s.products[id].org, Codes(kind)))
  }

  /** A row of the prefix's own type, in the same organization, has a number at least as high. */
  predicate Covered(t: Products, id: ProductId, kind: Kind)
    requires id in t && HasNumber(t[id], kind)
  {
    exists n :: n in NumbersSeen(t, t[id].org, kind) && NumberUnder(kind, t[id].code).value <= n
  }

  lemma {:induction false} ParseIsPositive(s: string)
    requires s != "" && IsNumeral(s) && s[0] != '0'
    ensures Parse(s) > 0
  {
    if |s| > 1 {
      ParseIsPositive(s[..|s| - 1]);
    }
  }

  lemma NumberIsPositive(kind: Kind, code: string)
    ensures NumberUnder(kind, code).Some? ==> NumberUnder(kind, code).value > 0
  {
    if NumberUnder(kind, code).Some? {
      ParseIsPositive(code[2..]);
    }
  }

  /** Every seeded code counter is one above the numbers the query saw, also where no row was written. */
  lemma SeededIsMaxPlusOne(t: Products, orders: map<OrgId, nat>, org: OrgId, kind: Kind)
    ensures Next(Seeded(t, orders), org, Codes(kind)) == MaxOrZero(NumbersSeen(t, org, kind)) + 1
  {
    if forall id :: id in t ==> t[id].org != org {
      assert Partition(t, org, kind) == {};
      NothingSeen(t, org, kind);
    }
  }

  lemma NothingSeen(t: Products, org: OrgId, kind: Kind)
    requires Partition(t, org, kind) == {}
    ensures NumbersSeen(t, org, kind) == {} && SeedFor(t, org, kind) == 1
  {
  }

  lemma CoveredExactlyWhenBelowMax(t: Products, id: ProductId, kind: Kind)
    requires id in t && HasNumber(t[id], kind)
    ensures Covered(t, id, kind) <==>
      NumberUnder(kind, t[id].code).value <= MaxOrZero(NumbersSeen(t, t[id].org, kind))
  {
    NumberIsPositive(kind, t[id].code);
    var seen := NumbersSeen(t, t[id].org, kind);
    if NumberUnder(kind, t[id].code).value <= MaxOrZero(seen) {
      assert MaxOrZero(seen) in seen;
    }
  }

  /** Seeding bounds all existing numbers exactly when the highest under each prefix sits on a row of its own type. */
  lemma SeedingBoundsExactlyWhenCovered(t: Products, orders: map<OrgId, nat>)
    ensures Bounded(State(t, Seeded(t, orders))) <==>
      forall id, kind :: id in t && HasNumber(t[id], kind) ==> Covered(t, id, kind)
  {
    var s := State(t, Seeded(t, orders));
    forall org, kind
      ensures Next(s.counters, org, Codes(kind)) == MaxOrZero(NumbersSeen(t, org, kind)) + 1
    {
      SeededIsMaxPlusOne(t, orders, org, kind);
    }
    forall id, kind | id in t && HasNumber(t[id], kind)
      ensures Covered(t, id, kind) <==> NumberUnder(kind, t[id].code).value < Next(s.counters, t[id].org, Codes(kind))
    {
      CoveredExactlyWhenBelowMax(t, id, kind);
    }
    assert s.products == t;
  }

  /** Seeding leaves order numbers as they were; a row it adds starts them at one. */
  lemma SeedingKeepsOrders(t: Products, orders: map<OrgId, nat>, org: OrgId)
    ensures Next(Seeded(t, orders), org, Orders) == if org in orders then orders[org] else 1
  {
  }

  /** Numbering shows the seeding query the numbers 1 to n of each type. */
  lemma NumbersSeenAfterNumbering(t: Products, org: OrgId, kind: Kind, n: nat)
    requires n in NumbersSeen(Numbered(t), org, kind)
    ensures n <= |Partition(t, org, kind)|
  {
    var t' := Numbered(t);
    var id :| id in Partition(t', org, kind) && NumberUnder(kind, t'[id].code) == Some(n);
    RowNumberBounds(t, id);
    CodeReadsBack(kind, RowNumber(t, id));
  }

  lemma LastNumberIsSeen(t: Products, org: OrgId, kind: Kind)
    requires Partition(t, org, kind) != {}
    ensures |Partition(t, org, kind)| in NumbersSeen(Numbered(t), org, kind)
  {
    var t' := Numbered(t);
    var last := LastExists(t, Partition(t, org, kind));
    assert UpTo(t, last) == Partition(t, org, kind);
    RowNumberBounds(t, last);
    CodeReadsBack(kind, RowNumber(t, last));
    assert last in Partition(t', org, kind) && NumberUnder(kind, t'[last].code).value == RowNumber(t, last);
  }

  /** After both migrations a code counter is the number of products of its type, plus one. */
  lemma SeededAfterNumbering(t: Products, orders: map<OrgId, nat>, org: OrgId, kind: Kind)
    ensures Next(Seeded(Numbered(t), orders), org, Codes(kind)) == |Partition(t, org, kind)| + 1
  {
    var n, seen := |Partition(t, org, kind)|, NumbersSeen(Numbered(t), org, kind);
    SeededIsMaxPlusOne(Numbered(t), orders, org, kind);
    forall m | m in seen
      ensures m <= n
    {
      NumbersSeenAfterNumbering(t, org, kind, m);
    }
    if n > 0 {
      LastNumberIsSeen(t, org, kind);
    }
  }

  /** Between the migrations a type change that kept its code would have been missed by the seeding. */
  lemma StrayCodeIsMissed()
    ensures var t := map[1 := Row(7, Service, "SP5", 0)];
      !Bounded(State(t, Seeded(t, map[])))
  {
    var t: Products := map[1 := Row(7, Service, "SP5", 0)];
    assert "SP5" == Code(Product, 5) by { assert Decimal(5) == "5"; }
    CodeReadsBack(Product, 5);
    assert Partition(t, 7, Product) == {};
    SeedingBoundsExactlyWhenCovered(t, map[]);
    assert HasNumber(t[1], Product) && !Covered(t, 1, Product);
  }

  // ---------------------------------------------------------------- taking numbers

  /** The single upsert that both kinds of number are taken with. */
  function Taken(counters: CounterRows, org: OrgId, stream: Stream): CounterRows {
    var c := if org in counters then counters[org] else Counters(1, 1, 1);
    counters[org := match stream
      case Orders => c.(nextOrder := c.nextOrder + 1)
      case Codes(Product) => c.(nextProduct := c.nextProduct + 1)
      case Codes(Service) => c.(nextService := c.nextService + 1)]
  }

  datatype Step =
    | Create(id: ProductId, org: OrgId, kind: Kind, now: int)
    | ChangeKind(id: ProductId, kind: Kind)
    | SetKindOnly(id: ProductId, kind: Kind)
    | TakeOrder(org: OrgId)

  /**
   One committed transaction. An update decides on a new code by the type it read before it began, so
   `ChangeKind` may find the row already of that type, and `SetKindOnly` may find it of another.
   */
  function After(s: State, step: Step): State {
    match step
    case Create(id, org, kind, now) =>
      if id in s.products then s
      else State(s.products[id := Row(org, kind, Code(kind, Next(s.counters, org, Codes(kind))), now)],
                 Taken(s.counters, org, Codes(kind)))
    case ChangeKind(id, kind) =>
      if id !in s.products then s
      else
        var org := s.products[id].org;
        State(s.products[id := s.products[id].(kind := kind, code := Code(kind, Next(s.counters, org, Codes(kind))))],
              Taken(s.counters, org, Codes(kind)))
    case SetKindOnly(id, kind) =>
      if id in s.products then s.(products := s.products[id := s.products[id].(kind := kind)]) else s
    case TakeOrder(org) => s.(counters := Taken(s.counters, org, Orders))
  }

  function RunAll(s: State, run: seq<Step>): State {
    if run == [] then s else After(RunAll(s, run[..|run| - 1]), run[|run| - 1])
  }

  /** The stream a step takes a number from. */
  function TakesFrom(s: State, step: Step): Option<(OrgId, Stream)> {
    match step
    case Create(id, org, kind, _) => if id in s.products then None else Some((org, Codes(kind)))
    case ChangeKind(id, kind) =>
      if id !in s.products then None else Some((s.products[id].org, Codes(kind)))
    case SetKindOnly(_, _) => None
    case TakeOrder(org) => Some((org, Orders))
  }

  /** The numbers a run hands out from one stream of one organization, in order. */
  function HandedOut(s: State, run: seq<Step>, org: OrgId, stream: Stream): seq<nat> {
    if run == [] then []
    else
      var before := run[..|run| - 1];
      var now := RunAll(s, before);
      HandedOut(s, before, org, stream) +
        if TakesFrom(now, run[|run| - 1]) == Some((org, stream)) then [Next(now.counters, org, stream)] else []
  }

  ghost predicate UniqueCodes(t: Products) {
    forall x, y :: x in t && y in t && x != y && t[x].org == t[y].org ==> t[x].code != t[y].code
  }

  /** The code about to be handed out belongs to no product of the organization. */
  lemma NextCodeIsNew(s: State, org: OrgId, kind: Kind, id: ProductId)
    requires Bounded(s) && id in s.products && s.products[id].org == org
    ensures s.products[id].code != Code(kind, Next(s.counters, org, Codes(kind)))
  {
    CodeReadsBack(kind, Next(s.counters, org, Codes(kind)));
    assert HasNumber(s.products[id], kind) ==>
      NumberUnder(kind, s.products[id].code).value < Next(s.counters, org, Codes(kind));
  }

  /** A created or retyped product has its type, in its organization, and the type's prefix with the next number. */
  lemma NewCodesFitTheirType(s: State, id: ProductId, org: OrgId, kind: Kind, now: int)
    requires Bounded(s)
    ensures id !in s.products ==>
      var row := After(s, Create(id, org, kind, now)).products[id];
      row.org == org && row.kind == kind && row.createdAt == now &&
      NumberUnder(kind, row.code) == Some(Next(s.counters, org, Codes(kind)))
    ensures id in s.products ==>
      var was, row := s.products[id], After(s, ChangeKind(id, kind)).products[id];
      row.org == was.org && row.kind == kind && row.createdAt == was.createdAt &&
      NumberUnder(kind, row.code) == Some(Next(s.counters, was.org, Codes(kind)))
    ensures id in s.products ==> After(s, SetKindOnly(id, kind)).products[id] == s.products[id].(kind := kind)
    ensures forall x, step: Step :: x in s.products && (step.TakeOrder? || step.id != x) ==>
      x in After(s, step).products && After(s, step).products[x] == s.products[x]
  {
    if id in s.products { CodeReadsBack(kind, Next(s.counters, s.products[id].org, Codes(kind))); }
    CodeReadsBack(kind, Next(s.counters, org, Codes(kind)));
  }

  lemma TakingAdvancesOne(counters: CounterRows, org: OrgId, stream: Stream, o: OrgId, other: Stream)
    ensures Next(Taken(counters, org, stream), o, other) ==
      Next(counters, o, other) + if (o, other) == (org, stream) then 1 else 0
  {
  }

  /** Giving a row the next code of a stream keeps every number below its counter and all codes apart. */
  lemma AssigningKeeps(s: State, id: ProductId, row: Row, kind: Kind)
    requires Bounded(s) && UniqueCodes(s.products)
    requires id in s.products ==> s.products[id].org == row.org
    requires row.code == Code(kind, Next(s.counters, row.org, Codes(kind)))
    ensures Bounded(State(s.products[id := row], Taken(s.counters, row.org, Codes(kind))))
    ensures UniqueCodes(s.products[id := row])
  {
    var counters := Taken(s.counters, row.org, Codes(kind));
    forall org, k
      ensures Next(s.counters, org, Codes(k)) <= Next(counters, org, Codes(k))
    {
      TakingAdvancesOne(s.counters, row.org, Codes(kind), org, Codes(k));
    }
    CodeReadsBack(kind, Next(s.counters, row.org, Codes(kind)));
    forall x | x in s.products && s.products[x].org == row.org
      ensures s.products[x].code != row.code
    {
      NextCodeIsNew(s, row.org, kind, x);
    }
  }

  lemma StepKeeps(s: State, step: Step)
    requires Bounded(s) && UniqueCodes(s.products)
    ensures Bounded(After(s, step)) && UniqueCodes(After(s, step).products)
  {
    match step
    case Create(id, org, kind, now) =>
      if id !in s.products {
        AssigningKeeps(s, id, After(s, step).products[id], kind);
      }
    case ChangeKind(id, kind) =>
      if id in s.products {
        AssigningKeeps(s, id, After(s, step).products[id], kind);
      }
    case SetKindOnly(id, kind) =>
    case TakeOrder(org) =>
      forall o, k
        ensures Next(After(s, step).counters, o, Codes(k)) == Next(s.counters, o, Codes(k))
      {
        TakingAdvancesOne(s.counters, org, Orders, o, Codes(k));
      }
  }

  lemma {:induction false} RunKeeps(s: State, run: seq<Step>)
    requires Bounded(s) && UniqueCodes(s.products)
    ensures Bounded(RunAll(s, run)) && UniqueCodes(RunAll(s, run).products)
  {
    if run != [] {
      RunKeeps(s, run[..|run| - 1]);
      StepKeeps(RunAll(s, run[..|run| - 1]), run[|run| - 1]);
    }
  }

  /**
   Whatever products the migrations find, every code in the catalogue is below its counter afterwards and
   after every run, and no two products of an organization ever share a code.
   */
  lemma CodesNeverCollide(t: Products, orders: map<OrgId, nat>, run: seq<Step>)
    ensures var end := RunAll(State(Numbered(t), Seeded(Numbered(t), orders)), run);
      Bounded(end) && UniqueCodes(end.products)
  {
    var t' := Numbered(t);
    forall x, y | x in t' && y in t' && x != y && t'[x].org == t'[y].org
      ensures t'[x].code != t'[y].code
    {
      NumberingIsUnique(t, x, y);
    }
    forall id, kind | id in t' && HasNumber(t'[id], kind)
      ensures Covered(t', id, kind)
    {
      RowNumberBounds(t, id);
      CodeReadsBack(t[id].kind, RowNumber(t, id));
      assert id in Partition(t', t'[id].org, kind);
      assert NumberUnder(kind, t'[id].code).value in NumbersSeen(t', t'[id].org, kind);
    }
    SeedingBoundsExactlyWhenCovered(t', orders);
    RunKeeps(State(t', Seeded(t', orders)), run);
  }

  /** Each stream hands out consecutive numbers, with no gap, from its counter on. */
  lemma {:induction false} StreamsHaveNoGaps(s: State, run: seq<Step>, org: OrgId, stream: Stream)
    ensures var numbers := HandedOut(s, run, org, stream);
      && Next(RunAll(s, run).counters, org, stream) == Next(s.counters, org, stream) + |numbers|
      && forall i :: 0 <= i < |numbers| ==> numbers[i] == Next(s.counters, org, stream) + i
  {
    if run != [] {
      var now, step := RunAll(s, run[..|run| - 1]), run[|run| - 1];
      StreamsHaveNoGaps(s, run[..|run| - 1], org, stream);
      var from := TakesFrom(now, step);
      if from.Some? {
        TakingAdvancesOne(now.counters, from.value.0, from.value.1, org, stream);
      }
    }
  }

  // ---------------------------------------------------------------- the tables

  class Catalog {
    var products: Products
    var counters: CounterRows

    constructor (s: State)
      ensures Tables() == s
    {
      products, counters := s.products, s.counters;
    }

    function Tables(): State
      reads this
    {
      State(products, counters)
    }

    method NumberProducts()
      modifies `products
      ensures products == Numbered(old(products))
    {
      products := map id | id in products ::
        products[id].(code := (if products[id].kind == Service then "DV" else "SP") + Decimal(RowNumber(products, id)));
    }

    /** INSERT ... ON CONFLICT DO UPDATE: a first number leaves 2 in its column, a later one adds 1. */
    method NextCatalogCode(org: OrgId, kind: Kind) returns (code: string)
      modifies `counters
      ensures code == Code(kind, Next(old(counters), org, Codes(kind)))
      ensures counters == Taken(old(counters), org, Codes(kind))
    {
      if org !in counters {
        counters := counters[org := Counters(1, if kind == Product then 2 else 1, if kind == Service then 2 else 1)];
      } else if kind == Service {
        counters := counters[org := counters[org].(nextService := counters[org].nextService + 1)];
      } else {
        counters := counters[org := counters[org].(nextProduct := counters[org].nextProduct + 1)];
      }
      var value := (if kind == Service then counters[org].nextService else counters[org].nextProduct) - 1;
      return (if kind == Service then "DV" else "SP") + Decimal(value);
    }

    method NextOrderNumber(org: OrgId) returns (value: nat)
      modifies `counters
      ensures value == Next(old(counters), org, Orders)
      ensures counters == Taken(old(counters), org, Orders)
    {
      if org !in counters {
        counters := counters[org := Counters(2, 1, 1)];
      } else {
        counters := counters[org := counters[org].(nextOrder := counters[org].nextOrder + 1)];
      }
      return counters[org].nextOrder - 1;
    }

    /** Creating a product: the code is not in the organization's catalogue before. */
    method CreateProduct(id: ProductId, org: OrgId, kind: Kind, now: int) returns (code: string)
      requires id !in products && Bounded(Tables()) && UniqueCodes(products)
      modifies this
      ensures Tables() == After(old(Tables()), Create(id, org, kind, now))
      ensures Bounded(Tables()) && UniqueCodes(products)
      ensures products[id].code == code
      ensures forall x :: x in old(products) && old(products)[x].org == org ==> old(products)[x].code != code
    {
      ghost var s := Tables();
      forall x | x in products && products[x].org == org
        ensures products[x].code != Code(kind, Next(counters, org, Codes(kind)))
      {
        NextCodeIsNew(s, org, kind, x);
      }
      StepKeeps(s, Create(id, org, kind, now));
      code := NextCatalogCode(org, kind);
      products := products[id := Row(org, kind, code, now)];
    }

    /**
     Updating a product: `seen` is the type it had when it was read, before the transaction, and `given` the
     type in the request, if there is one.
     */
    method UpdateKind(id: ProductId, seen: Kind, given: Option<Kind>)
      requires id in products && Bounded(Tables()) && UniqueCodes(products)
      modifies this
      ensures given.None? ==> Tables() == old(Tables())
      ensures given.Some? && given.value != seen ==> Tables() == After(old(Tables()), ChangeKind(id, given.value))
      ensures given.Some? && given.value == seen ==> Tables() == After(old(Tables()), SetKindOnly(id, seen))
      ensures Bounded(Tables()) && UniqueCodes(products)
    {
      ghost var s := Tables();
      var next := given.GetOr(seen);
      if next != seen {
        StepKeeps(s, ChangeKind(id, next));
        var code := NextCatalogCode(products[id].org, next);
        products := products[id := products[id].(code := code)];
      } else {
        StepKeeps(s, SetKindOnly(id, seen));
      }
      if given.Some? {
        products := products[id := products[id].(kind := given.value)];
      }
    }
  }
}
