/**
 Finite stock, the reservations taken from it, and the event ledger. Reservations are keyed by order
 and product, as the unique index on them is. The statements are functions on a `View`, the tables as
 one session sees them; the repository runs them on its fields, and `InventoryProtocol` interleaves
 them between transactions.
 */
module Inventory {
  import opened Options
  import opened Sums

  type OrderId = nat
  type ProductId = nat
  type BranchId = nat

  datatype ResKey = ResKey(order: OrderId, product: ProductId)
  datatype StockKey = StockKey(branch: BranchId, product: ProductId)

  datatype Status = Reserved | Consumed | Released | Expired

  type Final = s: Status | s != Reserved witness Consumed

  /** `offered` is every expiry a `reserve` call has supplied for the row; only the model keeps it. */
  datatype Row = Row(branch: BranchId, quantity: int, status: Status, expiresAt: Option<int>, offered: seq<Option<int>>)

  datatype StockRow = StockRow(organization: nat, quantity: Option<int>)

  datatype Event = Event(key: ResKey, from: Option<Status>, to: Status, quantity: int)

  datatype View = View(stock: map<StockKey, StockRow>, res: map<ResKey, Row>, events: seq<Event>)

  // ---------------------------------------------------------------- statements

  /** Takes `q` from a finite stock that holds it. */
  function TakeStock(v: View, key: StockKey, organization: nat, q: int): Option<View> {
    if key in v.stock && v.stock[key].organization == organization
       && v.stock[key].quantity.Some? && v.stock[key].quantity.value >= q
    then Some(v.(stock := v.stock[key := StockRow(organization, Some(v.stock[key].quantity.value - q))]))
    else None
  }

  function LaterExpiry(kept: Option<int>, offered: Option<int>): Option<int> {
    match (kept, offered)
    case (None, _) => offered
    case (_, None) => kept
    case (Some(a), Some(b)) => Some(Max(a, b))
  }

  /** Inserts a reservation or extends one that is still reserved. */
  function Upsert(v: View, k: ResKey, branch: BranchId, q: int, expires: Option<int>): Option<View> {
    if k !in v.res then
      if q > 0 then Some(v.(res := v.res[k := Row(branch, q, Reserved, expires, [expires])])) else None
    else
      var row := v.res[k];
      if row.status == Reserved && row.quantity + q > 0 then
        Some(v.(res := v.res[k := row.(
          quantity := row.quantity + q,
          expiresAt := LaterExpiry(row.expiresAt, expires),
          offered := row.offered + [expires])]))
      else None
  }

  /** The ledger takes positive quantities only. */
  function Record(v: View, e: Event): Option<View> {
    if e.quantity > 0 then Some(v.(events := v.events + [e])) else None
  }

  /** The second and third statement of `reserve`: the reservation and its event. */
  function Book(v: View, k: ResKey, branch: BranchId, q: int, expires: Option<int>): Option<View> {
    match Upsert(v, k, branch, q, expires)
    case None => None
    case Some(w) => Record(w, Event(k, if k in v.res then Some(Reserved) else None, Reserved, q))
  }

  /** The guarded status UPDATE. */
  function Mark(v: View, k: ResKey, to: Final): Option<View> {
    if k in v.res && v.res[k].status == Reserved then Some(v.(res := v.res[k := v.res[k].(status := to)])) else None
  }

  predicate Returns(to: Status) {
    to == Released || to == Expired
  }

  /** Puts `q` back on a finite stock; an unlimited or missing stock has nothing to put back to. */
  function PutBack(v: View, key: StockKey, q: int): View {
    if key in v.stock && v.stock[key].quantity.Some?
    then v.(stock := v.stock[key := v.stock[key].(quantity := Some(v.stock[key].quantity.value + q))])
    else v
  }

  function StockOf(k: ResKey, row: Row): StockKey {
    StockKey(row.branch, k.product)
  }

  // ---------------------------------------------------------------- conservation

  /** What a reservation holds of a stock: nothing once its quantity has been put back. */
  function Weight(k: ResKey, row: Row, key: StockKey): int {
    if StockOf(k, row) == key && !Returns(row.status) then row.quantity else 0
  }

  function Weights(res: map<ResKey, Row>, key: StockKey): map<ResKey, int> {
    map k | k in res :: Weight(k, res[k], key)
  }

  function Quantity(stock: map<StockKey, StockRow>, key: StockKey): int {
    if key in stock && stock[key].quantity.Some? then stock[key].quantity.value else 0
  }

  predicate Finite(v: View, key: StockKey) {
    key in v.stock && v.stock[key].quantity.Some?
  }

  /** Stock, reserved and consumed quantities of one branch and product. */
  ghost function Total(v: View, key: StockKey): int {
    Quantity(v.stock, key) + Sum(Weights(v.res, key))
  }

  lemma WeightsOfUpdate(res: map<ResKey, Row>, k: ResKey, row: Row, key: StockKey)
    ensures Sum(Weights(res[k := row], key)) ==
      Sum(Weights(res, key)) - (if k in res then Weight(k, res[k], key) else 0) + Weight(k, row, key)
  {
    SumOfUpdate(Weights(res, key), k, Weight(k, row, key));
    assert Weights(res[k := row], key) == Weights(res, key)[k := Weight(k, row, key)];
  }

  /** Taking stock and booking it moves quantity without creating or losing any, on the row's own branch. */
  lemma BookingMovesQuantity(v: View, k: ResKey, branch: BranchId, q: int, expires: Option<int>, key: StockKey)
    requires Book(v, k, branch, q, expires).Some?
    ensures Total(Book(v, k, branch, q, expires).value, key) == Total(v, key) +
      if key == StockKey(if k in v.res then v.res[k].branch else branch, k.product) then q else 0
  {
    var row := Book(v, k, branch, q, expires).value.res[k];
    WeightsOfUpdate(v.res, k, row, key);
  }

  /** A whole reservation, as one session runs it. */
  function ReserveView(v: View, k: ResKey, branch: BranchId, organization: nat, q: int, expires: Option<int>): Option<View> {
    match TakeStock(v, StockKey(branch, k.product), organization, q)
    case None => None
    case Some(w) => Book(w, k, branch, q, expires)
  }

  /**
   A reservation conserves the stock it takes from exactly when the order has no reservation of the
   product at another branch: an extension is booked on the row's first branch, wherever it was taken.
   */
  lemma ReserveConservesExactlyOnOneBranch(
      v: View, k: ResKey, branch: BranchId, organization: nat, q: int, expires: Option<int>)
    requires ReserveView(v, k, branch, organization, q, expires).Some?
    ensures Total(ReserveView(v, k, branch, organization, q, expires).value, StockKey(branch, k.product)) ==
        Total(v, StockKey(branch, k.product))
      <==> k in v.res ==> v.res[k].branch == branch
  {
    var w := TakeStock(v, StockKey(branch, k.product), organization, q).value;
    BookingMovesQuantity(w, k, branch, q, expires, StockKey(branch, k.product));
  }

  /**
   A reservation succeeds exactly when the organization's stock is finite and holds the quantity, down to
   the last unit, and the order's row for the product is absent or still reserved. It then leaves that much
   less stock and a row that holds that much more.
   */
  lemma ReservesExactlyWhenStocked(
      v: View, k: ResKey, branch: BranchId, organization: nat, q: int, expires: Option<int>)
    requires k in v.res ==> v.res[k].quantity > 0
    ensures q <= 0 ==> ReserveView(v, k, branch, organization, q, expires).None?
    ensures q > 0 ==>
      var key, r := StockKey(branch, k.product), ReserveView(v, k, branch, organization, q, expires);
      && (r.Some? <==>
            (Finite(v, key) && v.stock[key].organization == organization && q <= Quantity(v.stock, key)
             && (k in v.res ==> v.res[k].status == Reserved)))
      && (r.Some? ==>
            && r.value.stock == v.stock[key := v.stock[key].(quantity := Some(Quantity(v.stock, key) - q))]
            && r.value.res.Keys == v.res.Keys + {k} && r.value.res[k].status == Reserved
            && r.value.res[k].quantity == q + (if k in v.res then v.res[k].quantity else 0)
            && r.value.res[k].branch == (if k in v.res then v.res[k].branch else branch)
            && forall x :: x in v.res && x != k ==> r.value.res[x] == v.res[x])
  {
  }

  /** The expiry after a reservation: the later of the kept and the supplied one, a missing one counting for nothing. */
  lemma ExpiryIsExtended(v: View, k: ResKey, branch: BranchId, organization: nat, q: int, expires: Option<int>)
    requires ReserveView(v, k, branch, organization, q, expires).Some?
    ensures var row := ReserveView(v, k, branch, organization, q, expires).value.res[k];
      && (k !in v.res ==> row.expiresAt == expires && row.offered == [expires])
      && (k in v.res ==> row.offered == v.res[k].offered + [expires])
      && (k in v.res && expires.None? ==> row.expiresAt == v.res[k].expiresAt)
      && (k in v.res && expires.Some? && v.res[k].expiresAt.None? ==> row.expiresAt == expires)
      && (k in v.res && expires.Some? && v.res[k].expiresAt.Some? ==>
            row.expiresAt.Some? && row.expiresAt.value >= expires.value && row.expiresAt.value >= v.res[k].expiresAt.value &&
            row.expiresAt in {expires, v.res[k].expiresAt})
  {
  }

  /** Reserved at branch 1 and extended at branch 2: both units are booked at branch 1, one is missing at branch 2. */
  lemma ExtensionAtSecondBranchMovesTotal(organization: nat)
    ensures var k := ResKey(7, 5);
      var stock := map[StockKey(1, 5) := StockRow(organization, Some(3)), StockKey(2, 5) := StockRow(organization, Some(3))];
      var first := ReserveView(View(stock, map[], []), k, 1, organization, 1, None);
      && first.Some?
      && var second := ReserveView(first.value, k, 2, organization, 1, None);
         && second.Some? && second.value.res[k].branch == 1 && second.value.res[k].quantity == 2
         && Quantity(second.value.stock, StockKey(1, 5)) == 2 && Quantity(second.value.stock, StockKey(2, 5)) == 2
         && Total(second.value, StockKey(2, 5)) == Total(first.value, StockKey(2, 5)) - 1
  {
    var k := ResKey(7, 5);
    var stock := map[StockKey(1, 5) := StockRow(organization, Some(3)), StockKey(2, 5) := StockRow(organization, Some(3))];
    var first := ReserveView(View(stock, map[], []), k, 1, organization, 1, None).value;
    var taken := TakeStock(first, StockKey(2, 5), organization, 1).value;
    BookingMovesQuantity(taken, k, 2, 1, None, StockKey(2, 5));
  }

  // ---------------------------------------------------------------- the order transition

  /** One turn of the loop in `transitionOrder`, for a row read under lock. */
  function Close(v: View, k: ResKey, to: Final): View
    requires k in v.res
  {
    match Mark(v, k, to)
    case None => v
    case Some(w) =>
      var u := if Returns(to) then PutBack(w, StockOf(k, v.res[k]), v.res[k].quantity) else w;
      u.(events := u.events + [Event(k, Some(Reserved), to, v.res[k].quantity)])
  }

  lemma CloseConserves(v: View, k: ResKey, to: Final, key: StockKey)
    requires k in v.res && Finite(v, key)
    ensures Finite(Close(v, k, to), key) && Total(Close(v, k, to), key) == Total(v, key)
  {
    if v.res[k].status == Reserved {
      WeightsOfUpdate(v.res, k, v.res[k].(status := to), key);
    }
  }

  function OpenRows(res: map<ResKey, Row>, order: OrderId): set<ResKey> {
    set k | k in res && k.order == order && res[k].status == Reserved
  }

  function ClosedRows(res: map<ResKey, Row>, order: OrderId, to: Final): map<ResKey, Row> {
    map k | k in res :: if k in OpenRows(res, order) then res[k].(status := to) else res[k]
  }

  /** What the open rows of an order hold of a stock. */
  ghost function HeldBy(res: map<ResKey, Row>, order: OrderId, key: StockKey): int {
    Sum(Weights(OpenPart(res, order), key))
  }

  function OpenPart(res: map<ResKey, Row>, order: OrderId): map<ResKey, Row> {
    map k | k in res && k.order == order && res[k].status == Reserved :: res[k]
  }

  lemma WeightsOfParts(a: map<ResKey, Row>, b: map<ResKey, Row>, key: StockKey)
    requires a.Keys !! b.Keys
    ensures Sum(Weights(a + b, key)) == Sum(Weights(a, key)) + Sum(Weights(b, key))
  {
    SumOfUnion(Weights(a, key), Weights(b, key));
    assert Weights(a + b, key) == Weights(a, key) + Weights(b, key);
  }

  /** Releasing or expiring an order frees what its open rows held, consuming it frees nothing. */
  lemma ClosingReleases(res: map<ResKey, Row>, order: OrderId, to: Final, key: StockKey)
    ensures Sum(Weights(ClosedRows(res, order, to), key)) ==
      Sum(Weights(res, key)) - if to == Consumed then 0 else HeldBy(res, order, key)
  {
    var held, closed := OpenPart(res, order), ClosedPart(res, order, to);
    var rest := res - held.Keys;
    SplitByOpen(res, order, to);
    WeightsOfParts(rest, held, key);
    WeightsOfParts(rest, closed, key);
    ClosedPartHolds(res, order, to, key);
  }

  /** The closed rows hold what they held if they were consumed, and nothing otherwise. */
  lemma ClosedPartHolds(res: map<ResKey, Row>, order: OrderId, to: Final, key: StockKey)
    ensures Sum(Weights(ClosedPart(res, order, to), key)) == if to == Consumed then HeldBy(res, order, key) else 0
  {
    var closed := ClosedPart(res, order, to);
    if to == Consumed {
      assert Weights(closed, key) == Weights(OpenPart(res, order), key);
    } else {
      SumOfZeros(Weights(closed, key));
    }
  }

  function ClosedPart(res: map<ResKey, Row>, order: OrderId, to: Final): map<ResKey, Row> {
    map k | k in OpenPart(res, order) :: res[k].(status := to)
  }

  lemma SplitByOpen(res: map<ResKey, Row>, order: OrderId, to: Final)
    ensures res == (res - OpenPart(res, order).Keys) + OpenPart(res, order)
    ensures ClosedRows(res, order, to) == (res - OpenPart(res, order).Keys) + ClosedPart(res, order, to)
  {
  }

  // ---------------------------------------------------------------- the ledger

  datatype Replayed = Nothing | At(quantity: int, status: Status) | Corrupt

  /** What an event says next: reservations add up, one final event carries exactly the sum. */
  function ReplayOne(r: Replayed, e: Event): Replayed {
    match r
    case Nothing => if e.from == None && e.to == Reserved then At(e.quantity, Reserved) else Corrupt
    case At(q, s) =>
      if s != Reserved || e.from != Some(Reserved) then Corrupt
      else if e.to == Reserved then At(q + e.quantity, Reserved)
      else if e.quantity == q then At(q, e.to)
      else Corrupt
    case Corrupt => Corrupt
  }

  /** Replays the events of one reservation, in ledger order. */
  function Replay(from: Replayed, events: seq<Event>, k: ResKey): Replayed {
    if events == [] then from
    else
      var before := Replay(from, events[..|events| - 1], k);
      var e := events[|events| - 1];
      if e.key == k then ReplayOne(before, e) else before
  }

  function StateOf(res: map<ResKey, Row>, k: ResKey): Replayed {
    if k in res then At(res[k].quantity, res[k].status) else Nothing
  }

  lemma {:induction false} ReplayOfConcat(from: Replayed, a: seq<Event>, b: seq<Event>, k: ResKey)
    ensures Replay(from, a + b, k) == Replay(Replay(from, a, k), b, k)
  {
    if b == [] {
      assert a + b == a;
    } else {
      ReplayOfConcat(from, a, b[..|b| - 1], k);
      assert (a + b)[..|a + b| - 1] == a + b[..|b| - 1];
    }
  }

  lemma ReplayOfAppend(from: Replayed, a: seq<Event>, e: Event, k: ResKey)
    ensures Replay(from, a + [e], k) == if e.key == k then ReplayOne(Replay(from, a, k), e) else Replay(from, a, k)
  {
    assert (a + [e])[..|a|] == a;
  }

  /** The ledger rebuilds the reservation table. */
  ghost predicate LedgerMatches(v: View) {
    forall k :: Replay(Nothing, v.events, k) == StateOf(v.res, k)
  }

  function ReservedSum(events: seq<Event>, k: ResKey): int {
    if events == [] then 0
    else
      var e := events[|events| - 1];
      ReservedSum(events[..|events| - 1], k) + if e.key == k && e.to == Reserved then e.quantity else 0
  }

  function FinalEvents(events: seq<Event>, k: ResKey): seq<Event> {
    if events == [] then []
    else
      var e := events[|events| - 1];
      FinalEvents(events[..|events| - 1], k) + if e.key == k && e.to != Reserved then [e] else []
  }

  /** What a ledger that replays says in plain sums: one final event at most, for exactly the reserved sum. */
  lemma {:induction false} ReplayedLedger(events: seq<Event>, k: ResKey)
    requires Replay(Nothing, events, k) != Corrupt
    ensures match Replay(Nothing, events, k)
      case Nothing => ReservedSum(events, k) == 0 && FinalEvents(events, k) == []
      case At(q, s) =>
        && ReservedSum(events, k) == q
        && (if s == Reserved then FinalEvents(events, k) == []
            else |FinalEvents(events, k)| == 1 && FinalEvents(events, k)[0] == Event(k, Some(Reserved), s, q))
      case Corrupt => false
  {
    if events != [] {
      ReplayedLedger(events[..|events| - 1], k);
    }
  }

  function LatestOffer(offers: seq<Option<int>>): Option<int> {
    if offers == [] then None else LaterExpiry(LatestOffer(offers[..|offers| - 1]), offers[|offers| - 1])
  }

  /** The latest offer is the greatest expiry among those that were not NULL. */
  lemma {:induction false} LatestOfferIsMaximum(offers: seq<Option<int>>)
    ensures LatestOffer(offers) == None <==> forall i :: 0 <= i < |offers| ==> offers[i] == None
    ensures LatestOffer(offers).Some? ==> LatestOffer(offers) in offers
    ensures LatestOffer(offers).Some? ==>
      forall i :: 0 <= i < |offers| && offers[i].Some? ==> offers[i].value <= LatestOffer(offers).value
  {
    if offers != [] {
      LatestOfferIsMaximum(offers[..|offers| - 1]);
    }
  }

  // ---------------------------------------------------------------- a loop of closings

  /** `v` is `start` with the reserved rows `done` closed, stock returned and ledger extended. */
  ghost predicate Closing(start: View, v: View, done: set<ResKey>, to: Final) {
    && (forall k :: k in done ==> k in start.res && start.res[k].status == Reserved)
    && v.res == (map k | k in start.res :: if k in done then start.res[k].(status := to) else start.res[k])
    && (forall key :: Finite(start, key) ==> Finite(v, key) && Total(v, key) == Total(start, key))
    && (LedgerMatches(start) ==> LedgerMatches(v))
    && v.stock.Keys == start.stock.Keys
    && (forall key :: key in v.stock ==> v.stock[key].organization == start.stock[key].organization)
    && (forall key :: key in v.stock && start.stock[key].quantity == None ==> v.stock[key].quantity == None)
    && start.events <= v.events && |v.events| == |start.events| + |done|
    && (done == {} ==> v == start)
  }

  function OpenAmong(res: map<ResKey, Row>, keys: seq<ResKey>): set<ResKey> {
    set k | k in keys && k in res && res[k].status == Reserved
  }

  lemma OpenAmongSnoc(res: map<ResKey, Row>, keys: seq<ResKey>, i: nat)
    requires i < |keys| && keys[i] in res && forall j, l :: 0 <= j < l < |keys| ==> keys[j] != keys[l]
    ensures keys[i] !in OpenAmong(res, keys[..i])
    ensures OpenAmong(res, keys[..i + 1]) ==
      OpenAmong(res, keys[..i]) + if res[keys[i]].status == Reserved then {keys[i]} else {}
  {
    assert keys[..i + 1] == keys[..i] + [keys[i]] && keys[i] !in keys[..i];
  }

  lemma ClosingNone(start: View, to: Final)
    ensures Closing(start, start, {}, to)
  {
    assert start.res == map k | k in start.res :: start.res[k];
  }

  lemma ClosingOne(start: View, v: View, done: set<ResKey>, to: Final, k: ResKey)
    requires Closing(start, v, done, to) && k in v.res && k !in done
    ensures Closing(start, Close(v, k, to), if v.res[k].status == Reserved then done + {k} else done, to)
  {
    CloseKeeps(v, k, to);
  }

  // ---------------------------------------------------------------- the repository

  /** The tables as the transaction that calls the repository sees them. */
  class Repository {
    var stock: map<StockKey, StockRow>
    var reservations: map<ResKey, Row>
    var events: seq<Event>

    constructor (v: View)
      ensures State() == v
    {
      stock := v.stock;
      reservations := v.res;
      events := v.events;
    }

    ghost function State(): View
      reads this
    {
      View(stock, reservations, events)
    }

    /** `ok` is false when the call throws; its caller then rolls the transaction back. */
    method Reserve(k: ResKey, branch: BranchId, organization: nat, q: int, expires: Option<int>) returns (ok: bool)
      modifies this
      ensures ok <==> ReserveView(old(State()), k, branch, organization, q, expires).Some?
      ensures ok ==> State() == ReserveView(old(State()), k, branch, organization, q, expires).value
    {
      var key := StockKey(branch, k.product);
      if key !in stock || stock[key].organization != organization
         || stock[key].quantity.None? || stock[key].quantity.value < q {
        return false;
      }
      stock := stock[key := StockRow(organization, Some(stock[key].quantity.value - q))];

      var inserted := k !in reservations;
      if inserted {
        if q <= 0 {
          return false;
        }
        reservations := reservations[k := Row(branch, q, Reserved, expires, [expires])];
      } else {
        var row := reservations[k];
        if row.status != Reserved || row.quantity + q <= 0 {
          return false;
        }
        reservations := reservations[k := row.(
          quantity := row.quantity + q,
          expiresAt := LaterExpiry(row.expiresAt, expires),
          offered := row.offered + [expires])];
      }
      ok := q > 0;
      if ok {
        events := events + [Event(k, if inserted then None else Some(Reserved), Reserved, q)];
      }
    }

    /** The rows of an order, each once. */
    method FindByOrderForUpdate(order: OrderId) returns (keys: seq<ResKey>)
      ensures forall k :: k in keys <==> k in reservations && k.order == order
      ensures forall i, j :: 0 <= i < j < |keys| ==> keys[i] != keys[j]
    {
      keys := [];
      var rest := set k | k in reservations && k.order == order;
      while rest != {}
        invariant forall k :: k in reservations && k.order == order <==> k in keys || k in rest
        invariant forall k :: k in keys ==> k !in rest
        invariant forall i, j :: 0 <= i < j < |keys| ==> keys[i] != keys[j]
        decreases |rest|
      {
        var k :| k in rest;
        keys, rest := keys + [k], rest - {k};
      }
    }

    /** One turn of the loop below: the guarded status UPDATE, the stock, the event. */
    method CloseRow(k: ResKey, to: Final) returns (closed: bool)
      requires k in reservations
      modifies this
      ensures closed <==> old(reservations)[k].status == Reserved
      ensures State() == Close(old(State()), k, to)
    {
      var row := reservations[k];
      closed := row.status == Reserved;
      if closed {
        reservations := reservations[k := row.(status := to)];
        var key := StockOf(k, row);
        if Returns(to) && key in stock && stock[key].quantity.Some? {
          stock := stock[key := stock[key].(quantity := Some(stock[key].quantity.value + row.quantity))];
        }
        events := events + [Event(k, Some(Reserved), to, row.quantity)];
      }
    }

    /**
     Closes every reserved row of the order. Stock changes by what conservation says: a finite stock
     gets back exactly what its rows held if they are released or expired, and nothing if consumed.
     */
    method TransitionOrder(order: OrderId, to: Final) returns (changed: nat)
      modifies this
      ensures changed == |OpenRows(old(reservations), order)|
      ensures reservations == ClosedRows(old(reservations), order, to)
      ensures forall key :: Finite(old(State()), key) ==>
        Finite(State(), key) && Total(State(), key) == Total(old(State()), key)
      ensures forall key :: Finite(old(State()), key) ==>
        Quantity(stock, key) ==
          Quantity(old(stock), key) + if to == Consumed then 0 else HeldBy(old(reservations), order, key)
      ensures stock.Keys == old(stock).Keys
      ensures forall key :: key in stock && !Finite(old(State()), key) ==> stock[key] == old(stock)[key]
      ensures LedgerMatches(old(State())) ==> LedgerMatches(State())
      ensures old(events) <= events && |events| == |old(events)| + changed
      ensures changed == 0 ==> State() == old(State())
    {
      ghost var start := State();
      var keys := FindByOrderForUpdate(order);
      changed := CloseAll(keys, to);
      assert OpenAmong(start.res, keys) == OpenRows(start.res, order);
      forall key { ClosingReleases(start.res, order, to, key); }
    }

    /** One turn as a step of the whole, after the first `i` rows of `start`. */
    method CloseNext(keys: seq<ResKey>, i: nat, to: Final, ghost start: View) returns (closed: bool)
      requires i < |keys| && keys[i] in start.res && forall j, l :: 0 <= j < l < |keys| ==> keys[j] != keys[l]
      requires Closing(start, State(), OpenAmong(start.res, keys[..i]), to)
      modifies this
      ensures Closing(start, State(), OpenAmong(start.res, keys[..i + 1]), to)
      ensures |OpenAmong(start.res, keys[..i + 1])| == |OpenAmong(start.res, keys[..i])| + if closed then 1 else 0
    {
      OpenAmongSnoc(start.res, keys, i);
      ClosingOne(start, State(), OpenAmong(start.res, keys[..i]), to, keys[i]);
      closed := CloseRow(keys[i], to);
    }

    /** The loop over the locked rows. */
    method CloseAll(keys: seq<ResKey>, to: Final) returns (changed: nat)
      requires forall k :: k in keys ==> k in reservations
      requires forall i, j :: 0 <= i < j < |keys| ==> keys[i] != keys[j]
      modifies this
      ensures changed == |OpenAmong(old(reservations), keys)|
      ensures Closing(old(State()), State(), OpenAmong(old(reservations), keys), to)
    {
      changed := 0;
      ghost var start := State();
      ClosingNone(start, to);
      assert OpenAmong(start.res, keys[..0]) == {};
      for i := 0 to |keys|
        invariant changed == |OpenAmong(start.res, keys[..i])|
        invariant Closing(start, State(), OpenAmong(start.res, keys[..i]), to)
      {
        var closed := CloseNext(keys, i, to, start);
        if closed {
          changed := changed + 1;
        }
      }
      assert keys[..|keys|] == keys;
    }

    /**
     A second transition of the same order changes nothing and returns 0: the tables and the ledger are as
     the first left them in `between`, the result of that one transition.
     */
    method TransitionTwice(order: OrderId, first: Final, second: Final) returns (ghost between: View, again: nat)
      modifies this
      ensures again == 0 && State() == between
      ensures between.res == ClosedRows(old(reservations), order, first)
      ensures forall key :: Finite(old(State()), key) ==>
        Finite(between, key) && Total(between, key) == Total(old(State()), key)
      ensures LedgerMatches(old(State())) ==> LedgerMatches(between)
      ensures old(events) <= between.events
      ensures |between.events| == |old(events)| + |OpenRows(old(reservations), order)|
    {
      var _ := TransitionOrder(order, first);
      between := State();
      assert OpenRows(reservations, order) == {};
      again := TransitionOrder(order, second);
    }
  }

  lemma CloseKeeps(v: View, k: ResKey, to: Final)
    requires k in v.res
    ensures forall key :: Finite(v, key) ==>
      Finite(Close(v, k, to), key) && Total(Close(v, k, to), key) == Total(v, key)
    ensures LedgerMatches(v) ==> LedgerMatches(Close(v, k, to))
  {
    forall key | Finite(v, key)
      ensures Finite(Close(v, k, to), key) && Total(Close(v, k, to), key) == Total(v, key)
    {
      CloseConserves(v, k, to, key);
    }
    if LedgerMatches(v) && v.res[k].status == Reserved {
      CloseKeepsLedger(v, k, to);
    }
  }

  lemma CloseKeepsLedger(v: View, k: ResKey, to: Final)
    requires k in v.res && LedgerMatches(v) && v.res[k].status == Reserved
    ensures LedgerMatches(Close(v, k, to))
  {
    var e := Event(k, Some(Reserved), to, v.res[k].quantity);
    assert Close(v, k, to).events == v.events + [e];
    forall x
      ensures Replay(Nothing, v.events + [e], x) == StateOf(Close(v, k, to).res, x)
    {
      ReplayOfAppend(Nothing, v.events, e, x);
      assert Replay(Nothing, v.events, x) == StateOf(v.res, x);
    }
  }
}
