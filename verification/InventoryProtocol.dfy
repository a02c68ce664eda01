/**
 Reservations under concurrency. Transactions run the statements of `Inventory` one at a time and in
 any interleaving; a row that a transaction has written or read FOR UPDATE is locked until it ends,
 its writes stay private until COMMIT, and any transaction may be rolled back at any point.
 */
module InventoryProtocol {
  import opened Options
  import opened Sums
  import opened Inventory

  type Pid = nat

  /** Where a transaction is between the statements of a repository call. */
  datatype Pc =
    | Ready
    | Taken(key: ResKey, branch: BranchId, quantity: int, expires: Option<int>)
    | Walking(to: Final, todo: seq<(ResKey, Row)>)
    | Marked(to: Final, key: ResKey, row: Row, todo: seq<(ResKey, Row)>)

  /** `local` holds the locked rows as this transaction sees them, and the events it has inserted. */
  datatype Tx = Tx(stockLocks: set<StockKey>, resLocks: set<ResKey>, local: View, pc: Pc)

  datatype Sys = Sys(db: View, txs: map<Pid, Tx>)

  datatype Action =
    | Begin
    | Take(key: ResKey, branch: BranchId, organization: nat, quantity: int, expires: Option<int>)
    | BookTaken
    | Claim(keys: set<ResKey>, now: int)
    | LockOrder(order: OrderId, to: Final, rows: seq<ResKey>)
    | MarkNext
    | FinishMarked
    | Commit
    | Rollback

  /** A statement waits for a lock, or throws and rolls its transaction back, or goes on. */
  datatype Reply = Blocked | Threw | Next(tx: Tx)

  ghost function LockStock(db: View, tx: Tx, key: StockKey): Tx {
    if key in tx.stockLocks || key !in db.stock then tx
    else tx.(stockLocks := tx.stockLocks + {key},
             local := tx.local.(stock := tx.local.stock[key := db.stock[key]]))
  }

  ghost function LockRows(db: View, tx: Tx, keys: set<ResKey>): Tx {
    tx.(resLocks := tx.resLocks + keys,
        local := tx.local.(res := Restrict(db.res, keys - tx.resLocks) + tx.local.res))
  }

  function Restrict(res: map<ResKey, Row>, keys: set<ResKey>): map<ResKey, Row> {
    map k | k in res && k in keys :: res[k]
  }

  ghost predicate StockFree(s: Sys, pid: Pid, key: StockKey) {
    forall p :: p in s.txs && p != pid ==> key !in s.txs[p].stockLocks
  }

  ghost predicate RowsFree(s: Sys, pid: Pid, keys: set<ResKey>) {
    forall p :: p in s.txs && p != pid ==> keys !! s.txs[p].resLocks
  }

  /** The rows of an order a transaction can see, the committed ones and its own, each once. */
  ghost predicate Lists(db: View, tx: Tx, order: OrderId, rows: seq<ResKey>) {
    && (forall k :: k in rows <==> (k in db.res || k in tx.local.res) && k.order == order)
    && (forall i, j :: 0 <= i < j < |rows| ==> rows[i] != rows[j])
  }

  ghost predicate Due(db: View, k: ResKey, now: int) {
    k in db.res && db.res[k].status == Reserved && db.res[k].expiresAt.Some? && db.res[k].expiresAt.value <= now
  }

  ghost function Snapshot(res: map<ResKey, Row>, rows: seq<ResKey>): (todo: seq<(ResKey, Row)>)
    ensures |todo| <= |rows|
  {
    if rows == [] then []
    else if rows[0] in res then [(rows[0], res[rows[0]])] + Snapshot(res, rows[1..])
    else Snapshot(res, rows[1..])
  }

  /** One statement of a running transaction. */
  ghost function Execute(s: Sys, pid: Pid, a: Action): Reply
    requires pid in s.txs
  {
    var tx := s.txs[pid];
    match a
    case Take(k, branch, organization, q, expires) =>
      if tx.pc.Ready? && StockFree(s, pid, StockKey(branch, k.product))
      then TakeIt(s.db, tx, k, branch, organization, q, expires) else Blocked
    case BookTaken =>
      if tx.pc.Taken? && RowsFree(s, pid, {tx.pc.key}) then BookIt(s.db, tx) else Blocked
    case Claim(keys, now) =>
      // SKIP LOCKED: only rows nobody else holds are claimed.
      if tx.pc.Ready? && RowsFree(s, pid, keys) && forall k :: k in keys ==> Due(s.db, k, now)
      then Next(LockRows(s.db, tx, keys)) else Blocked
    case LockOrder(order, to, rows) =>
      var keys := set k | k in rows;
      if tx.pc.Ready? && Lists(s.db, tx, order, rows) && RowsFree(s, pid, keys)
      then
        var locked := LockRows(s.db, tx, keys);
        Next(locked.(pc := Walking(to, Snapshot(locked.local.res, rows))))
      else Blocked
    case MarkNext => if tx.pc.Walking? then MarkIt(tx) else Blocked
    case FinishMarked =>
      if tx.pc.Marked? && (Returns(tx.pc.to) ==> StockFree(s, pid, StockOf(tx.pc.key, tx.pc.row)))
      then FinishIt(s.db, tx) else Blocked
    case _ => Blocked
  }

  /** `reserve`, first statement. */
  ghost function TakeIt(
      db: View, tx: Tx, k: ResKey, branch: BranchId, organization: nat, q: int, expires: Option<int>): Reply
  {
    var key := StockKey(branch, k.product);
    var locked := LockStock(db, tx, key);
    match TakeStock(locked.local, key, organization, q)
    case None => Threw
    case Some(v) => Next(locked.(local := v, pc := Taken(k, branch, q, expires)))
  }

  /** `reserve`, the reservation row and its event. */
  ghost function BookIt(db: View, tx: Tx): Reply
    requires tx.pc.Taken?
  {
    var locked := LockRows(db, tx, {tx.pc.key});
    match Book(locked.local, tx.pc.key, tx.pc.branch, tx.pc.quantity, tx.pc.expires)
    case None => Threw
    case Some(v) => Next(locked.(local := v, pc := Ready))
  }

  /** `transitionOrder`: skip the next row, or mark it if the guarded UPDATE matches. */
  ghost function MarkIt(tx: Tx): Reply
    requires tx.pc.Walking?
  {
    var Walking(to, todo) := tx.pc;
    if todo == [] then Next(tx.(pc := Ready))
    else
      var (k, row) := todo[0];
      if row.status != Reserved then Next(tx.(pc := Walking(to, todo[1..])))
      else
        match Mark(tx.local, k, to)
        case None => Next(tx.(pc := Walking(to, todo[1..])))
        case Some(v) => Next(tx.(local := v, pc := Marked(to, k, row, todo[1..])))
  }

  /** `transitionOrder`: return the quantity that was read with the row, and record the event. */
  ghost function FinishIt(db: View, tx: Tx): Reply
    requires tx.pc.Marked?
  {
    var Marked(to, k, row, todo) := tx.pc;
    var key := StockOf(k, row);
    var locked := if Returns(to) then LockStock(db, tx, key) else tx;
    var v := if Returns(to) then PutBack(locked.local, key, row.quantity) else locked.local;
    if k !in v.res then Threw
    else
      match Record(v, Event(k, Some(Reserved), to, v.res[k].quantity))
      case None => Threw
      case Some(w) => Next(locked.(local := w, pc := Walking(to, todo)))
  }

  ghost function Publish(db: View, local: View): View {
    View(db.stock + local.stock, db.res + local.res, db.events + local.events)
  }

  const NEW_TX := Tx({}, {}, View(map[], map[], []), Ready)

  ghost function Step(s: Sys, pid: Pid, a: Action): Sys {
    if pid !in s.txs then
      if a.Begin? then s.(txs := s.txs[pid := NEW_TX]) else s
    else if a.Rollback? then s.(txs := s.txs - {pid})
    else if a.Commit? then
      if s.txs[pid].pc.Ready? then Sys(Publish(s.db, s.txs[pid].local), s.txs - {pid}) else s
    else
      match Execute(s, pid, a)
      case Blocked => s
      case Threw => s.(txs := s.txs - {pid})
      case Next(tx) => s.(txs := s.txs[pid := tx])
  }

  // ---------------------------------------------------------------- what a transaction keeps

  /** Each order books a product on one branch. */
  type Home = ResKey -> BranchId

  ghost predicate RowOk(k: ResKey, row: Row, home: Home) {
    row.quantity > 0 && row.branch == home(k) && row.expiresAt == LatestOffer(row.offered)
  }

  ghost predicate RowsOk(v: View, home: Home) {
    && (forall k :: k in v.res ==> RowOk(k, v.res[k], home))
    && (forall key :: key in v.stock && v.stock[key].quantity.Some? ==> v.stock[key].quantity.value >= 0)
  }

  /** Locked rows are exactly the visible ones, with the committed stock's shape and its closed rows intact. */
  ghost predicate Covers(db: View, tx: Tx) {
    && tx.local.stock.Keys == tx.stockLocks && tx.stockLocks <= db.stock.Keys
    && tx.local.res.Keys <= tx.resLocks && db.res.Keys * tx.resLocks <= tx.local.res.Keys
    && (forall key :: key in tx.stockLocks ==> (tx.local.stock[key].quantity.Some? <==> db.stock[key].quantity.Some?))
    && (forall k :: k in tx.resLocks && k in db.res && db.res[k].status != Reserved ==> tx.local.res[k] == db.res[k])
  }

  /** Quantity taken or marked by the statement before, and not yet booked or returned. */
  ghost function InFlight(pc: Pc, key: StockKey): int {
    match pc
    case Taken(k, branch, q, _) => if StockKey(branch, k.product) == key then q else 0
    case Marked(to, k, row, _) => if Returns(to) && StockOf(k, row) == key then row.quantity else 0
    case _ => 0
  }

  /** The locked part of the tables weighs the same before and inside the transaction. */
  ghost predicate Balanced(db: View, tx: Tx) {
    forall key :: Finite(db, key) ==>
      Quantity(tx.local.stock, key) + Sum(Weights(tx.local.res, key)) + InFlight(tx.pc, key) ==
      (if key in tx.stockLocks then Quantity(db.stock, key) else 0) + Sum(Weights(Restrict(db.res, tx.resLocks), key))
  }

  ghost function Recorded(tx: Tx, k: ResKey): Replayed {
    if tx.pc.Marked? && tx.pc.key == k then At(tx.pc.row.quantity, Reserved) else StateOf(tx.local.res, k)
  }

  ghost predicate Ledger(db: View, tx: Tx) {
    && (forall i :: 0 <= i < |tx.local.events| ==> tx.local.events[i].key in tx.resLocks)
    && (forall k :: k in tx.resLocks ==> Replay(StateOf(db.res, k), tx.local.events, k) == Recorded(tx, k))
  }

  ghost predicate TodoOk(local: View, todo: seq<(ResKey, Row)>) {
    && (forall i :: 0 <= i < |todo| ==> todo[i].0 in local.res && local.res[todo[i].0] == todo[i].1)
    && (forall i, j :: 0 <= i < j < |todo| ==> todo[i].0 != todo[j].0)
  }

  ghost predicate PcOk(tx: Tx, home: Home) {
    match tx.pc
    case Ready => true
    case Taken(k, branch, _, _) => branch == home(k)
    case Walking(_, todo) => TodoOk(tx.local, todo)
    case Marked(to, k, row, todo) =>
      && TodoOk(tx.local, todo)
      && k in tx.local.res && tx.local.res[k] == row.(status := to) && row.status == Reserved
      && forall i :: 0 <= i < |todo| ==> todo[i].0 != k
  }

  ghost predicate TxOk(db: View, tx: Tx, home: Home) {
    Covers(db, tx) && RowsOk(tx.local, home) && Balanced(db, tx) && Ledger(db, tx) && PcOk(tx, home)
  }

  ghost predicate SysOk(s: Sys, home: Home) {
    && RowsOk(s.db, home) && LedgerMatches(s.db)
    && (forall p :: p in s.txs ==> TxOk(s.db, s.txs[p], home))
    && (forall p, r :: p in s.txs && r in s.txs && p != r ==>
          s.txs[p].stockLocks !! s.txs[r].stockLocks && s.txs[p].resLocks !! s.txs[r].resLocks)
  }

  ghost predicate Respects(a: Action, home: Home) {
    a.Take? ==> a.branch == home(a.key)
  }

  // ---------------------------------------------------------------- locking

  lemma LockStockKeeps(db: View, tx: Tx, key: StockKey, home: Home)
    requires RowsOk(db, home) && TxOk(db, tx, home)
    ensures TxOk(db, LockStock(db, tx, key), home)
    ensures key in db.stock ==> key in LockStock(db, tx, key).local.stock
  {
    var tx' := LockStock(db, tx, key);
    assert tx'.local.res == tx.local.res && tx'.local.events == tx.local.events;
    forall k | k in tx'.resLocks
      ensures Replay(StateOf(db.res, k), tx'.local.events, k) == Recorded(tx', k)
    {
    }
  }

  lemma LockRowsCovers(db: View, tx: Tx, keys: set<ResKey>, home: Home)
    requires RowsOk(db, home) && TxOk(db, tx, home)
    ensures Covers(db, LockRows(db, tx, keys)) && RowsOk(LockRows(db, tx, keys).local, home)
    ensures PcOk(LockRows(db, tx, keys), home)
    ensures forall k :: k in keys && k in db.res ==> k in LockRows(db, tx, keys).local.res
  {
    var tx' := LockRows(db, tx, keys);
    assert forall k :: k in tx.local.res ==> k in tx'.local.res && tx'.local.res[k] == tx.local.res[k];
    assert forall k :: k in tx'.local.res && k !in tx.local.res ==> k in db.res && tx'.local.res[k] == db.res[k];
  }

  lemma LockRowsBalances(db: View, tx: Tx, keys: set<ResKey>)
    requires Covers(db, tx) && Balanced(db, tx)
    ensures Balanced(db, LockRows(db, tx, keys))
  {
    var tx' := LockRows(db, tx, keys);
    var added, before := Restrict(db.res, keys - tx.resLocks), Restrict(db.res, tx.resLocks);
    assert added.Keys !! tx.local.res.Keys && added.Keys !! before.Keys;
    assert Restrict(db.res, tx'.resLocks) == added + before;
    forall key | Finite(db, key)
      ensures Sum(Weights(tx'.local.res, key)) - Sum(Weights(tx.local.res, key)) ==
        Sum(Weights(Restrict(db.res, tx'.resLocks), key)) - Sum(Weights(before, key))
    {
      WeightsOfParts(added, tx.local.res, key);
      WeightsOfParts(added, before, key);
    }
  }

  lemma LockRowsKeeps(db: View, tx: Tx, keys: set<ResKey>, home: Home)
    requires RowsOk(db, home) && TxOk(db, tx, home)
    ensures TxOk(db, LockRows(db, tx, keys), home)
    ensures forall k :: k in keys && k in db.res ==> k in LockRows(db, tx, keys).local.res
  {
    LockRowsCovers(db, tx, keys, home);
    LockRowsBalances(db, tx, keys);
    var tx' := LockRows(db, tx, keys);
    forall k | k in tx'.resLocks
      ensures Replay(StateOf(db.res, k), tx'.local.events, k) == Recorded(tx', k)
    {
      if k !in tx.resLocks { ReplayOfOthers(StateOf(db.res, k), tx.local.events, k); }
    }
  }

  lemma {:induction false} ReplayOfOthers(from: Replayed, events: seq<Event>, k: ResKey)
    requires forall i :: 0 <= i < |events| ==> events[i].key != k
    ensures Replay(from, events, k) == from
  {
    if events != [] {
      ReplayOfOthers(from, events[..|events| - 1], k);
    }
  }

  // ---------------------------------------------------------------- statements

  lemma TakeKeeps(
      db: View, tx: Tx, k: ResKey, branch: BranchId, organization: nat, q: int, expires: Option<int>, home: Home)
    requires RowsOk(db, home) && TxOk(db, tx, home) && tx.pc.Ready? && branch == home(k)
    requires TakeIt(db, tx, k, branch, organization, q, expires).Next?
    ensures TxOk(db, TakeIt(db, tx, k, branch, organization, q, expires).tx, home)
  {
    var key := StockKey(branch, k.product);
    LockStockKeeps(db, tx, key, home);
    var locked, tx' := LockStock(db, tx, key), TakeIt(db, tx, k, branch, organization, q, expires).tx;
    TakeLockedKeeps(db, locked, tx', key, organization, q, home);
  }

  lemma TakeLockedKeeps(db: View, tx: Tx, tx': Tx, key: StockKey, organization: nat, q: int, home: Home)
    requires TxOk(db, tx, home) && tx.pc.Ready?
    requires TakeStock(tx.local, key, organization, q).Some?
    requires tx' == tx.(local := TakeStock(tx.local, key, organization, q).value, pc := tx'.pc)
    requires tx'.pc.Taken? && StockKey(tx'.pc.branch, tx'.pc.key.product) == key && tx'.pc.quantity == q
    requires tx'.pc.branch == home(tx'.pc.key)
    ensures TxOk(db, tx', home)
  {
    assert tx'.local.res == tx.local.res && tx'.local.stock.Keys == tx.local.stock.Keys;
    BalancedAfter(db, tx, tx');
    LedgerUnchanged(db, tx, tx');
  }

  lemma LedgerAfterEvent(db: View, tx: Tx, tx': Tx, e: Event)
    requires Ledger(db, tx) && tx'.resLocks == tx.resLocks && tx'.local.events == tx.local.events + [e]
    requires e.key in tx.resLocks
    requires forall x :: x in tx.resLocks ==>
      Recorded(tx', x) == if x == e.key then ReplayOne(Recorded(tx, x), e) else Recorded(tx, x)
    ensures Ledger(db, tx')
  {
    forall x | x in tx'.resLocks
      ensures Replay(StateOf(db.res, x), tx'.local.events, x) == Recorded(tx', x)
    {
      ReplayOfAppend(StateOf(db.res, x), tx.local.events, e, x);
    }
  }

  lemma LedgerUnchanged(db: View, tx: Tx, tx': Tx)
    requires Ledger(db, tx) && tx'.resLocks == tx.resLocks && tx'.local.events == tx.local.events
    requires forall x :: x in tx.resLocks ==> Recorded(tx', x) == Recorded(tx, x)
    ensures Ledger(db, tx')
  {
    forall x | x in tx'.resLocks
      ensures Replay(StateOf(db.res, x), tx'.local.events, x) == Recorded(tx', x)
    {
    }
  }

  lemma BalancedAfter(db: View, tx: Tx, tx': Tx)
    requires Balanced(db, tx) && tx'.stockLocks == tx.stockLocks && tx'.resLocks == tx.resLocks
    requires forall key :: Finite(db, key) ==>
      Quantity(tx'.local.stock, key) + Sum(Weights(tx'.local.res, key)) + InFlight(tx'.pc, key) ==
      Quantity(tx.local.stock, key) + Sum(Weights(tx.local.res, key)) + InFlight(tx.pc, key)
    ensures Balanced(db, tx')
  {
  }

  lemma BookKeeps(db: View, tx: Tx, home: Home)
    requires RowsOk(db, home) && TxOk(db, tx, home) && tx.pc.Taken? && BookIt(db, tx).Next?
    ensures TxOk(db, BookIt(db, tx).tx, home)
  {
    LockRowsKeeps(db, tx, {tx.pc.key}, home);
    BookLockedKeeps(db, LockRows(db, tx, {tx.pc.key}), BookIt(db, tx).tx, home);
  }

  lemma BookLockedKeeps(db: View, tx: Tx, tx': Tx, home: Home)
    requires TxOk(db, tx, home) && tx.pc.Taken? && tx.pc.key in tx.resLocks
    requires var booked := Book(tx.local, tx.pc.key, tx.pc.branch, tx.pc.quantity, tx.pc.expires);
      booked.Some? && tx' == tx.(local := booked.value, pc := Ready)
    ensures TxOk(db, tx', home)
  {
    var Taken(k, branch, q, expires) := tx.pc;
    var v, v' := tx.local, tx'.local;
    var e := Event(k, if k in v.res then Some(Reserved) else None, Reserved, q);
    assert v'.res == v.res[k := v'.res[k]] && v'.stock == v.stock && v'.events == v.events + [e];
    BookedRow(v, k, branch, q, expires, home);
    assert Balanced(db, tx') by {
      forall key | Finite(db, key)
        ensures Sum(Weights(v'.res, key)) == Sum(Weights(v.res, key)) + InFlight(tx.pc, key)
      {
        WeightsOfUpdate(v.res, k, v'.res[k], key);
      }
      BalancedAfter(db, tx, tx');
    }
    LedgerAfterEvent(db, tx, tx', e);
  }

  lemma BookedRow(v: View, k: ResKey, branch: BranchId, q: int, expires: Option<int>, home: Home)
    requires RowsOk(v, home) && branch == home(k) && Book(v, k, branch, q, expires).Some?
    ensures RowOk(k, Book(v, k, branch, q, expires).value.res[k], home)
    ensures k in v.res ==> v.res[k].status == Reserved
  {
    var row := Book(v, k, branch, q, expires).value.res[k];
    if k in v.res {
      assert row.offered[..|row.offered| - 1] == v.res[k].offered;
    } else {
      assert row.offered[..0] == [];
    }
  }

  lemma {:induction false} SnapshotRows(local: View, rows: seq<ResKey>)
    ensures forall i :: 0 <= i < |Snapshot(local.res, rows)| ==>
      var (k, row) := Snapshot(local.res, rows)[i]; k in rows && k in local.res && local.res[k] == row
    ensures forall k :: k in rows && k in local.res ==> (k, local.res[k]) in Snapshot(local.res, rows)
  {
    if rows != [] {
      SnapshotRows(local, rows[1..]);
      assert forall k :: k in rows <==> k == rows[0] || k in rows[1..];
    }
  }

  lemma {:induction false} SnapshotOk(local: View, rows: seq<ResKey>)
    requires forall i, j :: 0 <= i < j < |rows| ==> rows[i] != rows[j]
    ensures TodoOk(local, Snapshot(local.res, rows))
  {
    SnapshotRows(local, rows);
    if rows != [] {
      SnapshotOk(local, rows[1..]);
      SnapshotRows(local, rows[1..]);
      assert rows[0] !in rows[1..];
    }
  }

  lemma LockOrderKeeps(db: View, tx: Tx, order: OrderId, to: Final, rows: seq<ResKey>, home: Home)
    requires RowsOk(db, home) && TxOk(db, tx, home) && tx.pc.Ready? && Lists(db, tx, order, rows)
    ensures var locked := LockRows(db, tx, set k | k in rows);
      TxOk(db, locked.(pc := Walking(to, Snapshot(locked.local.res, rows))), home)
  {
    var keys := set k | k in rows;
    LockRowsKeeps(db, tx, keys, home);
    var locked := LockRows(db, tx, keys);
    var tx' := locked.(pc := Walking(to, Snapshot(locked.local.res, rows)));
    SnapshotOk(locked.local, rows);
    forall x | x in tx'.resLocks
      ensures Replay(StateOf(db.res, x), tx'.local.events, x) == Recorded(tx', x)
    {
      assert Recorded(tx', x) == Recorded(locked, x);
    }
    forall key | Finite(db, key)
      ensures InFlight(tx'.pc, key) == InFlight(locked.pc, key)
    {
    }
  }

  lemma MarkKeeps(db: View, tx: Tx, home: Home)
    requires RowsOk(db, home) && TxOk(db, tx, home) && tx.pc.Walking?
    ensures MarkIt(tx).Next? && TxOk(db, MarkIt(tx).tx, home)
  {
    var Walking(to, todo) := tx.pc;
    var tx' := MarkIt(tx).tx;
    if todo != [] && todo[0].1.status == Reserved {
      MarkedKeeps(db, tx, tx', home);
    } else {
      assert tx'.local == tx.local;
      BalancedAfter(db, tx, tx');
      LedgerUnchanged(db, tx, tx');
    }
  }

  lemma MarkedKeeps(db: View, tx: Tx, tx': Tx, home: Home)
    requires TxOk(db, tx, home) && tx.pc.Walking? && tx.pc.todo != [] && tx.pc.todo[0].1.status == Reserved
    requires var (k, row) := tx.pc.todo[0];
      tx' == tx.(local := tx.local.(res := tx.local.res[k := row.(status := tx.pc.to)]),
                 pc := Marked(tx.pc.to, k, row, tx.pc.todo[1..]))
    ensures TxOk(db, tx', home)
  {
    var (k, row) := tx.pc.todo[0];
    MarkingBalances(db, tx, tx', k, row);
    LedgerUnchanged(db, tx, tx');
    assert RowOk(k, row, home);
    assert forall i :: 0 <= i < |tx'.pc.todo| ==> tx'.pc.todo[i] == tx.pc.todo[i + 1];
  }

  lemma MarkingBalances(db: View, tx: Tx, tx': Tx, k: ResKey, row: Row)
    requires Balanced(db, tx) && tx.pc.Walking? && k in tx.local.res && tx.local.res[k] == row && row.status == Reserved
    requires tx'.stockLocks == tx.stockLocks && tx'.resLocks == tx.resLocks && tx'.local.stock == tx.local.stock
    requires tx'.local.res == tx.local.res[k := row.(status := tx.pc.to)]
    requires tx'.pc.Marked? && tx'.pc.to == tx.pc.to && tx'.pc.key == k && tx'.pc.row == row
    ensures Balanced(db, tx')
  {
    forall key | Finite(db, key)
      ensures Sum(Weights(tx'.local.res, key)) + InFlight(tx'.pc, key) == Sum(Weights(tx.local.res, key))
    {
      WeightsOfUpdate(tx.local.res, k, row.(status := tx.pc.to), key);
    }
    BalancedAfter(db, tx, tx');
  }

  lemma FinishKeeps(db: View, tx: Tx, home: Home)
    requires RowsOk(db, home) && TxOk(db, tx, home) && tx.pc.Marked?
    ensures FinishIt(db, tx).Next? && TxOk(db, FinishIt(db, tx).tx, home)
  {
    var key := StockOf(tx.pc.key, tx.pc.row);
    assert RowOk(tx.pc.key, tx.local.res[tx.pc.key], home);
    if Returns(tx.pc.to) {
      LockStockKeeps(db, tx, key, home);
      FinishLockedKeeps(db, LockStock(db, tx, key), FinishIt(db, tx).tx, home);
    } else {
      FinishLockedKeeps(db, tx, FinishIt(db, tx).tx, home);
    }
  }

  lemma FinishLockedKeeps(db: View, tx: Tx, tx': Tx, home: Home)
    requires TxOk(db, tx, home) && tx.pc.Marked?
    requires StockOf(tx.pc.key, tx.pc.row) in db.stock && Returns(tx.pc.to) ==>
      StockOf(tx.pc.key, tx.pc.row) in tx.local.stock
    requires var Marked(to, k, row, todo) := tx.pc;
      var v := if Returns(to) then PutBack(tx.local, StockOf(k, row), row.quantity) else tx.local;
      tx' == tx.(local := v.(events := v.events + [Event(k, Some(Reserved), to, row.quantity)]), pc := Walking(to, todo))
    ensures TxOk(db, tx', home)
  {
    var Marked(to, k, row, todo) := tx.pc;
    assert tx'.local.res == tx.local.res && tx'.local.stock.Keys == tx.local.stock.Keys;
    assert RowOk(k, tx.local.res[k], home);
    PuttingBackBalances(db, tx, tx');
    LedgerAfterEvent(db, tx, tx', Event(k, Some(Reserved), to, row.quantity));
  }

  lemma PuttingBackBalances(db: View, tx: Tx, tx': Tx)
    requires Balanced(db, tx) && Covers(db, tx) && tx.pc.Marked? && tx'.pc.Walking?
    requires tx'.stockLocks == tx.stockLocks && tx'.resLocks == tx.resLocks && tx'.local.res == tx.local.res
    requires StockOf(tx.pc.key, tx.pc.row) in db.stock && Returns(tx.pc.to) ==>
      StockOf(tx.pc.key, tx.pc.row) in tx.local.stock
    requires tx'.local.stock == if Returns(tx.pc.to)
      then PutBack(tx.local, StockOf(tx.pc.key, tx.pc.row), tx.pc.row.quantity).stock else tx.local.stock
    ensures Balanced(db, tx')
  {
    forall key | Finite(db, key)
      ensures Quantity(tx'.local.stock, key) == Quantity(tx.local.stock, key) + InFlight(tx.pc, key)
    {
    }
    BalancedAfter(db, tx, tx');
  }

  // ---------------------------------------------------------------- commit

  /** What every commit keeps: totals of finite stock, closed rows, and the ledger so far. */
  ghost predicate Preserves(before: View, after: View) {
    && (forall key :: Finite(before, key) ==> Finite(after, key) && Total(after, key) == Total(before, key))
    && (forall k :: k in before.res && before.res[k].status != Reserved ==>
          k in after.res && after.res[k] == before.res[k])
    && before.events <= after.events
  }

  lemma PublishKeepsTotal(db: View, tx: Tx, key: StockKey)
    requires Covers(db, tx) && Balanced(db, tx) && tx.pc.Ready? && Finite(db, key)
    ensures Finite(Publish(db, tx.local), key) && Total(Publish(db, tx.local), key) == Total(db, key)
  {
    var kept, taken := db.res - tx.resLocks, Restrict(db.res, tx.resLocks);
    assert kept.Keys !! taken.Keys && kept.Keys !! tx.local.res.Keys;
    assert db.res == kept + taken;
    assert db.res + tx.local.res == kept + tx.local.res;
    WeightsOfParts(kept, taken, key);
    WeightsOfParts(kept, tx.local.res, key);
  }

  lemma PublishKeepsLedger(db: View, tx: Tx)
    requires Covers(db, tx) && Ledger(db, tx) && tx.pc.Ready? && LedgerMatches(db)
    ensures LedgerMatches(Publish(db, tx.local))
  {
    var db' := Publish(db, tx.local);
    forall k
      ensures Replay(Nothing, db'.events, k) == StateOf(db'.res, k)
    {
      ReplayOfConcat(Nothing, db.events, tx.local.events, k);
      assert Replay(Nothing, db.events, k) == StateOf(db.res, k);
      if k !in tx.resLocks {
        ReplayOfOthers(StateOf(db.res, k), tx.local.events, k);
      } else {
        assert Recorded(tx, k) == StateOf(tx.local.res, k);
      }
    }
  }

  lemma PublishPreserves(db: View, tx: Tx, home: Home)
    requires RowsOk(db, home) && LedgerMatches(db) && TxOk(db, tx, home) && tx.pc.Ready?
    ensures RowsOk(Publish(db, tx.local), home) && LedgerMatches(Publish(db, tx.local))
    ensures Preserves(db, Publish(db, tx.local))
  {
    PublishKeepsLedger(db, tx);
    forall key | Finite(db, key)
      ensures Finite(Publish(db, tx.local), key) && Total(Publish(db, tx.local), key) == Total(db, key)
    {
      PublishKeepsTotal(db, tx, key);
    }
  }

  /** A commit does not disturb a transaction that holds other locks. */
  lemma PublishSparesOthers(db: View, tx: Tx, other: Tx, home: Home)
    requires TxOk(db, tx, home) && TxOk(db, other, home)
    requires tx.stockLocks !! other.stockLocks && tx.resLocks !! other.resLocks
    ensures TxOk(Publish(db, tx.local), other, home)
  {
    var db' := Publish(db, tx.local);
    assert Restrict(db'.res, other.resLocks) == Restrict(db.res, other.resLocks);
    forall k | k in other.resLocks
      ensures StateOf(db'.res, k) == StateOf(db.res, k)
    {
      assert k !in tx.local.res;
    }
    forall key | Finite(db', key)
      ensures Finite(db, key) && (key in other.stockLocks ==> db'.stock[key] == db.stock[key])
    {
    }
  }

  // ---------------------------------------------------------------- runs

  lemma ExecuteKeeps(s: Sys, pid: Pid, a: Action, home: Home)
    requires SysOk(s, home) && Respects(a, home) && pid in s.txs && Execute(s, pid, a).Next?
    ensures TxOk(s.db, Execute(s, pid, a).tx, home)
  {
    var tx := s.txs[pid];
    match a
    case Take(k, branch, organization, q, expires) =>
      TakeKeeps(s.db, tx, k, branch, organization, q, expires, home);
    case BookTaken => BookKeeps(s.db, tx, home);
    case Claim(keys, now) => LockRowsKeeps(s.db, tx, keys, home);
    case LockOrder(order, to, rows) => LockOrderKeeps(s.db, tx, order, to, rows, home);
    case MarkNext => MarkKeeps(s.db, tx, home);
    case FinishMarked => FinishKeeps(s.db, tx, home);
    case _ =>
  }

  /** A statement only takes locks that are free. */
  lemma ExecuteTakesFreeLocks(s: Sys, pid: Pid, a: Action, p: Pid)
    requires pid in s.txs && p in s.txs && p != pid && Execute(s, pid, a).Next?
    requires s.txs[p].stockLocks !! s.txs[pid].stockLocks && s.txs[p].resLocks !! s.txs[pid].resLocks
    ensures s.txs[p].stockLocks !! Execute(s, pid, a).tx.stockLocks
    ensures s.txs[p].resLocks !! Execute(s, pid, a).tx.resLocks
  {
  }

  lemma EmptyTxOk(db: View, home: Home)
    ensures TxOk(db, NEW_TX, home)
  {
    assert Restrict(db.res, {}) == map[];
    forall key
      ensures Sum(Weights(NEW_TX.local.res, key)) == 0 && Sum(Weights(Restrict(db.res, {}), key)) == 0
    {
      assert Weights(map[], key) == map[];
    }
  }

  lemma CommitKeeps(s: Sys, pid: Pid, home: Home)
    requires SysOk(s, home) && pid in s.txs && s.txs[pid].pc.Ready?
    ensures SysOk(Step(s, pid, Commit), home) && Preserves(s.db, Step(s, pid, Commit).db)
  {
    var s' := Step(s, pid, Commit);
    PublishPreserves(s.db, s.txs[pid], home);
    forall p | p in s'.txs
      ensures TxOk(s'.db, s'.txs[p], home)
    {
      PublishSparesOthers(s.db, s.txs[pid], s.txs[p], home);
    }
  }

  lemma StatementKeeps(s: Sys, pid: Pid, a: Action, home: Home)
    requires SysOk(s, home) && Respects(a, home) && pid in s.txs && Execute(s, pid, a).Next?
    ensures SysOk(s.(txs := s.txs[pid := Execute(s, pid, a).tx]), home)
  {
    var tx := Execute(s, pid, a).tx;
    ExecuteKeeps(s, pid, a, home);
    forall p | p in s.txs && p != pid
      ensures s.txs[p].stockLocks !! tx.stockLocks && s.txs[p].resLocks !! tx.resLocks
    {
      ExecuteTakesFreeLocks(s, pid, a, p);
    }
    ReplacingTxKeeps(s, pid, tx, home);
  }

  lemma ReplacingTxKeeps(s: Sys, pid: Pid, tx: Tx, home: Home)
    requires SysOk(s, home) && pid in s.txs && TxOk(s.db, tx, home)
    requires forall p :: p in s.txs && p != pid ==>
      s.txs[p].stockLocks !! tx.stockLocks && s.txs[p].resLocks !! tx.resLocks
    ensures SysOk(s.(txs := s.txs[pid := tx]), home)
  {
  }

  lemma BeginKeeps(s: Sys, pid: Pid, home: Home)
    requires SysOk(s, home) && pid !in s.txs
    ensures SysOk(s.(txs := s.txs[pid := NEW_TX]), home)
  {
    EmptyTxOk(s.db, home);
  }

  lemma EndKeeps(s: Sys, pid: Pid, home: Home)
    requires SysOk(s, home)
    ensures SysOk(s.(txs := s.txs - {pid}), home)
  {
  }

  lemma OpenStepKeeps(s: Sys, pid: Pid, a: Action, home: Home)
    requires SysOk(s, home) && Respects(a, home) && pid in s.txs && !a.Commit?
    ensures SysOk(Step(s, pid, a), home) && Step(s, pid, a).db == s.db
  {
    if a.Rollback? {
      EndKeeps(s, pid, home);
    } else {
      match Execute(s, pid, a)
      case Blocked => assert Step(s, pid, a) == s;
      case Threw => EndKeeps(s, pid, home);
      case Next(_) => StatementKeeps(s, pid, a, home);
    }
  }

  lemma StepKeeps(s: Sys, pid: Pid, a: Action, home: Home)
    requires SysOk(s, home) && Respects(a, home)
    ensures SysOk(Step(s, pid, a), home) && Preserves(s.db, Step(s, pid, a).db)
  {
    assert Preserves(s.db, s.db);
    if pid !in s.txs {
      BeginKeeps(s, pid, home);
    } else if !a.Commit? {
      OpenStepKeeps(s, pid, a, home);
    } else if s.txs[pid].pc.Ready? {
      CommitKeeps(s, pid, home);
    }
  }

  ghost function Run(s: Sys, run: seq<(Pid, Action)>): Sys {
    if run == [] then s
    else var last := run[|run| - 1]; Step(Run(s, run[..|run| - 1]), last.0, last.1)
  }

  lemma {:induction false} RunKeeps(s: Sys, run: seq<(Pid, Action)>, home: Home)
    requires SysOk(s, home) && forall i :: 0 <= i < |run| ==> Respects(run[i].1, home)
    ensures SysOk(Run(s, run), home) && Preserves(s.db, Run(s, run).db)
  {
    if run != [] {
      var before, last := run[..|run| - 1], run[|run| - 1];
      RunKeeps(s, before, home);
      StepKeeps(Run(s, before), last.0, last.1, home);
    }
  }

  /**
   Conservation: in every state that any interleaving reaches, each finite stock with what its orders
   have reserved and consumed adds up to what it was, and no stock is negative.
   */
  lemma StockIsConserved(db: View, run: seq<(Pid, Action)>, home: Home, key: StockKey)
    requires RowsOk(db, home) && LedgerMatches(db) && Finite(db, key)
    requires forall i :: 0 <= i < |run| ==> Respects(run[i].1, home)
    ensures var after := Run(Sys(db, map[]), run).db;
      Finite(after, key) && Total(after, key) == Total(db, key) && Quantity(after.stock, key) >= 0
  {
    RunKeeps(Sys(db, map[]), run, home);
  }

  /** A reservation leaves 'reserved' at most once: a closed row never changes again. */
  lemma ClosedRowsStay(db: View, run: seq<(Pid, Action)>, more: seq<(Pid, Action)>, home: Home, k: ResKey)
    requires RowsOk(db, home) && LedgerMatches(db)
    requires forall i :: 0 <= i < |run| ==> Respects(run[i].1, home)
    requires forall i :: 0 <= i < |more| ==> Respects(more[i].1, home)
    requires var mid := Run(Sys(db, map[]), run); k in mid.db.res && mid.db.res[k].status != Reserved
    ensures var mid := Run(Sys(db, map[]), run);
      k in Run(mid, more).db.res && Run(mid, more).db.res[k] == mid.db.res[k]
  {
    RunKeeps(Sys(db, map[]), run, home);
    RunKeeps(Run(Sys(db, map[]), run), more, home);
  }

  /**
   The ledger of every reachable state rebuilds its reservations: per row the reserved events sum to
   its quantity, a closed row has exactly one final event for exactly that sum, an open row none, and
   the expiry is the latest one ever supplied.
   */
  lemma LedgerRebuildsReservations(db: View, run: seq<(Pid, Action)>, home: Home, k: ResKey)
    requires RowsOk(db, home) && LedgerMatches(db)
    requires forall i :: 0 <= i < |run| ==> Respects(run[i].1, home)
    ensures var after := Run(Sys(db, map[]), run).db;
      if k !in after.res then ReservedSum(after.events, k) == 0 && FinalEvents(after.events, k) == []
      else
        var row := after.res[k];
        && ReservedSum(after.events, k) == row.quantity
        && FinalEvents(after.events, k) ==
             (if row.status == Reserved then [] else [Event(k, Some(Reserved), row.status, row.quantity)])
        && row.expiresAt == LatestOffer(row.offered)
  {
    RunKeeps(Sys(db, map[]), run, home);
    var after := Run(Sys(db, map[]), run).db;
    assert Replay(Nothing, after.events, k) == StateOf(after.res, k);
    ReplayedLedger(after.events, k);
    if k in after.res {
      assert RowOk(k, after.res[k], home);
      if after.res[k].status != Reserved {
        assert FinalEvents(after.events, k) == [FinalEvents(after.events, k)[0]];
      }
    }
  }

  // ---------------------------------------------------------------- what a transaction gets done

  /** Only a commit changes the committed tables; a rollback and a statement that throws end their transaction. */
  lemma OnlyCommitsPublish(s: Sys, pid: Pid, a: Action)
    ensures !a.Commit? ==> Step(s, pid, a).db == s.db
    ensures pid in s.txs && a.Rollback? ==> Step(s, pid, a) == Sys(s.db, s.txs - {pid})
    ensures pid in s.txs && !a.Rollback? && !a.Commit? && Execute(s, pid, a).Threw? ==>
      Step(s, pid, a) == Sys(s.db, s.txs - {pid})
  {
  }

  /** A commit makes every locked row read as its transaction left it, leaves all others, and adds its events. */
  lemma CommitPublishes(s: Sys, pid: Pid, home: Home)
    requires SysOk(s, home) && pid in s.txs && s.txs[pid].pc.Ready?
    ensures var tx, after := s.txs[pid], Step(s, pid, Commit).db;
      && (forall key :: key in tx.stockLocks ==> key in after.stock && after.stock[key] == tx.local.stock[key])
      && (forall key :: key in s.db.stock && key !in tx.stockLocks ==>
            key in after.stock && after.stock[key] == s.db.stock[key])
      && (forall k :: k in tx.local.res ==> k in after.res && after.res[k] == tx.local.res[k])
      && (forall k :: k !in tx.resLocks ==> (k in after.res <==> k in s.db.res) && (k in s.db.res ==> after.res[k] == s.db.res[k]))
      && after.events == s.db.events + tx.local.events
      && pid !in Step(s, pid, Commit).txs
  {
  }

  /** A claim takes rows that are reserved and whose expiry has passed, and no others. */
  lemma ClaimsOnlyDue(s: Sys, pid: Pid, keys: set<ResKey>, now: int, k: ResKey)
    requires pid in s.txs && Execute(s, pid, Claim(keys, now)).Next? && k in keys
    ensures k in s.db.res && s.db.res[k].status == Reserved
    ensures s.db.res[k].expiresAt.Some? && s.db.res[k].expiresAt.value <= now
    ensures k in Execute(s, pid, Claim(keys, now)).tx.resLocks
  {
  }

  /** A row that nobody else holds and whose expiry has passed can be claimed. */
  lemma DueRowsCanBeClaimed(s: Sys, pid: Pid, k: ResKey, now: int)
    requires pid in s.txs && s.txs[pid].pc.Ready? && RowsFree(s, pid, {k})
    requires k in s.db.res && s.db.res[k].status == Reserved
    requires s.db.res[k].expiresAt.Some? && s.db.res[k].expiresAt.value <= now
    ensures Execute(s, pid, Claim({k}, now)).Next?
  {
  }

  lemma RunSnoc(s: Sys, run: seq<(Pid, Action)>, last: (Pid, Action))
    ensures Run(s, run + [last]) == Step(Run(s, run), last.0, last.1)
  {
    assert (run + [last])[..|run|] == run;
  }

  lemma {:induction false} RunOfConcat(s: Sys, a: seq<(Pid, Action)>, b: seq<(Pid, Action)>)
    ensures Run(s, a + b) == Run(Run(s, a), b)
  {
    if b == [] {
      assert a + b == a;
    } else {
      RunOfConcat(s, a, b[..|b| - 1]);
      assert (a + b)[..|a + b| - 1] == a + b[..|b| - 1];
    }
  }

  lemma RunOfTwo(s: Sys, x: (Pid, Action), y: (Pid, Action))
    ensures Run(s, [x]) == Step(s, x.0, x.1)
    ensures Run(s, [x, y]) == Step(Step(s, x.0, x.1), y.0, y.1)
  {
    RunSnoc(s, [], x);
    RunSnoc(s, [x], y);
    assert [] + [x] == [x] && [x] + [y] == [x, y];
  }

  /** The statements of a reservation, from BEGIN to COMMIT. */
  function Reservation(
      pid: Pid, k: ResKey, branch: BranchId, organization: nat, q: int, expires: Option<int>): seq<(Pid, Action)>
  {
    [(pid, Begin), (pid, Take(k, branch, organization, q, expires))] + [(pid, BookTaken), (pid, Commit)]
  }

  lemma BeginAndTake(
      s: Sys, pid: Pid, k: ResKey, branch: BranchId, organization: nat, q: int, expires: Option<int>)
    requires pid !in s.txs && StockFree(s, pid, StockKey(branch, k.product))
    requires TakeStock(s.db, StockKey(branch, k.product), organization, q).Some?
    ensures var key, s' := StockKey(branch, k.product), Step(Step(s, pid, Begin), pid, Take(k, branch, organization, q, expires));
      && s'.db == s.db && s'.txs == s.txs[pid := s'.txs[pid]]
      && s'.txs[pid] == Tx({key}, {},
           View(map[key := TakeStock(s.db, key, organization, q).value.stock[key]], map[], []), Taken(k, branch, q, expires))
  {
    var key, begun := StockKey(branch, k.product), Step(s, pid, Begin);
    assert begun.txs[pid] == NEW_TX && StockFree(begun, pid, key);
    var locked := LockStock(begun.db, NEW_TX, key);
    assert locked.local.stock == map[key := s.db.stock[key]];
  }

  lemma BookOnItsOwn(
      s: Sys, pid: Pid, key: StockKey, row: StockRow, k: ResKey, branch: BranchId, q: int, expires: Option<int>)
    requires pid in s.txs && RowsFree(s, pid, {k})
    requires s.txs[pid] == Tx({key}, {}, View(map[key := row], map[], []), Taken(k, branch, q, expires))
    requires Book(s.db, k, branch, q, expires).Some?
    ensures var booked := Book(s.db, k, branch, q, expires).value;
      && s.db.res[k := booked.res[k]] == booked.res
      && exists tx: Tx {:trigger s.txs[pid := tx]} ::
           && Step(s, pid, BookTaken) == s.(txs := s.txs[pid := tx]) && tx.pc.Ready?
           && tx.local.stock == map[key := row] && tx.local.res == map[k := booked.res[k]]
           && s.db.events + tx.local.events == booked.events
  {
    var locked := LockRows(s.db, s.txs[pid], {k});
    assert locked.local.res == Restrict(s.db.res, {k});
    var booked := Book(s.db, k, branch, q, expires).value;
    var tx := Step(s, pid, BookTaken).txs[pid];
    assert Step(s, pid, BookTaken) == s.(txs := s.txs[pid := tx]);
    assert tx.local.res == map[k := booked.res[k]];
  }

  lemma BookAndCommit(
      s: Sys, pid: Pid, key: StockKey, row: StockRow, k: ResKey, branch: BranchId, q: int, expires: Option<int>)
    requires pid in s.txs && RowsFree(s, pid, {k})
    requires s.txs[pid] == Tx({key}, {}, View(map[key := row], map[], []), Taken(k, branch, q, expires))
    requires Book(s.db, k, branch, q, expires).Some?
    ensures var booked, s' := Book(s.db, k, branch, q, expires).value, Step(Step(s, pid, BookTaken), pid, Commit);
      s'.db == View(s.db.stock[key := row], booked.res, booked.events) && s'.txs == s.txs - {pid}
  {
    BookOnItsOwn(s, pid, key, row, k, branch, q, expires);
    var booked := Book(s.db, k, branch, q, expires).value;
    assert s.db.res + map[k := booked.res[k]] == booked.res;
    assert s.db.stock + map[key := row] == s.db.stock[key := row];
  }

  /**
   A reservation run through the protocol, whatever other transactions are open on other rows, commits
   exactly what its statements do in sequence: the quantity leaves the stock and is in the row.
   */
  lemma ReservationCommits(
      s: Sys, pid: Pid, k: ResKey, branch: BranchId, organization: nat, q: int, expires: Option<int>)
    requires pid !in s.txs && StockFree(s, pid, StockKey(branch, k.product)) && RowsFree(s, pid, {k})
    requires ReserveView(s.db, k, branch, organization, q, expires).Some?
    ensures var after, key := Run(s, Reservation(pid, k, branch, organization, q, expires)), StockKey(branch, k.product);
      && after == Sys(ReserveView(s.db, k, branch, organization, q, expires).value, s.txs)
      && Quantity(after.db.stock, key) == Quantity(s.db.stock, key) - q
      && k in after.db.res && after.db.res[k].status == Reserved
      && after.db.res[k].quantity == q + if k in s.db.res then s.db.res[k].quantity else 0
  {
    var key := StockKey(branch, k.product);
    var begin, take := (pid, Begin), (pid, Take(k, branch, organization, q, expires));
    BeginAndTake(s, pid, k, branch, organization, q, expires);
    RunOfTwo(s, begin, take);
    var taken := Step(Step(s, pid, Begin), pid, Take(k, branch, organization, q, expires));
    var w := TakeStock(s.db, key, organization, q).value;
    assert w.res == s.db.res && w.events == s.db.events && w.stock == s.db.stock[key := w.stock[key]];
    assert Book(w, k, branch, q, expires).value == Book(s.db, k, branch, q, expires).value.(stock := w.stock);
    BookAndCommit(taken, pid, key, w.stock[key], k, branch, q, expires);
    RunOfTwo(taken, (pid, BookTaken), (pid, Commit));
    RunOfConcat(s, [begin, take], [(pid, BookTaken), (pid, Commit)]);
    assert taken.txs - {pid} == s.txs;
  }

  /** The statements of `transitionOrder` over the rows it has read. */
  function Walk(pid: Pid, todo: seq<(ResKey, Row)>): seq<(Pid, Action)> {
    if todo == [] then [(pid, MarkNext)] else Turn(pid, todo[0].1) + Walk(pid, todo[1..])
  }

  function Turn(pid: Pid, row: Row): seq<(Pid, Action)> {
    if row.status == Reserved then [(pid, MarkNext), (pid, FinishMarked)] else [(pid, MarkNext)]
  }

  predicate InTodo(todo: seq<(ResKey, Row)>, k: ResKey) {
    exists i :: 0 <= i < |todo| && todo[i].0 == k
  }

  /** The rows of a transaction after it has walked over `todo`. */
  function Walked(res: map<ResKey, Row>, todo: seq<(ResKey, Row)>, to: Final): map<ResKey, Row> {
    map k | k in res :: if InTodo(todo, k) && res[k].status == Reserved then res[k].(status := to) else res[k]
  }

  /** One transaction alone in the system, about to walk over rows that it holds as they are listed. */
  ghost predicate Walks(s: Sys, pid: Pid, to: Final, todo: seq<(ResKey, Row)>) {
    && s.txs.Keys == {pid} && s.txs[pid].pc == Walking(to, todo) && TodoOk(s.txs[pid].local, todo)
    && forall i :: 0 <= i < |todo| ==> todo[i].1.quantity > 0
  }

  /** `s'` is `s` with the transaction at stage `pc` and its reservations turned into `res`. */
  ghost predicate Turned(s: Sys, s': Sys, pid: Pid, pc: Pc, res: map<ResKey, Row>) {
    && s.txs.Keys == {pid} && s'.txs.Keys == {pid} && s'.db == s.db
    && s'.txs[pid].pc == pc && s'.txs[pid].resLocks == s.txs[pid].resLocks && s'.txs[pid].local.res == res
  }

  lemma MarkStep(s: Sys, pid: Pid, to: Final, todo: seq<(ResKey, Row)>)
    requires Walks(s, pid, to, todo) && todo != [] && todo[0].1.status == Reserved
    ensures Turned(s, Step(s, pid, MarkNext), pid, Marked(to, todo[0].0, todo[0].1, todo[1..]),
                   s.txs[pid].local.res[todo[0].0 := todo[0].1.(status := to)])
  {
  }

  lemma FinishStep(s: Sys, pid: Pid, to: Final, k: ResKey, row: Row, todo: seq<(ResKey, Row)>)
    requires s.txs.Keys == {pid} && s.txs[pid].pc == Marked(to, k, row, todo)
    requires k in s.txs[pid].local.res && s.txs[pid].local.res[k].quantity > 0
    ensures Turned(s, Step(s, pid, FinishMarked), pid, Walking(to, todo), s.txs[pid].local.res)
  {
    FinishIsNotBlocked(s, pid);
  }

  lemma FinishIsNotBlocked(s: Sys, pid: Pid)
    requires s.txs.Keys == {pid} && s.txs[pid].pc.Marked?
    ensures Execute(s, pid, FinishMarked) == FinishIt(s.db, s.txs[pid])
  {
    assert StockFree(s, pid, StockOf(s.txs[pid].pc.key, s.txs[pid].pc.row));
  }

  lemma WalkedStep(res: map<ResKey, Row>, todo: seq<(ResKey, Row)>, to: Final)
    requires todo != [] && todo[0].0 in res && res[todo[0].0] == todo[0].1
    requires forall i, j :: 0 <= i < j < |todo| ==> todo[i].0 != todo[j].0
    ensures Walked(res, todo, to) ==
      Walked(AfterTurn(res, todo[0].0, todo[0].1, to), todo[1..], to)
  {
    forall k
      ensures InTodo(todo, k) <==> k == todo[0].0 || InTodo(todo[1..], k)
    {
      if InTodo(todo, k) {
        var i :| 0 <= i < |todo| && todo[i].0 == k;
        assert i > 0 ==> todo[1..][i - 1].0 == k;
      }
      if InTodo(todo[1..], k) {
        var i :| 0 <= i < |todo| - 1 && todo[1..][i].0 == k;
        assert todo[i + 1].0 == k;
      }
    }
  }

  function AfterTurn(res: map<ResKey, Row>, k: ResKey, row: Row, to: Final): map<ResKey, Row> {
    if row.status == Reserved then res[k := row.(status := to)] else res
  }

  lemma TodoAfterTurn(s: Sys, s': Sys, pid: Pid, to: Final, todo: seq<(ResKey, Row)>)
    requires Walks(s, pid, to, todo) && todo != []
    requires Turned(s, s', pid, Walking(to, todo[1..]), AfterTurn(s.txs[pid].local.res, todo[0].0, todo[0].1, to))
    ensures Walks(s', pid, to, todo[1..])
  {
    assert forall i :: 0 <= i < |todo| - 1 ==> todo[1..][i] == todo[i + 1] && todo[i + 1].0 != todo[0].0;
  }

  lemma WalkTurn(s: Sys, pid: Pid, to: Final, todo: seq<(ResKey, Row)>)
    requires Walks(s, pid, to, todo) && todo != []
    ensures Turned(s, Run(s, Turn(pid, todo[0].1)), pid, Walking(to, todo[1..]),
                   AfterTurn(s.txs[pid].local.res, todo[0].0, todo[0].1, to))
  {
    RunOfTwo(s, (pid, MarkNext), (pid, FinishMarked));
    if todo[0].1.status == Reserved {
      MarkStep(s, pid, to, todo);
      FinishStep(Step(s, pid, MarkNext), pid, to, todo[0].0, todo[0].1, todo[1..]);
    }
  }

  lemma WalkEnds(s: Sys, pid: Pid, to: Final)
    requires Walks(s, pid, to, [])
    ensures Turned(s, Run(s, Walk(pid, [])), pid, Ready, s.txs[pid].local.res)
  {
    RunOfTwo(s, (pid, MarkNext), (pid, MarkNext));
  }

  lemma {:induction false} WalkCloses(s: Sys, pid: Pid, to: Final, todo: seq<(ResKey, Row)>)
    requires Walks(s, pid, to, todo)
    ensures Turned(s, Run(s, Walk(pid, todo)), pid, Ready, Walked(s.txs[pid].local.res, todo, to))
    decreases |todo|
  {
    if todo == [] {
      WalkEnds(s, pid, to);
      assert Walked(s.txs[pid].local.res, todo, to) == s.txs[pid].local.res;
    } else {
      var turned := Run(s, Turn(pid, todo[0].1));
      WalkTurn(s, pid, to, todo);
      TodoAfterTurn(s, turned, pid, to, todo);
      WalkedStep(s.txs[pid].local.res, todo, to);
      RunOfConcat(s, Turn(pid, todo[0].1), Walk(pid, todo[1..]));
      WalkCloses(turned, pid, to, todo[1..]);
    }
  }

  lemma {:induction false} WalksRespect(pid: Pid, todo: seq<(ResKey, Row)>, home: Home)
    ensures forall i :: 0 <= i < |Walk(pid, todo)| ==> Respects(Walk(pid, todo)[i].1, home)
    decreases |todo|
  {
    if todo != [] {
      WalksRespect(pid, todo[1..], home);
    }
  }

  /** The statements of a whole transition of an order whose rows are `rows`. */
  ghost function Transition(db: View, pid: Pid, order: OrderId, to: Final, rows: seq<ResKey>): seq<(Pid, Action)> {
    [(pid, Begin), (pid, LockOrder(order, to, rows))] + Walk(pid, Snapshot(db.res, rows)) + [(pid, Commit)]
  }

  lemma LockStep(s: Sys, pid: Pid, order: OrderId, to: Final, rows: seq<ResKey>)
    requires s.txs == map[pid := NEW_TX] && Lists(s.db, NEW_TX, order, rows)
    ensures var s', keys := Step(s, pid, LockOrder(order, to, rows)), set k | k in rows;
      && s'.txs.Keys == {pid} && s'.db == s.db
      && s'.txs[pid].pc == Walking(to, Snapshot(Restrict(s.db.res, keys), rows))
      && s'.txs[pid].resLocks == keys && s'.txs[pid].local.res == Restrict(s.db.res, keys)
  {
    var keys := set k | k in rows;
    assert Restrict(s.db.res, keys - {}) + map[] == Restrict(s.db.res, keys);
  }

  lemma BeginAndLock(db: View, pid: Pid, order: OrderId, to: Final, rows: seq<ResKey>, home: Home)
    requires RowsOk(db, home) && Lists(db, NEW_TX, order, rows)
    ensures var s := Step(Step(Sys(db, map[]), pid, Begin), pid, LockOrder(order, to, rows));
      && Walks(s, pid, to, Snapshot(db.res, rows)) && s.db == db
      && s.txs[pid].local.res == Restrict(db.res, set k | k in rows)
  {
    var start, keys := Sys(db, map[]), set k | k in rows;
    LockStep(Step(start, pid, Begin), pid, order, to, rows);
    SnapshotOfPart(db.res, rows, keys);
    var s := Step(Step(start, pid, Begin), pid, LockOrder(order, to, rows));
    SnapshotOk(s.txs[pid].local, rows);
    SnapshotRows(db, rows);
    forall i | 0 <= i < |Snapshot(db.res, rows)|
      ensures Snapshot(db.res, rows)[i].1.quantity > 0
    {
      assert RowOk(Snapshot(db.res, rows)[i].0, Snapshot(db.res, rows)[i].1, home);
    }
  }

  lemma {:induction false} SnapshotOfPart(res: map<ResKey, Row>, rows: seq<ResKey>, keys: set<ResKey>)
    requires forall k :: k in rows ==> k in keys
    ensures Snapshot(Restrict(res, keys), rows) == Snapshot(res, rows)
  {
    if rows != [] {
      SnapshotOfPart(res, rows[1..], keys);
    }
  }

  /** A walk that is done commits the rows as it left them. */
  lemma CommitAfterWalk(s: Sys, pid: Pid)
    requires s.txs.Keys == {pid} && s.txs[pid].pc == Ready
    ensures Step(s, pid, Commit).txs == map[] && Step(s, pid, Commit).db.res == s.db.res + s.txs[pid].local.res
  {
  }

  lemma TransitionRuns(db: View, pid: Pid, order: OrderId, to: Final, rows: seq<ResKey>, home: Home)
    requires RowsOk(db, home) && Lists(db, NEW_TX, order, rows)
    ensures var after := Run(Sys(db, map[]), Transition(db, pid, order, to, rows));
      after.txs == map[] && after.db.res == ClosedRows(db.res, order, to)
  {
    var start, todo := Sys(db, map[]), Snapshot(db.res, rows);
    var begin, lock := (pid, Begin), (pid, LockOrder(order, to, rows));
    BeginAndLock(db, pid, order, to, rows, home);
    RunOfTwo(start, begin, lock);
    var locked := Run(start, [begin, lock]);
    WalkCloses(locked, pid, to, todo);
    RunOfConcat(start, [begin, lock], Walk(pid, todo));
    var walked := Run(start, [begin, lock] + Walk(pid, todo));
    RunSnoc(start, [begin, lock] + Walk(pid, todo), (pid, Commit));
    CommitAfterWalk(walked, pid);
    WalkedAreClosed(db, order, rows, to);
  }

  /**
   A transition alone in the system commits: every reserved row of the order is in the target status, no
   other row has changed, and finite stock gets back what they held unless they were consumed.
   */
  lemma TransitionCommits(db: View, pid: Pid, order: OrderId, to: Final, rows: seq<ResKey>, home: Home, key: StockKey)
    requires RowsOk(db, home) && LedgerMatches(db) && Lists(db, NEW_TX, order, rows)
    ensures var after := Run(Sys(db, map[]), Transition(db, pid, order, to, rows));
      && after.txs == map[] && after.db.res == ClosedRows(db.res, order, to)
      && (Finite(db, key) ==>
            Quantity(after.db.stock, key) - Quantity(db.stock, key) == if to == Consumed then 0 else HeldBy(db.res, order, key))
  {
    var run := Transition(db, pid, order, to, rows);
    TransitionRuns(db, pid, order, to, rows, home);
    WalksRespect(pid, Snapshot(db.res, rows), home);
    if Finite(db, key) {
      StockIsConserved(db, run, home, key);
      ClosingReleases(db.res, order, to, key);
    }
  }

  lemma ListedAreInTodo(db: View, order: OrderId, rows: seq<ResKey>, k: ResKey)
    requires Lists(db, NEW_TX, order, rows) && k in db.res
    ensures InTodo(Snapshot(db.res, rows), k) <==> k.order == order
    ensures k in rows <==> k.order == order
  {
    SnapshotRows(db, rows);
    if k.order == order {
      assert (k, db.res[k]) in Snapshot(db.res, rows);
    }
  }

  lemma WalkedAreClosed(db: View, order: OrderId, rows: seq<ResKey>, to: Final)
    requires Lists(db, NEW_TX, order, rows)
    ensures var keys := set k | k in rows;
      db.res + Walked(Restrict(db.res, keys), Snapshot(db.res, rows), to) == ClosedRows(db.res, order, to)
  {
    var keys := set k | k in rows;
    var walked := Walked(Restrict(db.res, keys), Snapshot(db.res, rows), to);
    forall k | k in db.res
      ensures (db.res + walked)[k] == ClosedRows(db.res, order, to)[k]
    {
      ListedAreInTodo(db, order, rows, k);
    }
    assert (db.res + walked).Keys == db.res.Keys;
  }
}
