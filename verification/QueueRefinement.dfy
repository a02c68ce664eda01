/**
 Over a run within one business date, the priority-encoded table behaves as a plain line per queue:
 joins append, calls pop or remove, cancellations remove, deferrals insert.
 */
module QueueRefinement {
  import opened Options
  import opened WaitingOrder
  import opened EntryLifecycle
  import opened TicketCounter
  import opened QueueEntries

  datatype Db = Db(rows: Table, counters: map<QueueId, Counter>)

  type PlainEvent = e: Event | !e.Defer? witness Call

  datatype Op =
    | Join(id: EntryId, q: QueueId, hasLineUser: bool, now: int)
    | CallNext(q: QueueId, now: int)
    | Change(id: EntryId, event: PlainEvent, now: int)
    | Absent(id: EntryId, q: QueueId, slots: int)
    | CounterReset(active: set<QueueId>)

  function NewRow(q: QueueId, ticket: nat, today: int, hasLineUser: bool, now: int): (row: Row)
    ensures Fresh(row)
  {
    Row(q, ticket, today, hasLineUser, Waiting, 0, 0, None, now, None, None, None, None, None, None)
  }

  /** A statement or transaction that throws leaves the database as it was. */
  function Apply(db: Db, op: Op, today: int): Db {
    match op
    case Join(id, q, hasLineUser, now) =>
      if q !in db.counters || id in db.rows then db
      else
        var c := Increment(db.counters[q], today);
        var row := NewRow(q, c.value, today, hasLineUser, now);
        if exists x :: x in db.rows && SameTicket(db.rows[x], row) then db
        else Db(db.rows[id := row], db.counters[q := c])
    case CallNext(q, now) =>
      if ListWaiting(db.rows, q) == [] then db
      else db.(rows := ChangeRow(db.rows, WaitingAt(db.rows, q, 0), Call, now))
    case Change(id, e, now) =>
      if id in db.rows then db.(rows := ChangeRow(db.rows, id, e, now)) else db
    case Absent(id, q, slots) =>
      if CanDefer(db.rows, id, q, slots) then db.(rows := DeferRows(db.rows, id, q, slots)) else db
    case CounterReset(active) =>
      db.(counters := map q | q in db.counters ::
        if q in active then ResetTo(db.counters[q], today) else db.counters[q])
  }

  function ChangeRow(t: Table, id: EntryId, e: Event, now: int): Table
    requires id in t
  {
    match Advance(t[id], e, now)
    case Some(row) => t[id := row]
    case None => t
  }

  function Run(db: Db, ops: seq<Op>, today: int): Db {
    if ops == [] then db else Apply(Run(db, ops[..|ops| - 1], today), ops[|ops| - 1], today)
  }

  // ---------------------------------------------------------------- the plain line

  /** One queue as a plain sequence of waiting tickets, with the tickets it has called. */
  datatype Line = Line(waiting: seq<EntryId>, called: set<EntryId>, taken: set<EntryId>)

  function ApplyLine(l: Line, op: Op, q: QueueId, known: set<QueueId>): Line {
    match op
    case Join(id, p, _, _) =>
      if p !in known || id in l.taken then l
      else l.(taken := l.taken + {id}, waiting := if p == q then l.waiting + [id] else l.waiting)
    case CallNext(p, _) =>
      if p != q || l.waiting == [] then l
      else l.(waiting := l.waiting[1..], called := l.called + {l.waiting[0]})
    case Change(id, e, _) =>
      if e.Call? then
        if id in l.waiting then l.(waiting := Without(l.waiting, id), called := l.called + {id}) else l
      else if e.Cancel? then l.(waiting := Without(l.waiting, id), called := l.called - {id})
      else if e.Finish? then l
      else l.(called := l.called - {id})
    case Absent(id, p, slots) =>
      if p == q && slots >= 1 && id in l.called then
        l.(waiting := InsertAt(l.waiting, Min(slots, |l.waiting|), id), called := l.called - {id})
      else l
    case CounterReset(_) => l
  }

  function RunLine(l: Line, ops: seq<Op>, q: QueueId, known: set<QueueId>): Line {
    if ops == [] then l else ApplyLine(RunLine(l, ops[..|ops| - 1], q, known), ops[|ops| - 1], q, known)
  }

  function CalledIds(t: Table, q: QueueId): set<EntryId> {
    set id | id in t && t[id].queueId == q && t[id].status == Called
  }

  /** The line a database stands for. */
  function LineOf(db: Db, q: QueueId): Line {
    Line(ListWaiting(db.rows, q), CalledIds(db.rows, q), db.rows.Keys)
  }

  // ---------------------------------------------------------------- the invariant

  /** Whoever waits or is called joined today; today's tickets are distinct and the counter has passed them. */
  ghost predicate Inv(db: Db, today: int) {
    OpenToday(db.rows, today) && Counted(db, today) && TicketsDistinct(db.rows)
  }

  ghost predicate OpenToday(t: Table, today: int) {
    forall id :: id in t && t[id].status in {Waiting, Called} ==> t[id].businessDate == today
  }

  ghost predicate Counted(db: Db, today: int) {
    forall id :: id in db.rows && db.rows[id].businessDate == today ==>
      && db.rows[id].queueId in db.counters
      && db.counters[db.rows[id].queueId].date == Some(today)
      && db.rows[id].ticket <= db.counters[db.rows[id].queueId].value
  }

  ghost predicate TicketsDistinct(t: Table) {
    forall x, y :: x in t && y in t && x != y ==> !SameTicket(t[x], t[y])
  }

  /** A join in a good state takes a ticket nobody has, so it cannot hit the ticket constraint. */
  lemma JoinSucceeds(db: Db, op: Op, today: int)
    requires Inv(db, today) && op.Join? && op.q in db.counters && op.id !in db.rows
    ensures var c := Increment(db.counters[op.q], today);
      Apply(db, op, today) ==
        Db(db.rows[op.id := NewRow(op.q, c.value, today, op.hasLineUser, op.now)], db.counters[op.q := c])
  {
  }

  lemma DeferKeepsTicket(t: Table, id: EntryId, q: QueueId, slots: int, x: EntryId)
    requires CanDefer(t, id, q, slots) && x in t
    ensures var row, row' := t[x], DeferRows(t, id, q, slots)[x];
      && row'.queueId == row.queueId && row'.ticket == row.ticket && row'.businessDate == row.businessDate
      && row'.status == if x == id then Waiting else row.status
  {
    DeferKeepsOtherColumns(t, id, q, slots, x);
  }

  lemma DeferKeepsTickets(t: Table, id: EntryId, q: QueueId, slots: int)
    requires CanDefer(t, id, q, slots)
    ensures var t' := DeferRows(t, id, q, slots);
      forall x :: x in t ==>
        && t'[x].queueId == t[x].queueId && t'[x].ticket == t[x].ticket && t'[x].businessDate == t[x].businessDate
        && t'[x].status == if x == id then Waiting else t[x].status
  {
    var t' := DeferRows(t, id, q, slots);
    forall x | x in t
      ensures && t'[x].queueId == t[x].queueId && t'[x].ticket == t[x].ticket && t'[x].businessDate == t[x].businessDate
              && t'[x].status == if x == id then Waiting else t[x].status
    {
      DeferKeepsTicket(t, id, q, slots, x);
    }
  }

  lemma JoinKeepsInv(db: Db, op: Op, today: int)
    requires Inv(db, today) && op.Join?
    ensures Inv(Apply(db, op, today), today) && Apply(db, op, today).counters.Keys == db.counters.Keys
  {
    if op.q in db.counters && op.id !in db.rows { JoinSucceeds(db, op, today); }
  }

  lemma ChangeKeepsInv(db: Db, id: EntryId, e: PlainEvent, now: int, today: int)
    requires Inv(db, today) && id in db.rows
    ensures Inv(db.(rows := ChangeRow(db.rows, id, e, now)), today)
  {
    var t, t' := db.rows, ChangeRow(db.rows, id, e, now);
    assert t'[id].queueId == t[id].queueId && t'[id].ticket == t[id].ticket;
    assert t'[id].businessDate == t[id].businessDate;
    assert t'[id].status in {Waiting, Called} ==> t[id].status in {Waiting, Called};
    forall x, y | x in t' && y in t' && x != y
      ensures !SameTicket(t'[x], t'[y])
    {
      assert !SameTicket(t[x], t[y]);
    }
  }

  lemma AbsentKeepsInv(db: Db, id: EntryId, q: QueueId, slots: int, today: int)
    requires Inv(db, today) && CanDefer(db.rows, id, q, slots)
    ensures Inv(db.(rows := DeferRows(db.rows, id, q, slots)), today)
  {
    DeferKeepsTickets(db.rows, id, q, slots);
    var t, t' := db.rows, DeferRows(db.rows, id, q, slots);
    forall x, y | x in t' && y in t' && x != y
      ensures !SameTicket(t'[x], t'[y])
    {
      assert !SameTicket(t[x], t[y]);
    }
  }

  /** A reset moves exactly the active queues' counters to the date, and no ticket. */
  lemma ResetMovesCounters(db: Db, active: set<QueueId>, today: int, q: QueueId)
    requires q in db.counters
    ensures var after := Apply(db, CounterReset(active), today);
      && after.rows == db.rows && q in after.counters
      && (q in active ==> after.counters[q].date == Some(today))
      && (q in active && db.counters[q].date != Some(today) ==> after.counters[q].value == 0)
      && (q !in active || db.counters[q].date == Some(today) ==> after.counters[q] == db.counters[q])
  {
  }

  lemma ResetKeepsInv(db: Db, op: Op, today: int)
    requires Inv(db, today) && op.CounterReset?
    ensures Inv(Apply(db, op, today), today) && Apply(db, op, today).counters.Keys == db.counters.Keys
  {
    var db' := Apply(db, op, today);
    forall q | q in db.counters
      ensures q in db'.counters && (db.counters[q].date == Some(today) ==> db'.counters[q] == db.counters[q])
    {
      ResetMovesCounters(db, op.active, today, q);
    }
    CountedWithCounters(db, db'.counters, today);
    assert db' == Db(db.rows, db'.counters);
  }

  /** Counters that are already on the date may not change, any others may. */
  lemma CountedWithCounters(db: Db, counters: map<QueueId, Counter>, today: int)
    requires Counted(db, today) && counters.Keys == db.counters.Keys
    requires forall q :: q in db.counters && db.counters[q].date == Some(today) ==> counters[q] == db.counters[q]
    ensures Counted(Db(db.rows, counters), today)
  {
  }

  lemma CallNextKeepsInv(db: Db, op: Op, today: int)
    requires Inv(db, today) && op.CallNext?
    ensures Inv(Apply(db, op, today), today) && Apply(db, op, today).counters == db.counters
  {
    if ListWaiting(db.rows, op.q) != [] {
      ChangeKeepsInv(db, WaitingAt(db.rows, op.q, 0), Call, op.now, today);
    }
  }

  lemma ApplyKeepsInv(db: Db, op: Op, today: int)
    requires Inv(db, today)
    ensures Inv(Apply(db, op, today), today)
    ensures Apply(db, op, today).counters.Keys == db.counters.Keys
  {
    match op
    case Join(_, _, _, _) => JoinKeepsInv(db, op, today);
    case CallNext(_, _) => CallNextKeepsInv(db, op, today);
    case Change(id, e, now) =>
      if id in db.rows { ChangeKeepsInv(db, id, e, now, today); }
    case Absent(id, q, slots) =>
      if CanDefer(db.rows, id, q, slots) { AbsentKeepsInv(db, id, q, slots, today); }
    case CounterReset(_) => ResetKeepsInv(db, op, today);
  }

  // ---------------------------------------------------------------- refinement, step by step

  lemma CalledAfter(t: Table, id: EntryId, row: Row, q: QueueId)
    requires id in t ==> row.queueId == t[id].queueId
    ensures CalledIds(t[id := row], q) ==
      if row.queueId == q && row.status == Called then CalledIds(t, q) + {id} else CalledIds(t, q) - {id}
  {
  }

  lemma JoinRefines(db: Db, op: Op, today: int, q: QueueId)
    requires Inv(db, today) && op.Join?
    ensures LineOf(Apply(db, op, today), q) == ApplyLine(LineOf(db, q), op, q, db.counters.Keys)
  {
    if op.q in db.counters && op.id !in db.rows {
      JoinSucceeds(db, op, today);
      var row := NewRow(op.q, Increment(db.counters[op.q], today).value, today, op.hasLineUser, op.now);
      JoinedLine(db, op.id, row, today, q);
      JoinCallsNobody(db.rows, op.id, row, q);
    }
  }

  lemma JoinCallsNobody(t: Table, id: EntryId, row: Row, q: QueueId)
    requires id !in t && row.status == Waiting
    ensures CalledIds(t[id := row], q) == CalledIds(t, q) && t[id := row].Keys == t.Keys + {id}
  {
    CalledAfter(t, id, row, q);
    assert CalledIds(t, q) - {id} == CalledIds(t, q);
  }

  lemma JoinedLine(db: Db, id: EntryId, row: Row, today: int, q: QueueId)
    requires Inv(db, today) && id !in db.rows && Fresh(row) && row.priority == 0
    requires row.queueId in db.counters && row.ticket == Increment(db.counters[row.queueId], today).value
    ensures ListWaiting(db.rows[id := row], q) ==
      if q == row.queueId then ListWaiting(db.rows, q) + [id] else ListWaiting(db.rows, q)
  {
    if row.queueId == q {
      forall x | x in WaitingIds(db.rows, q)
        ensures db.rows[x].ticket < row.ticket
      {
        assert db.rows[x].businessDate == today;
      }
      JoinAppendsExactlyWhenLast(db.rows, id, row);
    } else {
      UnrelatedRow(db.rows, id, row, q);
    }
  }

  /** Who waits and who is called after a status change, whether or not its guard matched. */
  lemma ChangedLine(t: Table, id: EntryId, e: PlainEvent, now: int, q: QueueId)
    requires id in t
    ensures var t', s, c := ChangeRow(t, id, e, now), ListWaiting(t, q), CalledIds(t, q);
      var matched := Advance(t[id], e, now).Some?;
      && t'.Keys == t.Keys
      && ListWaiting(t', q) == (if matched then Without(s, id) else s)
      && CalledIds(t', q) == (if !matched then c else if e.Call? && t[id].queueId == q then c + {id} else c - {id})
  {
    if Advance(t[id], e, now).Some? {
      ChangeLeavesLine(t, id, e, now, q);
      CalledAfter(t, id, Advance(t[id], e, now).value, q);
    }
  }

  /** Where a row stands in the line of `q`. */
  lemma StandsInLine(t: Table, id: EntryId, q: QueueId)
    requires id in t
    ensures id in ListWaiting(t, q) <==> t[id].queueId == q && t[id].status == Waiting
    ensures id in CalledIds(t, q) <==> t[id].queueId == q && t[id].status == Called
  {
    Listed(t, q);
  }

  /** The plain line after a status change, given where the ticket stands in it. */
  lemma LineAfterChange(l: Line, id: EntryId, e: PlainEvent, now: int, q: QueueId, known: set<QueueId>, row: Row)
    requires id in l.waiting <==> row.queueId == q && row.status == Waiting
    requires id in l.called <==> row.queueId == q && row.status == Called
    ensures var matched := Advance(row, e, now).Some?;
      ApplyLine(l, Change(id, e, now), q, known) == l.(
        waiting := if matched then Without(l.waiting, id) else l.waiting,
        called := if !matched then l.called else if e.Call? && row.queueId == q then l.called + {id} else l.called - {id})
  {
    assert id !in l.called ==> l.called - {id} == l.called;
    assert id !in l.waiting ==> Without(l.waiting, id) == l.waiting;
  }

  lemma ChangeRefines(db: Db, id: EntryId, e: PlainEvent, now: int, q: QueueId)
    requires id in db.rows
    ensures LineOf(db.(rows := ChangeRow(db.rows, id, e, now)), q) ==
      ApplyLine(LineOf(db, q), Change(id, e, now), q, db.counters.Keys)
  {
    StandsInLine(db.rows, id, q);
    LineAfterChange(LineOf(db, q), id, e, now, q, db.counters.Keys, db.rows[id]);
    ChangedLine(db.rows, id, e, now, q);
  }

  lemma CallNextRefines(db: Db, op: Op, today: int, q: QueueId)
    requires op.CallNext?
    ensures LineOf(Apply(db, op, today), q) == ApplyLine(LineOf(db, q), op, q, db.counters.Keys)
  {
    var p, now := op.q, op.now;
    var s := ListWaiting(db.rows, p);
    if s != [] {
      var head := WaitingAt(db.rows, p, 0);
      ChangeRefines(db, head, Call, now, q);
      Listed(db.rows, q);
      if p == q {
        assert Without(s, head) == s[1..];
      }
    }
  }

  lemma AbsentRefines(db: Db, op: Op, today: int, q: QueueId)
    requires op.Absent?
    ensures LineOf(Apply(db, op, today), q) == ApplyLine(LineOf(db, q), op, q, db.counters.Keys)
  {
    var id, p, slots := op.id, op.q, op.slots;
    var t := db.rows;
    assert id in CalledIds(t, q) <==> id in t && t[id].queueId == q && t[id].status == Called;
    if CanDefer(t, id, p, slots) {
      DeferredLine(t, id, p, slots, q);
    }
  }

  lemma DeferredLine(t: Table, id: EntryId, p: QueueId, slots: int, q: QueueId)
    requires CanDefer(t, id, p, slots)
    ensures var t', s := DeferRows(t, id, p, slots), ListWaiting(t, q);
      && t'.Keys == t.Keys
      && ListWaiting(t', q) == (if p == q then InsertAt(s, Min(slots, |s|), id) else s)
      && CalledIds(t', q) == (if p == q then CalledIds(t, q) - {id} else CalledIds(t, q))
  {
    DeferInsertsAtSlot(t, id, p, slots, q);
    CalledAfterDefer(t, id, p, slots, q);
    assert p != q ==> CalledIds(t, q) - {id} == CalledIds(t, q);
  }

  lemma CalledAfterDefer(t: Table, id: EntryId, p: QueueId, slots: int, q: QueueId)
    requires CanDefer(t, id, p, slots)
    ensures CalledIds(DeferRows(t, id, p, slots), q) == CalledIds(t, q) - {id}
  {
    DeferKeepsTickets(t, id, p, slots);
  }

  lemma MissingRowRefines(db: Db, op: Op, today: int, q: QueueId)
    requires op.Change? && op.id !in db.rows
    ensures LineOf(Apply(db, op, today), q) == ApplyLine(LineOf(db, q), op, q, db.counters.Keys)
  {
    assert op.id !in ListWaiting(db.rows, q) by { Listed(db.rows, q); }
    assert CalledIds(db.rows, q) - {op.id} == CalledIds(db.rows, q);
  }

  lemma ApplyRefines(db: Db, op: Op, today: int, q: QueueId)
    requires Inv(db, today)
    ensures LineOf(Apply(db, op, today), q) == ApplyLine(LineOf(db, q), op, q, db.counters.Keys)
  {
    match op
    case Join(_, _, _, _) => JoinRefines(db, op, today, q);
    case CallNext(_, _) => CallNextRefines(db, op, today, q);
    case Change(id, e, now) =>
      if id in db.rows { ChangeRefines(db, id, e, now, q); } else { MissingRowRefines(db, op, today, q); }
    case Absent(_, _, _) => AbsentRefines(db, op, today, q);
    case CounterReset(active) =>
      assert Apply(db, op, today).rows == db.rows;
  }

  /** The main result: from any good state, every run of every queue's operations refines the plain line. */
  lemma {:induction false} RunRefinesLine(db: Db, ops: seq<Op>, today: int, q: QueueId)
    requires Inv(db, today)
    ensures LineOf(Run(db, ops, today), q) == RunLine(LineOf(db, q), ops, q, db.counters.Keys)
    ensures Inv(Run(db, ops, today), today)
    ensures Run(db, ops, today).counters.Keys == db.counters.Keys
  {
    if ops != [] {
      var before, op := ops[..|ops| - 1], ops[|ops| - 1];
      RunRefinesLine(db, before, today, q);
      ApplyRefines(Run(db, before, today), op, today, q);
      ApplyKeepsInv(Run(db, before, today), op, today);
    }
  }

  /** In every state a run reaches, no two waiting rows share a sort key, so SQL's order is the only one. */
  lemma KeysStayDistinct(db: Db, ops: seq<Op>, today: int, q: QueueId, x: EntryId, y: EntryId)
    requires Inv(db, today)
    requires x in WaitingIds(Run(db, ops, today).rows, q) && y in WaitingIds(Run(db, ops, today).rows, q) && x != y
    ensures var t := Run(db, ops, today).rows; Before(t[x], t[y]) || Before(t[y], t[x])
  {
    RunRefinesLine(db, ops, today, q);
    var t := Run(db, ops, today).rows;
    assert !SameTicket(t[x], t[y]);
  }
}
