/**
 The `queue_entries` table and the statements that change it. A called ticket that is absent goes
 back to its line by renumbering the waiting rows in tens and taking "minus five" of the row it
 shall follow.
 */
module QueueEntries {
  import opened Options
  import opened WaitingOrder
  import opened EntryLifecycle

  /** `t'` is `t` after a guarded UPDATE of one row, which matched exactly when `ok`. */
  ghost predicate Updated(t: Table, t': Table, id: EntryId, e: Event, now: int, ok: bool) {
    && (ok <==> id in t && Advance(t[id], e, now).Some?)
    && t' == if ok then t[id := Advance(t[id], e, now).value] else t
  }

  /** Every waiting row of the queue gets ten times its distance to the end of the line, counted from one. */
  function Renumber(t: Table, q: QueueId): (t': Table)
    ensures t'.Keys == t.Keys
    ensures forall x :: x in t ==> t'[x] == t[x].(priority := t'[x].priority)
    ensures forall x :: x in t && x !in WaitingIds(t, q) ==> t'[x] == t[x]
  {
    var s := ListWaiting(t, q);
    Listed(t, q);
    map id | id in t :: if id in s then t[id].(priority := (|s| - IndexOf(s, id)) * 10) else t[id]
  }

  /** The priority that places a row right behind the first `slots` waiting rows. */
  function TargetPriority(t: Table, q: QueueId, slots: nat): nat
    requires slots >= 1
  {
    var s := ListWaiting(t, q);
    if |s| >= slots then Max(0, t[WaitingAt(t, q, slots - 1)].priority - 5) else 0
  }

  predicate CanDefer(t: Table, id: EntryId, q: QueueId, slots: int) {
    slots >= 1 && id in t && t[id].queueId == q && t[id].status == Called
  }

  /** The table after a deferral. A deferral that throws has still renumbered the line. */
  function DeferRows(t: Table, id: EntryId, q: QueueId, slots: int): (t': Table)
    ensures t'.Keys == t.Keys
  {
    var r := Renumber(t, q);
    if CanDefer(t, id, q, slots) then
      r[id := Advance(t[id], Defer(TargetPriority(r, q, slots)), 0).value]
    else r
  }

  /** The estimate of a waiting row: its ROW_NUMBER less one, times the average service time. */
  function EtaOf(t: Table, q: QueueId, avg: int, id: EntryId): int
    requires id in ListWaiting(t, q)
  {
    IndexOf(ListWaiting(t, q), id) * avg
  }

  /** The waiting rows whose stored estimate is distinct from the current one. */
  function StaleEtas(t: Table, q: QueueId, avg: int): set<EntryId> {
    set id | id in t && id in ListWaiting(t, q) && t[id].eta != Some(EtaOf(t, q, avg, id))
  }

  /** The table with every stale estimate brought up to date. */
  function EtaRows(t: Table, q: QueueId, avg: int): Table {
    map x | x in t :: if x in StaleEtas(t, q, avg) then t[x].(eta := Some(EtaOf(t, q, avg, x))) else t[x]
  }

  // ---------------------------------------------------------------- the line under each statement

  lemma ListedIndex(t: Table, q: QueueId, i: nat)
    requires i < |ListWaiting(t, q)|
    ensures WaitingAt(t, q, i) in ListWaiting(t, q) && IndexOf(ListWaiting(t, q), WaitingAt(t, q, i)) == i
  {
    Listed(t, q);
  }

  /** Renumbering gives position i of n the priority (n - i) * 10 and moves nobody in any line. */
  lemma RenumberKeepsLines(t: Table, q: QueueId, p: QueueId)
    ensures ListWaiting(Renumber(t, q), p) == ListWaiting(t, p)
    ensures forall i :: 0 <= i < |ListWaiting(t, q)| ==>
      Renumber(t, q)[WaitingAt(t, q, i)].priority == (|ListWaiting(t, q)| - i) * 10
  {
    var t', s := Renumber(t, q), ListWaiting(t, q);
    forall i | 0 <= i < |s|
      ensures t'[WaitingAt(t, q, i)].priority == (|s| - i) * 10
    {
      ListedIndex(t, q, i);
    }
    Listed(t, q);
    assert WaitingIds(t', p) == WaitingIds(t, p);
    if p == q {
      assert forall k :: 0 <= k < |s| ==> s[k] in t' by {
        forall k | 0 <= k < |s| ensures s[k] in t' { assert WaitingAt(t, q, k) == s[k]; }
      }
      forall i, j | 0 <= i < j < |s|
        ensures Ordered(t', s[i], s[j])
      {
        assert WaitingAt(t, q, i) == s[i] && WaitingAt(t, q, j) == s[j];
        assert t'[s[i]].priority > t'[s[j]].priority;
      }
      IsTheListing(t', q, s);
    } else {
      SameRowsSameListing(t, t', p);
    }
  }

  /** Between rows spaced by tens, "minus five" of the row at `slots - 1` is the place right behind it. */
  lemma MinusFiveIsNextPlace(r: Table, q: QueueId, id: EntryId, row: Row, slots: nat)
    requires slots >= 1 && row.queueId == q && row.status == Waiting && id !in WaitingIds(r, q)
    requires forall k :: 0 <= k < |ListWaiting(r, q)| ==>
      r[WaitingAt(r, q, k)].priority == (|ListWaiting(r, q)| - k) * 10
    requires row.priority == TargetPriority(r, q, slots)
    ensures ListWaiting(r[id := row], q) == InsertAt(ListWaiting(r, q), Min(slots, |ListWaiting(r, q)|), id)
  {
    var n := |ListWaiting(r, q)|;
    assert row.priority == if n >= slots then (n - slots + 1) * 10 - 5 else 0;
    EnteringRow(r, id, row, q, Min(slots, n));
  }

  /** A deferral puts the called ticket at index min(slots, n) and otherwise moves nobody in any line. */
  lemma DeferInsertsAtSlot(t: Table, id: EntryId, q: QueueId, slots: int, p: QueueId)
    ensures ListWaiting(DeferRows(t, id, q, slots), p) ==
      if CanDefer(t, id, q, slots) && p == q
      then InsertAt(ListWaiting(t, q), Min(slots, |ListWaiting(t, q)|), id)
      else ListWaiting(t, p)
  {
    var r := Renumber(t, q);
    RenumberKeepsLines(t, q, p);
    if CanDefer(t, id, q, slots) {
      var row := Advance(t[id], Defer(TargetPriority(r, q, slots)), 0).value;
      assert id !in WaitingIds(r, q);
      if p == q {
        forall k | 0 <= k < |ListWaiting(r, q)|
          ensures r[WaitingAt(r, q, k)].priority == (|ListWaiting(r, q)| - k) * 10
        {
          assert WaitingAt(r, q, k) == WaitingAt(t, q, k);
        }
        MinusFiveIsNextPlace(r, q, id, row, slots);
      } else {
        UnrelatedRow(r, id, row, p);
      }
    }
  }

  /** The last statement of a deferral meets the called row as renumbering left it. */
  lemma DeferRowsByStatement(t: Table, id: EntryId, q: QueueId, slots: nat)
    requires slots >= 1
    ensures var r := Renumber(t, q);
      && (CanDefer(t, id, q, slots) <==> id in r && r[id].queueId == q && r[id].status == Called)
      && DeferRows(t, id, q, slots) ==
           if CanDefer(t, id, q, slots) then r[id := Advance(r[id], Defer(TargetPriority(r, q, slots)), 0).value] else r
  {
    var r := Renumber(t, q);
    assert CanDefer(t, id, q, slots) ==> id !in WaitingIds(t, q) && r[id] == t[id];
    assert id in t ==> r[id] == t[id].(priority := r[id].priority);
  }

  /** Every line after a deferral. */
  lemma DeferLines(t: Table, id: EntryId, q: QueueId, slots: int)
    ensures var t', s := DeferRows(t, id, q, slots), ListWaiting(t, q);
      && ListWaiting(t', q) == (if CanDefer(t, id, q, slots) then InsertAt(s, Min(slots, |s|), id) else s)
      && forall p :: p != q ==> ListWaiting(t', p) == ListWaiting(t, p)
  {
    forall p
      ensures ListWaiting(DeferRows(t, id, q, slots), p) ==
        if CanDefer(t, id, q, slots) && p == q
        then InsertAt(ListWaiting(t, q), Min(slots, |ListWaiting(t, q)|), id) else ListWaiting(t, p)
    {
      DeferInsertsAtSlot(t, id, q, slots, p);
    }
  }

  /** A deferral changes waiting priorities of its own queue and the deferred row, and nothing else. */
  lemma DeferKeepsOtherColumns(t: Table, id: EntryId, q: QueueId, slots: int, x: EntryId)
    requires x in t
    ensures var t' := DeferRows(t, id, q, slots);
      if x == id && CanDefer(t, id, q, slots)
      then Advance(t[x], Defer(t'[x].priority), 0) == Some(t'[x])
      else t'[x] == t[x].(priority := t'[x].priority) && (t'[x] != t[x] ==> x in WaitingIds(t, q))
  {
  }

  /** Any other status change takes the row out of its line, in place. */
  lemma ChangeLeavesLine(t: Table, id: EntryId, e: Event, now: int, q: QueueId)
    requires id in t && Advance(t[id], e, now).Some? && !e.Defer?
    ensures ListWaiting(t[id := Advance(t[id], e, now).value], q) == Without(ListWaiting(t, q), id)
  {
    LeavingRow(t, id, Advance(t[id], e, now).value, q);
  }

  /**
   Where a deferral leaves everyone else: those within the first `slots` lose the called ticket
   ahead of them, the others keep it. Counting the called ticket as ahead, nobody's count rises.
   */
  lemma DeferNeverRaisesAheadCount(t: Table, id: EntryId, q: QueueId, slots: int, other: EntryId)
    requires CanDefer(t, id, q, slots) && other in ListWaiting(t, q)
    ensures var s, s' := ListWaiting(t, q), ListWaiting(DeferRows(t, id, q, slots), q);
      && other in s'
      && IndexOf(s', other) == IndexOf(s, other) + (if IndexOf(s, other) < slots then 0 else 1)
      && IndexOf(s', other) <= IndexOf(s, other) + 1
  {
    var s, t' := ListWaiting(t, q), DeferRows(t, id, q, slots);
    DeferInsertsAtSlot(t, id, q, slots, q);
    var k, i := Min(slots, |s|), IndexOf(s, other);
    var i' := if i < k then i else i + 1;
    InsertShifts(s, k, id, i);
    ListedIndex(t', q, i');
    assert WaitingAt(t', q, i') == other;
  }

  lemma InsertShifts(s: seq<EntryId>, k: nat, x: EntryId, i: nat)
    requires k <= |s| && i < |s|
    ensures |InsertAt(s, k, x)| == |s| + 1 && InsertAt(s, k, x)[if i < k then i else i + 1] == s[i]
  {
  }

  /**
   A join with the default priority goes to the tail exactly when every waiting row has a positive
   priority or a lower ticket number.
   */
  lemma JoinAppendsExactlyWhenLast(t: Table, id: EntryId, row: Row)
    requires id !in t && row.status == Waiting && row.priority == 0
    requires forall x :: x in WaitingIds(t, row.queueId) ==> t[x].priority > 0 || t[x].ticket != row.ticket
    ensures ListWaiting(t[id := row], row.queueId) == ListWaiting(t, row.queueId) + [id] <==>
      forall x :: x in WaitingIds(t, row.queueId) ==> t[x].priority > 0 || t[x].ticket < row.ticket
  {
    var q, s, t' := row.queueId, ListWaiting(t, row.queueId), t[id := row];
    if forall x :: x in WaitingIds(t, q) ==> t[x].priority > 0 || t[x].ticket < row.ticket {
      EnteringRow(t, id, row, q, |s|);
      assert InsertAt(s, |s|, id) == s + [id];
    }
    if ListWaiting(t', q) == s + [id] {
      Listed(t', q);
      forall x | x in WaitingIds(t, q)
        ensures t[x].priority > 0 || t[x].ticket < row.ticket
      {
        Listed(t, q);
        var i := IndexOf(s, x);
        assert (s + [id])[i] == x && (s + [id])[|s|] == id;
        assert Ordered(t', x, id);
      }
    }
  }

  /** A row carried over from an earlier date lets today's first ticket overtake it. */
  lemma CarriedOverRowIsOvertaken(left: Row, joined: Row)
    requires left.status == Waiting && left.priority == 0 && left.ticket == 7
    requires joined.status == Waiting && joined.priority == 0 && joined.ticket == 1
    requires left.queueId == joined.queueId && left.businessDate < joined.businessDate
    ensures ListWaiting(map[0 := left], left.queueId) == [0]
    ensures ListWaiting(map[0 := left][1 := joined], left.queueId) == [1, 0]
  {
    var q, t := left.queueId, map[0 := left];
    assert WaitingIds(t, q) == {0};
    IsTheListing(t, q, [0]);
    assert WaitingAt(t, q, 0) == 0;
    EnteringRow(t, 1, joined, q, 0);
  }

  // ---------------------------------------------------------------- the repository

  class Repository {
    var rows: Table

    constructor (rows: Table)
      ensures this.rows == rows
    {
      this.rows := rows;
    }

    method ListWaiting(q: QueueId, limit: Option<nat>) returns (ids: seq<EntryId>)
      ensures var all := WaitingOrder.ListWaiting(rows, q);
        ids == if limit.Some? && limit.value < |all| then all[..limit.value] else all
    {
      ids := WaitingOrder.ListWaiting(rows, q);
      if limit.Some? && limit.value < |ids| {
        ids := ids[..limit.value];
      }
    }

    /** Inserts a row; the key and the daily ticket constraint reject a second one. */
    method Create(id: EntryId, row: Row) returns (ok: bool)
      requires Fresh(row)
      modifies this
      ensures ok <==> id !in old(rows) && forall x :: x in old(rows) ==> !SameTicket(old(rows)[x], row)
      ensures rows == if ok then old(rows)[id := row] else old(rows)
    {
      ok := id !in rows && forall x :: x in rows ==> !SameTicket(rows[x], row);
      if ok {
        rows := rows[id := row];
      }
    }

    method MarkCalled(id: EntryId, now: int) returns (ok: bool)
      modifies this
      ensures Updated(old(rows), rows, id, Call, now, ok)
      ensures forall q :: ok ==> WaitingOrder.ListWaiting(rows, q) == Without(WaitingOrder.ListWaiting(old(rows), q), id)
    {
      ok := id in rows && rows[id].status == Waiting;
      if ok {
        forall q { ChangeLeavesLine(rows, id, Call, now, q); }
        rows := rows[id := rows[id].(status := Called, calledAt := Some(now))];
      }
    }

    method MarkServing(id: EntryId, now: int) returns (ok: bool)
      modifies this
      ensures Updated(old(rows), rows, id, Serve, now, ok)
    {
      ok := id in rows && rows[id].status == Called;
      if ok {
        rows := rows[id := rows[id].(status := Serving, servingAt := Some(now))];
      }
    }

    method MarkServed(id: EntryId, now: int) returns (ok: bool)
      modifies this
      ensures Updated(old(rows), rows, id, Finish, now, ok)
    {
      ok := id in rows && rows[id].status == Serving;
      if ok {
        rows := rows[id := rows[id].(status := Served, servedAt := Some(now))];
      }
    }

    method MarkSkipped(id: EntryId, now: int) returns (ok: bool)
      modifies this
      ensures Updated(old(rows), rows, id, Skip, now, ok)
    {
      ok := id in rows && rows[id].status == Called;
      if ok {
        rows := rows[id := rows[id].(status := Skipped, skippedAt := Some(now))];
      }
    }

    method MarkCancelled(id: EntryId, now: int) returns (ok: bool)
      modifies this
      ensures Updated(old(rows), rows, id, Cancel, now, ok)
      ensures forall q :: ok ==> WaitingOrder.ListWaiting(rows, q) == Without(WaitingOrder.ListWaiting(old(rows), q), id)
    {
      ok := id in rows && rows[id].status in {Waiting, Called};
      if ok {
        forall q { ChangeLeavesLine(rows, id, Cancel, now, q); }
        rows := rows[id := rows[id].(status := Cancelled, cancelledAt := Some(now))];
      }
    }

    method MarkNoShow(id: EntryId, now: int, incrementAbsence: bool) returns (ok: bool)
      modifies this
      ensures Updated(old(rows), rows, id, Miss(incrementAbsence), now, ok)
      ensures ok ==> rows[id].absences == old(rows)[id].absences + if incrementAbsence then 1 else 0
    {
      ok := id in rows && rows[id].status == Called;
      if ok {
        var more := if incrementAbsence then 1 else 0;
        rows := rows[id := rows[id].(status := NoShow, noShowAt := Some(now), absences := rows[id].absences + more)];
      }
    }

    /** Brings the estimates of a queue up to date and returns the rows it changed. */
    method BulkUpdateEta(q: QueueId, avg: int) returns (changed: set<EntryId>)
      modifies this
      ensures changed == StaleEtas(old(rows), q, avg)
      ensures rows == EtaRows(old(rows), q, avg)
    {
      var ranked := WaitingOrder.ListWaiting(rows, q);
      changed := set x | x in rows && x in ranked && rows[x].eta != Some(IndexOf(ranked, x) * avg);
      rows := map x | x in rows ::
        if x in changed then rows[x].(eta := Some(IndexOf(ranked, x) * avg)) else rows[x];
    }

    /** The first statement of a deferral: ROW_NUMBER over the waiting rows turned into spaced priorities. */
    method RenumberWaiting(q: QueueId)
      modifies this
      ensures rows == Renumber(old(rows), q)
    {
      var ranked := WaitingOrder.ListWaiting(rows, q);
      rows := map x | x in rows ::
        if x in ranked then rows[x].(priority := (|ranked| - IndexOf(ranked, x)) * 10) else rows[x];
    }

    /** The priority that the next statement of a deferral writes. */
    method SlotPriority(q: QueueId, slots: nat) returns (target: nat)
      requires slots >= 1
      ensures target == TargetPriority(rows, q, slots)
    {
      var waiting := ListWaiting(q, None);
      target := 0;
      if |waiting| >= slots {
        assert waiting[slots - 1] == WaitingAt(rows, q, slots - 1);
        target := Max(0, rows[waiting[slots - 1]].priority - 5);
      }
    }

    /** The last statement of a deferral: the guarded UPDATE of the called row. */
    method WriteDeferral(id: EntryId, q: QueueId, target: nat) returns (ok: bool)
      modifies this
      ensures ok <==> id in old(rows) && old(rows)[id].queueId == q && old(rows)[id].status == Called
      ensures rows == if ok then old(rows)[id := Advance(old(rows)[id], Defer(target), 0).value] else old(rows)
    {
      ok := id in rows && rows[id].queueId == q && rows[id].status == Called;
      if ok {
        rows := rows[id := rows[id].(
          status := Waiting, priority := target, calledAt := None, absences := rows[id].absences + 1)];
      }
    }

    /**
     Returns a called ticket to waiting `slots` places later. The failures are the missing element of
     `waiting[slots - 1]` for slots below one and the UPDATE that matches no called row of the queue.
     */
    method DeferCalledBySlots(id: EntryId, q: QueueId, slots: int) returns (ok: bool)
      modifies this
      ensures ok <==> CanDefer(old(rows), id, q, slots)
      ensures rows == DeferRows(old(rows), id, q, slots)
      ensures var s := WaitingOrder.ListWaiting(old(rows), q);
        WaitingOrder.ListWaiting(rows, q) == if ok then InsertAt(s, Min(slots, |s|), id) else s
      ensures forall p :: p != q ==> WaitingOrder.ListWaiting(rows, p) == WaitingOrder.ListWaiting(old(rows), p)
    {
      ghost var before := rows;
      RenumberWaiting(q);
      ok := slots >= 1;
      if ok {
        var target := SlotPriority(q, slots);
        ok := WriteDeferral(id, q, target);
        DeferRowsByStatement(before, id, q, slots);
      }
      DeferLines(before, id, q, slots);
    }
  }

  predicate SameTicket(a: Row, b: Row) {
    a.queueId == b.queueId && a.businessDate == b.businessDate && a.ticket == b.ticket
  }
}
