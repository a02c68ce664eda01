/**
 The life of one ticket: every status change is a guarded UPDATE of its row, and a guard that
 does not match leaves the row alone and makes the caller throw.
 */
module EntryLifecycle {
  import opened Options
  import opened WaitingOrder

  datatype Event =
    | Call
    | Serve
    | Finish
    | Skip
    | Cancel
    | Miss(countsAsAbsence: bool)
    | Defer(priority: nat)

  /** The row after the UPDATE for `e`, or None when its WHERE clause does not match. */
  function Advance(row: Row, e: Event, now: int): Option<Row> {
    match e
    case Call =>
      if row.status == Waiting then Some(row.(status := Called, calledAt := Some(now))) else None
    case Serve =>
      if row.status == Called then Some(row.(status := Serving, servingAt := Some(now))) else None
    case Finish =>
      if row.status == Serving then Some(row.(status := Served, servedAt := Some(now))) else None
    case Skip =>
      if row.status == Called then Some(row.(status := Skipped, skippedAt := Some(now))) else None
    case Cancel =>
      if row.status == Waiting || row.status == Called then Some(row.(status := Cancelled, cancelledAt := Some(now))) else None
    case Miss(counts) =>
      if row.status == Called then
        Some(row.(status := NoShow, noShowAt := Some(now), absences := row.absences + if counts then 1 else 0))
      else None
    case Defer(p) =>
      if row.status == Called then
        Some(row.(status := Waiting, priority := p, calledAt := None, absences := row.absences + 1))
      else None
  }

  predicate Terminal(s: Status) {
    s == Served || s == Skipped || s == Cancelled || s == NoShow
  }

  /** A row as `create` inserts it. */
  predicate Fresh(row: Row) {
    && row.status == Waiting && row.absences == 0
    && row.calledAt == None && row.servingAt == None && row.servedAt == None
    && row.skippedAt == None && row.cancelledAt == None && row.noShowAt == None
  }

  datatype Attempt = Attempt(event: Event, now: int)
  datatype Life = Life(row: Row, changes: nat)

  /** The row after a run of attempts, with the number of UPDATEs that matched. */
  function Live(row: Row, run: seq<Attempt>): Life {
    if run == [] then Life(row, 0)
    else
      var before := Live(row, run[..|run| - 1]);
      var last := run[|run| - 1];
      match Advance(before.row, last.event, last.now)
      case Some(after) => Life(after, before.changes + 1)
      case None => before
  }

  /** The number of status changes is fixed by where the ticket is and by its recorded absences. */
  ghost predicate ChangesFit(l: Life) {
    var k := l.row.absences;
    match l.row.status
    case Waiting => l.changes == 2 * k
    case Called => l.changes == 2 * k + 1
    case Serving => l.changes == 2 * k + 2
    case Served => l.changes == 2 * k + 3
    case Skipped => l.changes == 2 * k + 2
    case Cancelled => l.changes == 2 * k + 1 || l.changes == 2 * k + 2
    case NoShow => l.changes == 2 * k || l.changes == 2 * k + 2
  }

  lemma {:induction false} ChangesFollowAbsences(row: Row, run: seq<Attempt>)
    requires Fresh(row)
    ensures ChangesFit(Live(row, run))
  {
    if run != [] {
      ChangesFollowAbsences(row, run[..|run| - 1]);
    }
  }

  /** The status changes a ticket can make, each by one event. */
  predicate Arrow(from: Status, to: Status) {
    match from
    case Waiting => to in {Called, Cancelled}
    case Called => to in {Serving, Skipped, Cancelled, NoShow, Waiting}
    case Serving => to == Served
    case _ => false
  }

  function EventTo(to: Status): Event {
    match to
    case Waiting => Defer(0)
    case Called => Call
    case Serving => Serve
    case Served => Finish
    case Skipped => Skip
    case Cancelled => Cancel
    case NoShow => Miss(true)
  }

  /** The guarded updates make exactly the changes of the diagram: none beyond it, and each one of it. */
  lemma ChangesAreTheArrows(row: Row, to: Status, e: Event, now: int)
    ensures Advance(row, e, now).Some? ==> Arrow(row.status, Advance(row, e, now).value.status)
    ensures Arrow(row.status, to) <==>
      Advance(row, EventTo(to), now).Some? && Advance(row, EventTo(to), now).value.status == to
  {
  }

  /** Each change stamps its own column with its own time, a deferral clears the call, and nothing else changes. */
  lemma ChangesStampTheirTime(row: Row, e: Event, now: int)
    requires Advance(row, e, now).Some?
    ensures var r := Advance(row, e, now).value;
      && r.calledAt == (if r.status == Called then Some(now) else if r.status == Waiting then None else row.calledAt)
      && r.servingAt == (if r.status == Serving then Some(now) else row.servingAt)
      && r.servedAt == (if r.status == Served then Some(now) else row.servedAt)
      && r.skippedAt == (if r.status == Skipped then Some(now) else row.skippedAt)
      && r.cancelledAt == (if r.status == Cancelled then Some(now) else row.cancelledAt)
      && r.noShowAt == (if r.status == NoShow then Some(now) else row.noShowAt)
      && r.priority == (if e.Defer? then e.priority else row.priority)
      && r.absences - row.absences == (if e.Defer? || e == Miss(true) then 1 else 0)
      && r.queueId == row.queueId && r.ticket == row.ticket && r.businessDate == row.businessDate
      && r.hasLineUser == row.hasLineUser && r.eta == row.eta && r.createdAt == row.createdAt
  {
  }

  lemma LiveSnoc(row: Row, run: seq<Attempt>, last: Attempt)
    ensures Live(row, run + [last]) ==
      match Advance(Live(row, run).row, last.event, last.now)
      case Some(after) => Life(after, Live(row, run).changes + 1)
      case None => Live(row, run)
  {
    assert (run + [last])[..|run|] == run;
  }

  /** A no-show is one more absence exactly when it is to be counted; a deferral always is one. */
  lemma AbsencesAreCounted(row: Row, run: seq<Attempt>, counts: bool, priority: nat, now: int)
    requires Fresh(row) && Live(row, run).row.status == Called
    ensures var before, missed := Live(row, run).row, Live(row, run + [Attempt(Miss(counts), now)]);
      && missed.row.status == NoShow && missed.row.absences == before.absences + (if counts then 1 else 0)
      && missed.changes == 2 * missed.row.absences + if counts then 0 else 2
    ensures var before, deferred := Live(row, run).row, Live(row, run + [Attempt(Defer(priority), now)]);
      && deferred.row.status == Waiting && deferred.row.absences == before.absences + 1
      && deferred.changes == 2 * deferred.row.absences
  {
    ChangesFollowAbsences(row, run);
    LiveSnoc(row, run, Attempt(Miss(counts), now));
    LiveSnoc(row, run, Attempt(Defer(priority), now));
  }

  /** A cancelled ticket has made 2k + 1 changes if it was cancelled while waiting, 2k + 2 if while called. */
  lemma CancellationsByStage(row: Row, run: seq<Attempt>, now: int)
    requires Fresh(row) && Live(row, run).row.status in {Waiting, Called}
    ensures var before, cancelled := Live(row, run).row, Live(row, run + [Attempt(Cancel, now)]);
      && cancelled.row.status == Cancelled && cancelled.row.absences == before.absences
      && cancelled.changes == 2 * cancelled.row.absences + if before.status == Waiting then 1 else 2
  {
    ChangesFollowAbsences(row, run);
    LiveSnoc(row, run, Attempt(Cancel, now));
  }

  /** With k recorded absences a ticket changes status at most 2k + 3 times, and served tickets do so exactly. */
  lemma ChangesAreBounded(row: Row, run: seq<Attempt>)
    requires Fresh(row)
    ensures var l := Live(row, run);
      && l.changes <= 2 * l.row.absences + 3
      && (l.changes == 2 * l.row.absences + 3 <==> l.row.status == Served)
  {
    ChangesFollowAbsences(row, run);
  }

  /** Once a ticket is over, no further run of attempts changes its row. */
  lemma {:induction false} TerminalIsFinal(row: Row, run: seq<Attempt>, more: seq<Attempt>)
    requires Terminal(Live(row, run).row.status)
    ensures Live(row, run + more) == Live(row, run)
  {
    if more == [] {
      assert run + more == run;
    } else {
      TerminalIsFinal(row, run, more[..|more| - 1]);
      assert (run + more)[..|run + more| - 1] == run + more[..|more| - 1];
    }
  }

  /** The clock starts no earlier than the row's creation and never goes back. */
  ghost predicate Chronological(row: Row, run: seq<Attempt>) {
    && (forall i :: 0 <= i < |run| ==> row.createdAt <= run[i].now)
    && (forall i, j :: 0 <= i < j < |run| ==> run[i].now <= run[j].now)
  }

  /** The timestamps a status promises, none of them later than `now`. */
  ghost predicate TimesMatch(row: Row, now: int) {
    && row.createdAt <= now
    && (row.status == Waiting ==> row.calledAt == None)
    && (row.calledAt.Some? ==> row.createdAt <= row.calledAt.value <= now)
    && (row.status in {Called, Serving, Served} ==> row.calledAt.Some?)
    && (row.servingAt.Some? <==> row.status in {Serving, Served})
    && (row.servingAt.Some? ==> row.calledAt.Some? && row.calledAt.value <= row.servingAt.value <= now)
    && (row.servedAt.Some? <==> row.status == Served)
    && (row.servedAt.Some? ==> row.servingAt.value <= row.servedAt.value <= now)
    && (row.skippedAt.Some? <==> row.status == Skipped) && (row.skippedAt.Some? ==> row.skippedAt.value <= now)
    && (row.cancelledAt.Some? <==> row.status == Cancelled) && (row.cancelledAt.Some? ==> row.cancelledAt.value <= now)
    && (row.noShowAt.Some? <==> row.status == NoShow) && (row.noShowAt.Some? ==> row.noShowAt.value <= now)
  }

  lemma {:induction false} TimesFollowStatus(row: Row, run: seq<Attempt>)
    requires Fresh(row) && Chronological(row, run)
    ensures TimesMatch(Live(row, run).row, if run == [] then row.createdAt else run[|run| - 1].now)
    ensures Live(row, run).row.createdAt == row.createdAt
  {
    if run != [] {
      var before, last := run[..|run| - 1], run[|run| - 1];
      TimesFollowStatus(row, before);
      assert before != [] ==> before[|before| - 1].now <= last.now;
      AdvanceKeepsTimes(Live(row, before).row, last.event, if before == [] then row.createdAt else before[|before| - 1].now, last.now);
    }
  }

  lemma AdvanceKeepsTimes(row: Row, e: Event, earlier: int, now: int)
    requires TimesMatch(row, earlier) && earlier <= now
    ensures TimesMatch(row, now)
    ensures Advance(row, e, now).Some? ==>
      TimesMatch(Advance(row, e, now).value, now) && Advance(row, e, now).value.createdAt == row.createdAt
  {
  }

  /** Milliseconds to whole seconds, rounding halves up. */
  function RoundSeconds(ms: int): int {
    (ms + 500) / 1000
  }

  /** The stored second is the nearest one, the later of two equally near. */
  lemma RoundsToNearest(ms: int)
    ensures 1000 * RoundSeconds(ms) - 500 <= ms < 1000 * RoundSeconds(ms) + 500
  {
  }

  /** The duration `archiveToHistory` stores: clamped at zero, NULL when an end is missing. */
  function ArchivedSeconds(from: Option<int>, to: Option<int>): Option<int> {
    if from.Some? && to.Some? then Some(Max(0, RoundSeconds(to.value - from.value))) else None
  }

  /** The clamps in the archive never bind, and each duration is stored exactly for the statuses that have it. */
  lemma ArchiveClampsNeverBind(row: Row, run: seq<Attempt>)
    requires Fresh(row) && Chronological(row, run)
    ensures var r := Live(row, run).row;
      && (r.servingAt.Some? <==> r.status in {Serving, Served})
      && (r.servedAt.Some? <==> r.status == Served)
      && (r.servedAt.Some? ==> r.servingAt.Some?)
      && (ArchivedSeconds(Some(r.createdAt), r.servingAt) ==
            if r.servingAt.Some? then Some(RoundSeconds(r.servingAt.value - r.createdAt)) else None)
      && (ArchivedSeconds(r.servingAt, r.servedAt) ==
            if r.servedAt.Some? then Some(RoundSeconds(r.servedAt.value - r.servingAt.value)) else None)
  {
    TimesFollowStatus(row, run);
  }
}
