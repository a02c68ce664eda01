/**
 The daily ticket counter of a queue: a join takes the next number of the local date, and the
 reset job moves the counter to a new date. Both are single UPDATE statements.
 */
module TicketCounter {
  import opened Options
  import opened WaitingOrder
  import opened TicketFormat

  datatype Counter = Counter(value: nat, date: Option<int>)

  function Increment(c: Counter, today: int): Counter {
    Counter(if c.date == Some(today) then c.value + 1 else 1, Some(today))
  }

  function ResetTo(c: Counter, today: int): Counter {
    if c.date != Some(today) then Counter(0, Some(today)) else c
  }

  /** The counter columns of the `queues` table. */
  class QueueCounters {
    var counters: map<QueueId, Counter>
    var active: set<QueueId>

    constructor (counters: map<QueueId, Counter>, active: set<QueueId>)
      ensures this.counters == counters && this.active == active
    {
      this.counters := counters;
      this.active := active;
    }

    /** Takes the next ticket; None is the error of an UPDATE that matches no queue. */
    method IncrementAndGetCounter(id: QueueId, today: int) returns (issued: Option<(nat, int)>)
      modifies this`counters
      ensures issued.Some? <==> id in old(counters)
      ensures issued.None? ==> counters == old(counters)
      ensures issued.Some? ==>
        && counters == old(counters)[id := Increment(old(counters)[id], today)]
        && issued.value == (counters[id].value, today)
    {
      if id !in counters {
        return None;
      }
      var c := counters[id];
      var next := if c.date == Some(today) then c.value + 1 else 1;
      counters := counters[id := Counter(next, Some(today))];
      return Some((next, today));
    }

    /** Resets every active queue whose counter is not on its local date. */
    method RunCounterReset(localDate: QueueId -> int)
      modifies this`counters
      ensures counters.Keys == old(counters).Keys
      ensures forall q :: q in counters ==>
        counters[q] == if q in active then ResetTo(old(counters)[q], localDate(q)) else old(counters)[q]
    {
      counters := map q | q in counters ::
        if q in active && counters[q].date != Some(localDate(q))
        then Counter(0, Some(localDate(q)))
        else counters[q];
    }
  }

  /** One step on a queue's counter: a join, or a run of the reset job that does or does not see the queue active. */
  datatype Step = Join(today: int) | Reset(today: int, active: bool)

  function After(c: Counter, s: Step): Counter {
    match s
    case Join(today) => Increment(c, today)
    case Reset(today, active) => if active then ResetTo(c, today) else c
  }

  function RunAll(c: Counter, run: seq<Step>): Counter {
    if run == [] then c else After(RunAll(c, run[..|run| - 1]), run[|run| - 1])
  }

  /** The tickets a run issues, in order. */
  function Issued(c: Counter, run: seq<Step>): seq<(int, nat)> {
    if run == [] then []
    else
      var before := run[..|run| - 1];
      var s := run[|run| - 1];
      if s.Join? then Issued(c, before) + [(s.today, RunAll(c, run).value)] else Issued(c, before)
  }

  /** The numbers issued for `date`, in order. */
  function NumbersOn(tickets: seq<(int, nat)>, date: int): seq<nat> {
    if tickets == [] then []
    else
      var last := tickets[|tickets| - 1];
      var before := NumbersOn(tickets[..|tickets| - 1], date);
      if last.0 == date then before + [last.1] else before
  }

  /** The local date never goes back, neither during the run nor below the counter's date. */
  ghost predicate DatesAdvance(c: Counter, run: seq<Step>) {
    && (forall i :: 0 <= i < |run| ==> c.date.Some? ==> c.date.value <= run[i].today)
    && (forall i, j :: 0 <= i < j < |run| ==> run[i].today <= run[j].today)
  }

  function Base(c: Counter, date: int): nat {
    if c.date == Some(date) then c.value else 0
  }

  function Consecutive(from: nat, n: nat): (s: seq<nat>)
    ensures |s| == n && forall i :: 0 <= i < n ==> s[i] == from + i + 1
  {
    seq(n, i requires 0 <= i => from + i + 1)
  }

  lemma NumbersOnSnoc(tickets: seq<(int, nat)>, t: (int, nat), date: int)
    ensures NumbersOn(tickets + [t], date) == NumbersOn(tickets, date) + if t.0 == date then [t.1] else []
  {
    assert (tickets + [t])[..|tickets|] == tickets;
  }

  /** The counter's date is never ahead of the dates it was moved to. */
  lemma {:induction false} DateIsReached(c: Counter, run: seq<Step>, bound: int)
    requires c.date.Some? ==> c.date.value <= bound
    requires forall i :: 0 <= i < |run| ==> run[i].today <= bound
    ensures RunAll(c, run).date.Some? ==> RunAll(c, run).date.value <= bound
  {
    if run != [] {
      DateIsReached(c, run[..|run| - 1], bound);
      assert run[|run| - 1].today <= bound;
    }
  }

  /** `numbers` are a date's tickets so far: `end` is the counter, `base` where the date began, if `begun` before. */
  ghost predicate Tallies(numbers: seq<nat>, end: Counter, base: nat, begun: bool, d: int) {
    && numbers == Consecutive(base, |numbers|)
    && (base > 0 ==> begun)
    && (end.date == Some(d) ==> end.value == base + |numbers|)
    && (numbers != [] || begun ==> end.date.Some? && d <= end.date.value)
  }

  lemma StepTallies(numbers: seq<nat>, now: Counter, base: nat, begun: bool, s: Step, d: int)
    requires Tallies(numbers, now, base, begun, d)
    requires now.date.Some? ==> now.date.value <= s.today
    ensures Tallies(numbers + if s.Join? && s.today == d then [After(now, s).value] else [], After(now, s), base, begun, d)
  {
    if s.Join? && s.today == d {
      assert now.date != Some(d) ==> numbers == [] && base == 0;
      assert numbers + [base + |numbers| + 1] == Consecutive(base, |numbers| + 1);
    } else {
      assert numbers + [] == numbers;
    }
  }

  ghost predicate NumberedOn(c: Counter, run: seq<Step>, d: int) {
    Tallies(NumbersOn(Issued(c, run), d), RunAll(c, run), Base(c, d), c.date == Some(d), d)
  }

  lemma NumbersOfStep(c: Counter, run: seq<Step>, d: int)
    requires run != []
    ensures var s := run[|run| - 1];
      NumbersOn(Issued(c, run), d) == NumbersOn(Issued(c, run[..|run| - 1]), d) +
        if s.Join? && s.today == d then [RunAll(c, run).value] else []
  {
    var s, tickets := run[|run| - 1], Issued(c, run[..|run| - 1]);
    if s.Join? { NumbersOnSnoc(tickets, (s.today, RunAll(c, run).value), d); }
  }

  lemma {:induction false} RunIsNumbered(c: Counter, run: seq<Step>, d: int)
    requires DatesAdvance(c, run)
    ensures NumberedOn(c, run, d)
  {
    if run != [] {
      var before := run[..|run| - 1];
      RunIsNumbered(c, before, d);
      DateIsReached(c, before, run[|run| - 1].today);
      NumbersOfStep(c, run, d);
      StepTallies(NumbersOn(Issued(c, before), d), RunAll(c, before), Base(c, d), c.date == Some(d), run[|run| - 1], d);
    }
  }

  /**
   Every date's tickets are numbered consecutively, in the order they were issued, whatever joins and
   reset runs are interleaved. From a fresh queue that is 1, 2, ..., n.
   */
  lemma NumbersAreConsecutive(c: Counter, run: seq<Step>, date: int)
    requires DatesAdvance(c, run)
    ensures var numbers := NumbersOn(Issued(c, run), date);
      numbers == Consecutive(if c.date == Some(date) then c.value else 0, |numbers|)
  {
    RunIsNumbered(c, run, date);
  }

  lemma {:induction false} PlaceOn(tickets: seq<(int, nat)>, i: nat) returns (k: nat)
    requires i < |tickets|
    ensures k < |NumbersOn(tickets, tickets[i].0)| && NumbersOn(tickets, tickets[i].0)[k] == tickets[i].1
  {
    var n, d := |tickets| - 1, tickets[i].0;
    k := |NumbersOn(tickets[..n], d)|;
    if i < n { k := PlaceOn(tickets[..n], i); }
  }

  lemma {:induction false} PlacesOn(tickets: seq<(int, nat)>, i: nat, j: nat) returns (k: nat, l: nat)
    requires i < j < |tickets| && tickets[i].0 == tickets[j].0
    ensures k < l < |NumbersOn(tickets, tickets[i].0)|
    ensures NumbersOn(tickets, tickets[i].0)[k] == tickets[i].1
    ensures NumbersOn(tickets, tickets[i].0)[l] == tickets[j].1
  {
    var before := tickets[..|tickets| - 1];
    if j < |before| {
      k, l := PlacesOn(before, i, j);
    } else {
      k := PlaceOn(before, i);
      l := |NumbersOn(before, tickets[i].0)|;
    }
  }

  /** No (date, number) pair is issued twice, and under one prefix no printed code repeats within a date. */
  lemma TicketsNeverRepeat(c: Counter, run: seq<Step>, i: nat, j: nat, prefix: string)
    requires DatesAdvance(c, run)
    requires i < j < |Issued(c, run)|
    ensures Issued(c, run)[i] != Issued(c, run)[j]
    ensures Issued(c, run)[i].0 == Issued(c, run)[j].0 ==>
      FormatTicketCode(prefix, Issued(c, run)[i].1) != FormatTicketCode(prefix, Issued(c, run)[j].1)
  {
    var tickets := Issued(c, run);
    if tickets[i].0 == tickets[j].0 {
      var d := tickets[i].0;
      var k, l := PlacesOn(tickets, i, j);
      NumbersAreConsecutive(c, run, d);
      assert tickets[i].1 != tickets[j].1;
      if FormatTicketCode(prefix, tickets[i].1) == FormatTicketCode(prefix, tickets[j].1) {
        CodesAreInjective(prefix, tickets[i].1, tickets[j].1);
      }
    }
  }

  // ---------------------------------------------------------------- exactly when tickets repeat

  /** The ticket of the join at place `p` of a run. */
  function TicketAt(c: Counter, run: seq<Step>, p: nat): (int, nat)
    requires p < |run|
  {
    (run[p].today, RunAll(c, run[..p + 1]).value)
  }

  /** The step puts the counter on its date, if it was not there. */
  predicate Moves(s: Step) {
    s.Join? || s.active
  }

  /** Two joins of one date, between which a join or an active reset falls on another date. */
  predicate LeavesAndReturns(run: seq<Step>, p: nat, m: nat, q: nat) {
    && p < m < q < |run| && run[p].Join? && run[q].Join? && run[p].today == run[q].today
    && Moves(run[m]) && run[m].today != run[p].today
  }

  ghost predicate DatesReturn(run: seq<Step>) {
    exists p, m, q :: LeavesAndReturns(run, p, m, q)
  }

  ghost predicate SameTicketTwice(c: Counter, run: seq<Step>, p: nat, q: nat) {
    p < q < |run| && run[p].Join? && run[q].Join? && TicketAt(c, run, p) == TicketAt(c, run, q)
  }

  lemma {:induction false} RunOfConcat(c: Counter, a: seq<Step>, b: seq<Step>)
    ensures RunAll(c, a + b) == RunAll(RunAll(c, a), b)
  {
    if b == [] {
      assert a + b == a;
    } else {
      RunOfConcat(c, a, b[..|b| - 1]);
      assert (a + b)[..|a + b| - 1] == a + b[..|b| - 1];
    }
  }

  /** As long as nothing moves the counter off its date, it only grows, and a join makes it grow. */
  lemma {:induction false} GrowsOnItsDate(c: Counter, run: seq<Step>, d: int)
    requires c.date == Some(d) && forall i :: 0 <= i < |run| && Moves(run[i]) ==> run[i].today == d
    ensures RunAll(c, run).date == Some(d) && RunAll(c, run).value >= c.value
    ensures run != [] && run[|run| - 1].Join? ==> RunAll(c, run).value > c.value
  {
    if run != [] {
      var before := run[..|run| - 1];
      assert forall i :: 0 <= i < |before| ==> before[i] == run[i];
      GrowsOnItsDate(c, before, d);
    }
  }

  /** Joins of one date with no other date between them have growing numbers. */
  lemma StayingNumbersGrow(c: Counter, run: seq<Step>, p: nat, q: nat)
    requires p < q < |run| && run[p].Join? && run[q].Join? && run[p].today == run[q].today
    requires forall m :: p < m < q && Moves(run[m]) ==> run[m].today == run[p].today
    ensures TicketAt(c, run, p).1 < TicketAt(c, run, q).1
  {
    var head, tail := run[..p + 1], run[p + 1..q + 1];
    assert run[..q + 1] == head + tail;
    RunOfConcat(c, head, tail);
    assert head[..p] == run[..p] && head[p] == run[p];
    forall i | 0 <= i < |tail| && Moves(tail[i])
      ensures tail[i].today == run[p].today
    {
      assert tail[i] == run[p + 1 + i];
    }
    GrowsOnItsDate(RunAll(c, head), tail, run[p].today);
  }

  /** The counter is on a date above 0 only through a join that took number 1 on it. */
  lemma {:induction false} FirstOfVisit(c: Counter, run: seq<Step>, d: int) returns (f: nat)
    requires c.date == Some(d) ==> c.value == 0
    requires RunAll(c, run).date == Some(d) && RunAll(c, run).value > 0
    ensures f < |run| && run[f].Join? && TicketAt(c, run, f) == (d, 1)
  {
    var before, last := run[..|run| - 1], run[|run| - 1];
    var now := RunAll(c, before);
    if last.Join? && RunAll(c, run).value == 1 {
      f := |run| - 1;
      assert run[..f + 1] == run;
    } else {
      f := FirstOfVisit(c, before, d);
      assert before[..f + 1] == run[..f + 1];
    }
  }

  lemma RunOfSlice(c: Counter, run: seq<Step>, from: nat, to: nat)
    requires from <= to <= |run|
    ensures RunAll(c, run[..to]) == RunAll(RunAll(c, run[..from]), run[from..to])
  {
    assert run[..to] == run[..from] + run[from..to];
    RunOfConcat(c, run[..from], run[from..to]);
  }

  lemma AfterJoin(c: Counter, run: seq<Step>, q: nat)
    requires q < |run| && run[q].Join?
    ensures RunAll(c, run[..q + 1]).date == Some(run[q].today) && RunAll(c, run[..q + 1]).value > 0
  {
    assert run[..q + 1][..q] == run[..q];
  }

  /** Between a step off the date and a join on it, number 1 is taken; also from a fresh start. */
  lemma FirstAfter(c: Counter, run: seq<Step>, from: nat, q: nat) returns (f: nat)
    requires from <= q < |run| && run[q].Join?
    requires RunAll(c, run[..from]).date == Some(run[q].today) ==> RunAll(c, run[..from]).value == 0
    ensures from <= f <= q && run[f].Join? && TicketAt(c, run, f) == (run[q].today, 1)
  {
    var begin, tail := RunAll(c, run[..from]), run[from..q + 1];
    RunOfSlice(c, run, from, q + 1);
    AfterJoin(c, run, q);
    var g := FirstOfVisit(begin, tail, run[q].today);
    f := from + g;
    assert run[from..f + 1] == tail[..g + 1];
    RunOfSlice(c, run, from, f + 1);
  }

  lemma ReturningRepeats(c: Counter, run: seq<Step>, p: nat, m: nat, q: nat) returns (i: nat, j: nat)
    requires LeavesAndReturns(run, p, m, q) && (c.date.Some? ==> c.value == 0)
    ensures SameTicketTwice(c, run, i, j)
  {
    assert run[..0] == [];
    i := FirstAfter(c, run, 0, p);
    assert run[..m + 1][..m] == run[..m];
    assert RunAll(c, run[..m + 1]).date == Some(run[m].today);
    j := FirstAfter(c, run, m + 1, q);
  }

  /** The tickets of a run are those of its joins, in order. */
  lemma {:induction false} IssuedAt(c: Counter, run: seq<Step>, p: nat)
    requires p < |run| && run[p].Join?
    ensures |Issued(c, run[..p])| < |Issued(c, run)|
    ensures Issued(c, run)[|Issued(c, run[..p])|] == TicketAt(c, run, p)
  {
    var before := run[..|run| - 1];
    if p < |before| {
      IssuedAt(c, before, p);
      assert before[..p] == run[..p] && before[..p + 1] == run[..p + 1];
    } else {
      assert run[..p + 1] == run && run[..p] == before;
    }
  }

  lemma {:induction false} IssuedGrows(c: Counter, run: seq<Step>, p: nat, q: nat)
    requires p < q <= |run| && run[p].Join?
    ensures |Issued(c, run[..p])| < |Issued(c, run[..q])|
  {
    assert run[..q][..q - 1] == run[..q - 1] && run[..p + 1][..p] == run[..p];
    if q > p + 1 { IssuedGrows(c, run, p, q - 1); }
  }

  lemma {:induction false} JoinOf(c: Counter, run: seq<Step>, i: nat) returns (p: nat)
    requires i < |Issued(c, run)|
    ensures p < |run| && run[p].Join? && |Issued(c, run[..p])| == i && TicketAt(c, run, p) == Issued(c, run)[i]
  {
    var before := run[..|run| - 1];
    if i < |Issued(c, before)| {
      p := JoinOf(c, before, i);
      assert before[..p] == run[..p] && before[..p + 1] == run[..p + 1];
    } else {
      p := |run| - 1;
      assert run[..p + 1] == run;
    }
  }

  ghost predicate Repeats(tickets: seq<(int, nat)>) {
    exists i, j :: 0 <= i < j < |tickets| && tickets[i] == tickets[j]
  }

  lemma RepeatedJoins(c: Counter, run: seq<Step>)
    ensures Repeats(Issued(c, run)) <==> exists p, q :: SameTicketTwice(c, run, p, q)
  {
    if Repeats(Issued(c, run)) {
      var i, j :| 0 <= i < j < |Issued(c, run)| && Issued(c, run)[i] == Issued(c, run)[j];
      var p, q := JoinsOf(c, run, i, j);
      assert SameTicketTwice(c, run, p, q);
    }
    if p: nat, q: nat :| SameTicketTwice(c, run, p, q) {
      IssuedAt(c, run, p);
      IssuedAt(c, run, q);
      IssuedGrows(c, run, p, q);
    }
  }

  lemma JoinsOf(c: Counter, run: seq<Step>, i: nat, j: nat) returns (p: nat, q: nat)
    requires i < j < |Issued(c, run)|
    ensures p < q < |run| && run[p].Join? && run[q].Join?
    ensures TicketAt(c, run, p) == Issued(c, run)[i] && TicketAt(c, run, q) == Issued(c, run)[j]
  {
    p := JoinOf(c, run, i);
    q := JoinOf(c, run, j);
    if q < p { IssuedGrows(c, run, q, p); }
  }

  /**
   With any local dates whatever: a fresh queue issues some ticket twice exactly when two joins fall on
   one date and, between them, a join or an active reset falls on another.
   */
  lemma RepeatsExactlyWhenDateReturns(c: Counter, run: seq<Step>)
    requires c.date.Some? ==> c.value == 0
    ensures Repeats(Issued(c, run)) <==> DatesReturn(run)
  {
    RepeatedJoins(c, run);
    if p, m, q :| LeavesAndReturns(run, p, m, q) {
      var i, j := ReturningRepeats(c, run, p, m, q);
    }
    if p: nat, q: nat :| SameTicketTwice(c, run, p, q) {
      if forall m :: p < m < q && Moves(run[m]) ==> run[m].today == run[p].today {
        StayingNumbersGrow(c, run, p, q);
      } else {
        var m :| p < m < q && Moves(run[m]) && run[m].today != run[p].today;
        assert LeavesAndReturns(run, p, m, q);
      }
    }
  }

  /** Were the local date to go back, the same ticket would be issued twice. */
  lemma ClockGoingBackRepeatsTickets(day: int)
    ensures var run := [Join(day), Join(day + 1), Join(day)];
      Issued(Counter(0, None), run) == [(day, 1), (day + 1, 1), (day, 1)]
  {
    var c, run := Counter(0, None), [Join(day), Join(day + 1), Join(day)];
    assert run[..2] == [Join(day), Join(day + 1)] && run[..2][..1] == [Join(day)] && run[..2][..1][..0] == [];
    assert RunAll(c, run[..2][..1]) == Counter(1, Some(day));
    assert RunAll(c, run[..2]) == Counter(1, Some(day + 1));
    assert Issued(c, run[..2][..1]) == [(day, 1)];
    assert Issued(c, run[..2]) == [(day, 1), (day + 1, 1)];
  }
}
