/**
 Callbacks that catch a database error and go on. The transaction stays aborted behind their back, and a
 COMMIT of an aborted transaction rolls back without an error.
 */
module SwallowedErrors {
  import opened Transactions

  /** A callback without what its statements do: a statement may be accepted, be rejected, or throw. */
  datatype Shape =
    | Nothing
    | Statement(rest: Shape)
    | Attempt(body: Shape, rest: Shape)
    | Nested(name: string, body: Shape, rest: Shape)

  function ShapeOf<Db>(code: Code<Db>): Shape {
    match code
    case End => Nothing
    case Then(Try(body), rest) => Attempt(ShapeOf(body), ShapeOf(rest))
    case Then(Block(name, body), rest) => Nested(name, ShapeOf(body), ShapeOf(rest))
    case Then(_, rest) => Statement(ShapeOf(rest))
  }

  predicate HasStatement(shape: Shape) {
    match shape
    case Nothing => false
    case Statement(_) => true
    case Attempt(body, rest) => HasStatement(body) || HasStatement(rest)
    case Nested(_, body, rest) => HasStatement(body) || HasStatement(rest)
  }

  predicate OnlyAttempts(shape: Shape) {
    match shape
    case Nothing => true
    case Attempt(_, rest) => OnlyAttempts(rest)
    case _ => false
  }

  /** A statement outside every block that comes after another statement; `ran` says one came before the shape. */
  predicate HasOpenStatement(shape: Shape, ran: bool) {
    match shape
    case Nothing => false
    case Statement(rest) => ran || HasOpenStatement(rest, true)
    case Attempt(body, rest) => HasOpenStatement(body, ran) || HasOpenStatement(rest, ran || HasStatement(body))
    case Nested(_, body, rest) => HasOpenStatement(rest, ran || HasStatement(body))
  }

  /**
   After some point the callback consists of attempts only, and one of these makes a statement outside
   every block, which is not the callback's first.
   */
  predicate CanLoseWork(shape: Shape, ran: bool) {
    match shape
    case Nothing => false
    case Statement(rest) => CanLoseWork(rest, true)
    case Attempt(body, rest) =>
      (OnlyAttempts(rest) && HasOpenStatement(body, ran)) || CanLoseWork(rest, ran || HasStatement(body))
    case Nested(_, body, rest) => CanLoseWork(rest, ran || HasStatement(body))
  }

  predicate Works<Db>(stmt: Stmt<Db>) {
    match stmt
    case Try(body) => HasStatement(ShapeOf(body))
    case Block(_, body) => HasStatement(ShapeOf(body))
    case _ => true
  }

  predicate OpenIn<Db>(stmt: Stmt<Db>, ran: bool) {
    match stmt
    case Try(body) => HasOpenStatement(ShapeOf(body), ran)
    case Block(_, _) => false
    case _ => ran
  }

  // ---------------------------------------------------------------- what any callback keeps

  /** In an aborted transaction nothing changes any more, and only attempts return. */
  lemma {:induction false} AbortedStays<Db>(code: Code<Db>, s: Session<Db>)
    requires s.aborted
    ensures Exec(code, s).session == s
    ensures Exec(code, s).threw <==> !OnlyAttempts(ShapeOf(code))
  {
    match code
    case End =>
    case Then(Try(body), rest) =>
      AbortedStays(body, s);
      AbortedStays(rest, s);
    case Then(stmt, rest) =>
      assert ExecStmt(stmt, s) == Outcome(s, true);
  }

  /** Whatever the names, a callback never drops a savepoint that was there before it. */
  lemma {:induction false} SavepointsStay<Db>(code: Code<Db>, s: Session<Db>)
    ensures s.savepoints <= Exec(code, s).session.savepoints
  {
    match code
    case End =>
    case Then(stmt, rest) =>
      StatementKeepsSavepoints(stmt, s);
      if !ExecStmt(stmt, s).threw { SavepointsStay(rest, ExecStmt(stmt, s).session); }
  }

  lemma {:induction false} StatementKeepsSavepoints<Db>(stmt: Stmt<Db>, s: Session<Db>)
    ensures s.savepoints <= ExecStmt(stmt, s).session.savepoints
    ensures stmt.Block? && !s.aborted ==> !ExecStmt(stmt, s).session.aborted
  {
    match stmt
    case Try(body) => SavepointsStay(body, s);
    case Block(name, body) =>
      if !s.aborted {
        var entered := Savepoint(s, name).session;
        SavepointsStay(body, entered);
        var points := Exec(body, entered).session.savepoints;
        assert points[|s.savepoints|].0 == name;
        assert LastNamed(points, name) >= |s.savepoints|;
      }
    case _ =>
  }

  /** Blocks and attempts without statements do nothing. */
  lemma {:induction false} NoStatementsNoEffect<Db>(code: Code<Db>, s: Session<Db>)
    requires !s.aborted && !HasStatement(ShapeOf(code))
    ensures Exec(code, s) == Outcome(s, false)
  {
    match code
    case End =>
    case Then(Try(body), rest) =>
      NoStatementsNoEffect(body, s);
      NoStatementsNoEffect(rest, s);
    case Then(Block(name, body), rest) =>
      var entered := Savepoint(s, name).session;
      NoStatementsNoEffect(body, entered);
      assert LastNamed(entered.savepoints, name) == |s.savepoints|;
      assert entered.savepoints[..|s.savepoints|] == s.savepoints;
      NoStatementsNoEffect(rest, s);
    case Then(stmt, rest) =>
  }

  // ---------------------------------------------------------------- a shape that cannot lose work does not

  /** A callback that ends aborted with a changed database has an open statement after another one. */
  lemma {:induction false} AbortedWorkNeedsOpenStatement<Db>(code: Code<Db>, s: Session<Db>, start: Db, ran: bool)
    requires !s.aborted && (!ran ==> s.db == start)
    ensures var o := Exec(code, s);
      o.session.aborted && o.session.db != start ==> HasOpenStatement(ShapeOf(code), ran)
  {
    match code
    case End =>
    case Then(stmt, rest) =>
      var first := ExecStmt(stmt, s);
      FirstStepWork(stmt, s, start, ran);
      if !first.threw && !first.session.aborted {
        AbortedWorkNeedsOpenStatement(rest, first.session, start, ran || Works(stmt));
      } else if !first.threw {
        AbortedStays(rest, first.session);
      }
  }

  lemma {:induction false} FirstStepWork<Db>(stmt: Stmt<Db>, s: Session<Db>, start: Db, ran: bool)
    requires !s.aborted && (!ran ==> s.db == start)
    ensures var o := ExecStmt(stmt, s);
      && (o.session.aborted && o.session.db != start ==> OpenIn(stmt, ran))
      && (!o.session.aborted && !ran && !Works(stmt) ==> o.session.db == start)
  {
    match stmt
    case Try(body) =>
      AbortedWorkNeedsOpenStatement(body, s, start, ran);
      if !HasStatement(ShapeOf(body)) { NoStatementsNoEffect(body, s); }
    case Block(name, body) =>
      StatementKeepsSavepoints(stmt, s);
      if !HasStatement(ShapeOf(body)) {
        var entered := Savepoint(s, name).session;
        NoStatementsNoEffect(body, entered);
        assert LastNamed(entered.savepoints, name) == |s.savepoints|;
      }
    case _ =>
  }

  lemma {:induction false} ReturnedWorkIsKept<Db>(code: Code<Db>, s: Session<Db>, start: Db, ran: bool)
    requires !s.aborted && (!ran ==> s.db == start)
    ensures var o := Exec(code, s);
      !o.threw && o.session.aborted && o.session.db != start ==> CanLoseWork(ShapeOf(code), ran)
  {
    match code
    case End =>
    case Then(stmt, rest) =>
      var first := ExecStmt(stmt, s);
      FirstStepWork(stmt, s, start, ran);
      if !first.threw && !first.session.aborted {
        ReturnedWorkIsKept(rest, first.session, start, ran || Works(stmt));
      } else if !first.threw {
        AbortedStays(rest, first.session);
        StatementKeepsSavepoints(stmt, s);
      }
  }

  // ---------------------------------------------------------------- a shape that can lose work does

  /** The callback of a shape whose statements are all accepted and add one. */
  function Accepting(shape: Shape): Code<int> {
    match shape
    case Nothing => End
    case Statement(rest) => Then(Query((x: int) => x + 1), Accepting(rest))
    case Attempt(body, rest) => Then(Try(Accepting(body)), Accepting(rest))
    case Nested(name, body, rest) => Then(Block(name, Accepting(body)), Accepting(rest))
  }

  /** The same, but the first open statement that follows another one is rejected. */
  function Rejecting(shape: Shape, ran: bool): Code<int> {
    match shape
    case Nothing => End
    case Statement(rest) =>
      if ran then Then(BadQuery, Accepting(rest)) else Then(Query((x: int) => x + 1), Rejecting(rest, true))
    case Attempt(body, rest) =>
      if HasOpenStatement(body, ran) then Then(Try(Rejecting(body, ran)), Accepting(rest))
      else Then(Try(Accepting(body)), Rejecting(rest, ran || HasStatement(body)))
    case Nested(name, body, rest) => Then(Block(name, Accepting(body)), Rejecting(rest, ran || HasStatement(body)))
  }

  /** The same, with the rejection in an attempt that only attempts follow. */
  function Losing(shape: Shape, ran: bool): Code<int> {
    match shape
    case Nothing => End
    case Statement(rest) => Then(Query((x: int) => x + 1), Losing(rest, true))
    case Attempt(body, rest) =>
      if OnlyAttempts(rest) && HasOpenStatement(body, ran) then Then(Try(Rejecting(body, ran)), Accepting(rest))
      else Then(Try(Accepting(body)), Losing(rest, ran || HasStatement(body)))
    case Nested(name, body, rest) => Then(Block(name, Accepting(body)), Losing(rest, ran || HasStatement(body)))
  }

  lemma {:induction false} ShapesFit(shape: Shape, ran: bool)
    ensures ShapeOf(Accepting(shape)) == shape && ShapeOf(Rejecting(shape, ran)) == shape
    ensures ShapeOf(Losing(shape, ran)) == shape
  {
    match shape
    case Nothing =>
    case Statement(rest) => ShapesFit(rest, true);
    case Attempt(body, rest) =>
      ShapesFit(body, ran);
      ShapesFit(rest, ran || HasStatement(body));
    case Nested(name, body, rest) =>
      ShapesFit(body, ran);
      ShapesFit(rest, ran || HasStatement(body));
  }

  lemma {:induction false} AcceptingRuns(shape: Shape, s: Session<int>)
    requires !s.aborted
    ensures var o := Exec(Accepting(shape), s);
      && !o.threw && !o.session.aborted && o.session.savepoints == s.savepoints
      && o.session.db >= s.db && (HasStatement(shape) ==> o.session.db > s.db)
  {
    match shape
    case Nothing =>
    case Statement(rest) => AcceptingRuns(rest, s.(db := s.db + 1));
    case Attempt(body, rest) =>
      AcceptingRuns(body, s);
      AcceptingRuns(rest, Exec(Accepting(body), s).session);
    case Nested(name, body, rest) =>
      var entered := Savepoint(s, name).session;
      AcceptingRuns(body, entered);
      assert LastNamed(entered.savepoints, name) == |s.savepoints|;
      assert entered.savepoints[..|s.savepoints|] == s.savepoints;
      AcceptingRuns(rest, ExecStmt(Block(name, Accepting(body)), s).session);
  }

  lemma {:induction false} RejectingAborts(shape: Shape, ran: bool, s: Session<int>, start: int)
    requires !s.aborted && s.db >= start && (ran ==> s.db > start) && HasOpenStatement(shape, ran)
    ensures var o := Exec(Rejecting(shape, ran), s); o.session.aborted && o.session.db > start
  {
    match shape
    case Statement(rest) =>
      if !ran { RejectingAborts(rest, true, s.(db := s.db + 1), start); }
    case Attempt(body, rest) =>
      if HasOpenStatement(body, ran) {
        RejectingAborts(body, ran, s, start);
        AbortedStays(Accepting(rest), Exec(Rejecting(body, ran), s).session);
      } else {
        AcceptingRuns(body, s);
        RejectingAborts(rest, ran || HasStatement(body), Exec(Accepting(body), s).session, start);
      }
    case Nested(name, body, rest) =>
      BlockAccepted(name, body, s);
      RejectingAborts(rest, ran || HasStatement(body), ExecStmt(Block(name, Accepting(body)), s).session, start);
  }

  lemma BlockAccepted(name: string, body: Shape, s: Session<int>)
    requires !s.aborted
    ensures var o := ExecStmt(Block(name, Accepting(body)), s);
      !o.threw && !o.session.aborted && o.session.db >= s.db && (HasStatement(body) ==> o.session.db > s.db)
  {
    AcceptingRuns(Nested(name, body, Nothing), s);
    assert Exec(Accepting(Nested(name, body, Nothing)), s) == ExecStmt(Block(name, Accepting(body)), s) by {
      AcceptingRuns(body, Savepoint(s, name).session);
    }
  }

  lemma {:induction false} LosingLoses(shape: Shape, ran: bool, s: Session<int>, start: int)
    requires !s.aborted && s.db >= start && (ran ==> s.db > start) && CanLoseWork(shape, ran)
    ensures var o := Exec(Losing(shape, ran), s); !o.threw && o.session.aborted && o.session.db > start
  {
    match shape
    case Statement(rest) => LosingLoses(rest, true, s.(db := s.db + 1), start);
    case Attempt(body, rest) =>
      if OnlyAttempts(rest) && HasOpenStatement(body, ran) {
        RejectingAborts(body, ran, s, start);
        ShapesFit(rest, ran);
        AbortedStays(Accepting(rest), Exec(Rejecting(body, ran), s).session);
      } else {
        AcceptingRuns(body, s);
        LosingLoses(rest, ran || HasStatement(body), Exec(Accepting(body), s).session, start);
      }
    case Nested(name, body, rest) =>
      BlockAccepted(name, body, s);
      LosingLoses(rest, ran || HasStatement(body), ExecStmt(Block(name, Accepting(body)), s).session, start);
  }

  // ---------------------------------------------------------------- the exact condition

  /** The transaction commits the database its callback left, if the callback returns. */
  ghost predicate CommitsWhatItRan(code: Code<int>, db: int) {
    !ExecTransaction(code, db).1 ==> ExecTransaction(code, db).0 == Exec(code, Session(db, [], false)).session.db
  }

  /**
   A shape commits what it ran whenever it returns, for every choice of what its statements do, exactly
   when it does not end in attempts of which one makes a statement outside every block, not its first.
   */
  lemma CommitsWhatItRanExactlyWhen(shape: Shape)
    ensures !CanLoseWork(shape, false) <==>
      forall code: Code<int>, db: int :: ShapeOf(code) == shape ==> CommitsWhatItRan(code, db)
  {
    if CanLoseWork(shape, false) {
      ShapesFit(shape, false);
      LosingLoses(shape, false, Session(0, [], false), 0);
      assert !CommitsWhatItRan(Losing(shape, false), 0);
    } else {
      forall code: Code<int>, db: int | ShapeOf(code) == shape
        ensures CommitsWhatItRan(code, db)
      {
        ReturnedWorkIsKept(code, Session(db, [], false), db, false);
      }
    }
  }

  /** One added, one error swallowed: the callback returns, and nothing is committed. */
  lemma SwallowedErrorLosesWork(db: int)
    ensures var code := Then(Query((x: int) => x + 1), Then(Try(Then(BadQuery, End)), End));
      ExecTransaction(code, db) == (db, false) && Exec(code, Session(db, [], false)).session.db == db + 1
  {
    var s, swallow := Session(db + 1, [], false), Try(Then(BadQuery, End));
    assert Exec(Then(BadQuery, End), s) == Outcome(s.(aborted := true), true);
    assert ExecStmt(swallow, s) == Outcome(s.(aborted := true), false);
    assert Exec(Then(swallow, End), s) == Outcome(s.(aborted := true), false);
    assert ExecStmt(Query((x: int) => x + 1), Session(db, [], false)) == Outcome(s, false);
  }

  /** The same error does no such harm inside a block, or when a statement follows the attempt. */
  lemma HarmlessAttempts(name: string)
    ensures !CanLoseWork(Statement(Attempt(Nested(name, Statement(Nothing), Nothing), Nothing)), false)
    ensures !CanLoseWork(Statement(Nested(name, Attempt(Statement(Nothing), Nothing), Nothing)), false)
    ensures !CanLoseWork(Statement(Attempt(Statement(Nothing), Statement(Nothing))), false)
  {
    var one := Statement(Nothing);
    assert !HasOpenStatement(Nested(name, one, Nothing), true);
    assert !CanLoseWork(Attempt(Nested(name, one, Nothing), Nothing), true);
    assert !CanLoseWork(Nested(name, Attempt(one, Nothing), Nothing), true);
    assert !OnlyAttempts(one) && !CanLoseWork(one, true);
    assert !CanLoseWork(Attempt(one, one), true);
  }
}
