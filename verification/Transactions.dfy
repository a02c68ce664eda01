/**
 `withTransaction` and `withSavepoint` over one PostgreSQL session. SAVEPOINT pushes a name, RELEASE
 drops the most recent savepoint of that name with everything above it, and ROLLBACK TO restores the
 most recent one, drops everything above it, and leaves it on the stack.
 */
module Transactions {

  /**
   What a callback does with its client. A statement succeeds or is rejected by the database; a
   rejected statement throws and puts the transaction in the aborted state, where only a rollback
   helps. `Try` is a caller that catches and ignores, `Block` is `withSavepoint`.
   */
  datatype Code<!Db> = End | Then(stmt: Stmt<Db>, rest: Code<Db>)

  datatype Stmt<!Db> =
    | Query(effect: Db -> Db)
    | BadQuery
    | Throw
    | Try(body: Code<Db>)
    | Block(name: string, body: Code<Db>)

  // ---------------------------------------------------------------- the session

  datatype Session<Db> = Session(db: Db, savepoints: seq<(string, Db)>, aborted: bool)
  datatype Outcome<Db> = Outcome(session: Session<Db>, threw: bool)

  /** The place of the most recent savepoint called `name`, or -1. */
  function LastNamed<Db>(points: seq<(string, Db)>, name: string): (i: int)
    ensures -1 <= i < |points|
    ensures i >= 0 ==> points[i].0 == name
    ensures forall k :: i < k < |points| ==> points[k].0 != name
  {
    if points == [] then -1
    else if points[|points| - 1].0 == name then |points| - 1
    else LastNamed(points[..|points| - 1], name)
  }

  function Savepoint<Db>(s: Session<Db>, name: string): Outcome<Db> {
    if s.aborted then Outcome(s, true)
    else Outcome(s.(savepoints := s.savepoints + [(name, s.db)]), false)
  }

  function Release<Db>(s: Session<Db>, name: string): Outcome<Db> {
    var i := LastNamed(s.savepoints, name);
    if s.aborted || i < 0 then Outcome(s.(aborted := true), true)
    else Outcome(s.(savepoints := s.savepoints[..i]), false)
  }

  function RollbackTo<Db>(s: Session<Db>, name: string): Outcome<Db> {
    var i := LastNamed(s.savepoints, name);
    if i < 0 then Outcome(s.(aborted := true), true)
    else Outcome(Session(s.savepoints[i].1, s.savepoints[..i + 1], false), false)
  }

  /** The session after a callback, command by command. */
  function Exec<Db>(code: Code<Db>, s: Session<Db>): Outcome<Db> {
    match code
    case End => Outcome(s, false)
    case Then(stmt, rest) =>
      var first := ExecStmt(stmt, s);
      if first.threw then first else Exec(rest, first.session)
  }

  function ExecStmt<Db>(stmt: Stmt<Db>, s: Session<Db>): Outcome<Db> {
    match stmt
    case Query(effect) => if s.aborted then Outcome(s, true) else Outcome(s.(db := effect(s.db)), false)
    case BadQuery => Outcome(s.(aborted := true), true)
    case Throw => Outcome(s, true)
    case Try(body) => Exec(body, s).(threw := false)
    case Block(name, body) =>
      var entered := Savepoint(s, name);
      if entered.threw then entered
      else
        var done := Exec(body, entered.session);
        var closed := if done.threw then done else Release(done.session, name);
        if closed.threw then RollbackTo(closed.session, name).(threw := true) else closed
  }

  /** ROLLBACK TO and RELEASE of a name that is nowhere on the stack are errors that abort the transaction. */
  lemma UnknownSavepoint<Db>(s: Session<Db>, name: string)
    requires forall i :: 0 <= i < |s.savepoints| ==> s.savepoints[i].0 != name
    ensures Release(s, name) == Outcome(s.(aborted := true), true)
    ensures RollbackTo(s, name) == Outcome(s.(aborted := true), true)
  {
  }

  /** The commands on the most recent savepoint of a name: restored and kept, or dropped with its data kept. */
  lemma RecentSavepoint<Db>(below: seq<(string, Db)>, name: string, at: Db, above: seq<(string, Db)>, db: Db, aborted: bool)
    requires forall i :: 0 <= i < |above| ==> above[i].0 != name
    ensures RollbackTo(Session(db, below + [(name, at)] + above, aborted), name) ==
      Outcome(Session(at, below + [(name, at)], false), false)
    ensures !aborted ==>
      Release(Session(db, below + [(name, at)] + above, false), name) == Outcome(Session(db, below, false), false)
  {
    var points := below + [(name, at)] + above;
    var i := LastNamed(points, name);
    assert points[|below|].0 == name;
    assert forall j :: |below| < j < |points| ==> points[j] == above[j - |below| - 1];
    assert points[..|below| + 1] == below + [(name, at)] && points[..|below|] == below;
  }

  // ---------------------------------------------------------------- the meaning of a callback

  datatype Result<Db> = Result(db: Db, aborted: bool, threw: bool)

  /** Without any savepoint: a block that throws, or that ends aborted, throws and contributes nothing. */
  function Meaning<Db>(code: Code<Db>, db: Db, aborted: bool): Result<Db> {
    match code
    case End => Result(db, aborted, false)
    case Then(stmt, rest) =>
      var first := MeaningOf(stmt, db, aborted);
      if first.threw then first else Meaning(rest, first.db, first.aborted)
  }

  function MeaningOf<Db>(stmt: Stmt<Db>, db: Db, aborted: bool): Result<Db> {
    match stmt
    case Query(effect) => if aborted then Result(db, true, true) else Result(effect(db), false, false)
    case BadQuery => Result(db, true, true)
    case Throw => Result(db, aborted, true)
    case Try(body) => Meaning(body, db, aborted).(threw := false)
    case Block(_, body) =>
      var inner := Meaning(body, db, aborted);
      if aborted || inner.threw || inner.aborted then Result(db, aborted, true) else inner
  }

  /** A whole transaction commits what the callback means, or nothing if it throws or ends aborted. */
  function Committed<Db>(code: Code<Db>, db: Db): Db {
    var r := Meaning(code, db, false);
    if r.threw || r.aborted then db else r.db
  }

  // ---------------------------------------------------------------- how savepoints nest

  /** The blocks of a callback: each with its name, the blocks inside it, and the blocks after it. */
  datatype Nest = Leaf | Node(name: string, inner: Nest, next: Nest)

  function Append(a: Nest, b: Nest): Nest {
    match a
    case Leaf => b
    case Node(n, i, next) => Node(n, i, Append(next, b))
  }

  function NestOf<Db>(code: Code<Db>): Nest {
    match code
    case End => Leaf
    case Then(stmt, rest) => Append(NestOfStmt(stmt), NestOf(rest))
  }

  function NestOfStmt<Db>(stmt: Stmt<Db>): Nest {
    match stmt
    case Try(body) => NestOf(body)
    case Block(name, body) => Node(name, NestOf(body), Leaf)
    case _ => Leaf
  }

  function TopNames(nest: Nest): set<string> {
    match nest
    case Leaf => {}
    case Node(n, _, next) => {n} + TopNames(next)
  }

  /** No block is nested directly inside a block of its own name. */
  predicate Safe(nest: Nest) {
    match nest
    case Leaf => true
    case Node(n, inner, next) => n !in TopNames(inner) && Safe(inner) && Safe(next)
  }

  lemma AppendSafe(a: Nest, b: Nest)
    ensures Safe(Append(a, b)) <==> Safe(a) && Safe(b)
    ensures TopNames(Append(a, b)) == TopNames(a) + TopNames(b)
  {
  }

  // ---------------------------------------------------------------- equivalence

  /** `o` is `m` with some savepoints named in `names` left on top of those of `s`. */
  ghost predicate Matches<Db>(s: Session<Db>, o: Outcome<Db>, m: Result<Db>, names: set<string>) {
    && o.session.db == m.db && o.session.aborted == m.aborted && o.threw == m.threw
    && s.savepoints <= o.session.savepoints
    && forall k :: |s.savepoints| <= k < |o.session.savepoints| ==> o.session.savepoints[k].0 in names
  }

  lemma {:induction false} ExecMatchesMeaning<Db>(code: Code<Db>, s: Session<Db>)
    requires Safe(NestOf(code))
    ensures Matches(s, Exec(code, s), Meaning(code, s.db, s.aborted), TopNames(NestOf(code)))
  {
    match code
    case End =>
    case Then(stmt, rest) =>
      AppendSafe(NestOfStmt(stmt), NestOf(rest));
      StmtMatchesMeaning(stmt, s);
      if !ExecStmt(stmt, s).threw { ExecMatchesMeaning(rest, ExecStmt(stmt, s).session); }
  }

  lemma {:induction false} StmtMatchesMeaning<Db>(stmt: Stmt<Db>, s: Session<Db>)
    requires Safe(NestOfStmt(stmt))
    ensures Matches(s, ExecStmt(stmt, s), MeaningOf(stmt, s.db, s.aborted), TopNames(NestOfStmt(stmt)))
  {
    match stmt
    case Query(_) =>
    case BadQuery =>
    case Throw =>
    case Try(body) =>
      ExecMatchesMeaning(body, s);
    case Block(name, body) =>
      if !s.aborted {
        var entered := Savepoint(s, name).session;
        ExecMatchesMeaning(body, entered);
        var points := Exec(body, entered).session.savepoints;
        assert points[|s.savepoints|] == (name, s.db);
        assert LastNamed(points, name) == |s.savepoints|;
      }
  }

  /** The whole transaction, from BEGIN to COMMIT or ROLLBACK, commands included. */
  function ExecTransaction<Db>(code: Code<Db>, db: Db): (r: (Db, bool)) {
    var o := Exec(code, Session(db, [], false));
    (if o.threw || o.session.aborted then db else o.session.db, o.threw)
  }

  /**
   When no block sits directly inside a block of its own name, a transaction commits what its
   callback means, and it throws exactly when the callback does. Sibling blocks may share names, and
   so may blocks further apart, although failed blocks leave their savepoints behind.
   */
  lemma SafeNamesGiveBigStep<Db>(code: Code<Db>, db: Db)
    requires Safe(NestOf(code))
    ensures ExecTransaction(code, db) == (Committed(code, db), Meaning(code, db, false).threw)
  {
    ExecMatchesMeaning(code, Session(db, [], false));
  }

  // ---------------------------------------------------------------- necessity

  /** Code with the blocks of `nest` and no statements, followed by `tail`. */
  function Quiet(nest: Nest, tail: Code<int>): Code<int> {
    match nest
    case Leaf => tail
    case Node(n, inner, next) => Then(Block(n, Quiet(inner, End)), Quiet(next, tail))
  }

  /** A block whose failure its caller ignores. */
  function Ignored(name: string, body: Code<int>): Stmt<int> {
    Try(Then(Block(name, body), End))
  }

  lemma ThenBlockNest(name: string, body: Code<int>, rest: Code<int>)
    ensures NestOf(Then(Block(name, body), rest)) == Node(name, NestOf(body), NestOf(rest))
  {
    assert NestOfStmt(Block(name, body)) == Node(name, NestOf(body), Leaf);
    assert Append(Node(name, NestOf(body), Leaf), NestOf(rest)) == Node(name, NestOf(body), NestOf(rest)) by {
      assert Append(Leaf, NestOf(rest)) == NestOf(rest);
    }
  }

  lemma ThenIgnoredNest(name: string, body: Code<int>, rest: Code<int>)
    ensures NestOf(Then(Ignored(name, body), rest)) == Node(name, NestOf(body), NestOf(rest))
  {
    ThenBlockNest(name, body, End);
    assert NestOfStmt(Ignored(name, body)) == Node(name, NestOf(body), Leaf);
    assert Append(Leaf, NestOf(rest)) == NestOf(rest);
  }

  lemma IgnoredBlock(name: string, body: Code<int>, s: Session<int>)
    ensures ExecStmt(Ignored(name, body), s) == ExecStmt(Block(name, body), s).(threw := false)
    ensures MeaningOf(Ignored(name, body), s.db, s.aborted) ==
      MeaningOf(Block(name, body), s.db, s.aborted).(threw := false)
  {
    assert Exec(Then(Block(name, body), End), s) == ExecStmt(Block(name, body), s);
    assert Meaning(Then(Block(name, body), End), s.db, s.aborted) == MeaningOf(Block(name, body), s.db, s.aborted);
  }

  /** The same blocks, but the first one called `name` fails and its failure is ignored. */
  function WithFailing(nest: Nest, name: string, tail: Code<int>): Code<int> {
    match nest
    case Leaf => tail
    case Node(n, inner, next) =>
      if n == name
      then Then(Ignored(n, Quiet(inner, Then(Throw, End))), Quiet(next, tail))
      else Then(Block(n, Quiet(inner, End)), WithFailing(next, name, tail))
  }

  function AddThenFail(inner: Nest, name: string): Code<int> {
    Then(Query((x: int) => x + 1), WithFailing(inner, name, Then(Throw, End)))
  }

  /** For an unsafe nest: a block adds one, ignores a failing inner block of its own name, and fails. */
  function Spoiler(nest: Nest): Code<int> {
    match nest
    case Leaf => End
    case Node(n, inner, next) =>
      if n in TopNames(inner) then
        Then(Ignored(n, AddThenFail(inner, n)), Quiet(next, End))
      else if !Safe(inner) then Then(Block(n, Spoiler(inner)), Quiet(next, End))
      else Then(Block(n, Quiet(inner, End)), Spoiler(next))
  }

  lemma {:induction false} NestOfQuiet(nest: Nest, tail: Code<int>)
    requires NestOf(tail) == Leaf
    ensures NestOf(Quiet(nest, tail)) == nest
  {
    if nest.Node? {
      NestOfQuiet(nest.inner, End);
      NestOfQuiet(nest.next, tail);
      ThenBlockNest(nest.name, Quiet(nest.inner, End), Quiet(nest.next, tail));
    }
  }

  lemma {:induction false} NestOfFailing(nest: Nest, name: string, tail: Code<int>)
    requires NestOf(tail) == Leaf
    ensures NestOf(WithFailing(nest, name, tail)) == nest
  {
    if nest.Node? {
      var throws := Then(Throw, End);
      NestOfQuiet(nest.inner, End);
      NestOfQuiet(nest.inner, throws);
      if nest.name == name {
        NestOfQuiet(nest.next, tail);
        ThenIgnoredNest(name, Quiet(nest.inner, throws), Quiet(nest.next, tail));
      } else {
        NestOfFailing(nest.next, name, tail);
        ThenBlockNest(nest.name, Quiet(nest.inner, End), WithFailing(nest.next, name, tail));
      }
    }
  }

  lemma {:induction false} NestOfSpoiler(nest: Nest)
    ensures NestOf(Spoiler(nest)) == nest
  {
    match nest
    case Leaf =>
    case Node(n, inner, next) =>
      NestOfQuiet(next, End);
      if n in TopNames(inner) {
        NestOfFailing(inner, n, Then(Throw, End));
        ThenIgnoredNest(n, AddThenFail(inner, n), Quiet(next, End));
      } else if !Safe(inner) {
        NestOfSpoiler(inner);
        ThenBlockNest(n, Spoiler(inner), Quiet(next, End));
      } else {
        NestOfQuiet(inner, End);
        NestOfSpoiler(next);
        ThenBlockNest(n, Quiet(inner, End), Spoiler(next));
      }
  }

  lemma {:induction false} QuietDoesNothing(nest: Nest, tail: Code<int>, s: Session<int>)
    requires !s.aborted
    ensures Exec(Quiet(nest, tail), s) == Exec(tail, s)
    ensures Meaning(Quiet(nest, tail), s.db, false) == Meaning(tail, s.db, false)
  {
    match nest
    case Leaf =>
    case Node(n, inner, next) =>
      var entered := Savepoint(s, n).session;
      QuietDoesNothing(inner, End, entered);
      assert LastNamed(entered.savepoints, n) == |s.savepoints|;
      assert entered.savepoints[..|s.savepoints|] == s.savepoints;
      QuietDoesNothing(next, tail, s);
  }

  /** A failing inner block leaves exactly its own savepoint behind, and then `tail` throws. */
  lemma {:induction false} FailingLeavesSavepoint(nest: Nest, name: string, s: Session<int>)
    requires !s.aborted && name in TopNames(nest)
    ensures Exec(WithFailing(nest, name, Then(Throw, End)), s) ==
      Outcome(s.(savepoints := s.savepoints + [(name, s.db)]), true)
    ensures Meaning(WithFailing(nest, name, Then(Throw, End)), s.db, false) == Result(s.db, false, true)
  {
    var Node(n, inner, next) := nest;
    var entered := Savepoint(s, n).session;
    assert LastNamed(entered.savepoints, n) == |s.savepoints|;
    var throws := Then(Throw, End);
    if n == name {
      QuietDoesNothing(inner, throws, entered);
      assert entered.savepoints[..|s.savepoints| + 1] == entered.savepoints;
      IgnoredBlock(n, Quiet(inner, throws), s);
      assert Exec(throws, entered) == Outcome(entered, true);
      assert Meaning(throws, s.db, false) == Result(s.db, false, true);
      QuietDoesNothing(next, throws, entered);
    } else {
      QuietDoesNothing(inner, End, entered);
      assert entered.savepoints[..|s.savepoints|] == s.savepoints;
      FailingLeavesSavepoint(next, name, s);
    }
  }

  /** The ignored block rolls back to the savepoint its failed inner block left, and so keeps what it added. */
  lemma SameNameLosesRollback(n: string, inner: Nest, s: Session<int>)
    requires n in TopNames(inner) && !s.aborted
    ensures var o := ExecStmt(Ignored(n, AddThenFail(inner, n)), s);
      && !o.threw && !o.session.aborted && o.session.db == s.db + 1 && s.savepoints <= o.session.savepoints
    ensures MeaningOf(Ignored(n, AddThenFail(inner, n)), s.db, false) == Result(s.db, false, false)
  {
    var entered := Savepoint(s, n).session;
    var added := entered.(db := s.db + 1);
    var points := added.savepoints + [(n, s.db + 1)];
    FailingLeavesSavepoint(inner, n, added);
    IgnoredBlock(n, AddThenFail(inner, n), s);
    assert Exec(AddThenFail(inner, n), entered) == Outcome(added.(savepoints := points), true);
    assert Meaning(AddThenFail(inner, n), s.db, false) == Result(s.db + 1, false, true);
    assert LastNamed(points, n) == |points| - 1;
    assert points[..|points|] == points;
  }

  lemma {:induction false} SpoilerLosesRollback(nest: Nest, s: Session<int>)
    requires !Safe(nest) && !s.aborted
    ensures var o := Exec(Spoiler(nest), s);
      && !o.threw && !o.session.aborted && o.session.db == s.db + 1 && s.savepoints <= o.session.savepoints
    ensures Meaning(Spoiler(nest), s.db, false) == Result(s.db, false, false)
  {
    var Node(n, inner, next) := nest;
    var entered := Savepoint(s, n).session;
    if n in TopNames(inner) {
      SameNameLosesRollback(n, inner, s);
      var after := ExecStmt(Ignored(n, AddThenFail(inner, n)), s).session;
      QuietDoesNothing(next, End, after);
      QuietDoesNothing(next, End, s);
    } else if !Safe(inner) {
      SpoilerLosesRollback(inner, entered);
      SpoiledBlock(n, inner, s);
      QuietDoesNothing(next, End, ExecStmt(Block(n, Spoiler(inner)), s).session);
      QuietDoesNothing(next, End, s);
    } else {
      QuietDoesNothing(inner, End, entered);
      assert LastNamed(entered.savepoints, n) == |s.savepoints|;
      assert entered.savepoints[..|s.savepoints|] == s.savepoints;
      SpoilerLosesRollback(next, s);
    }
  }

  lemma SpoiledBlock(n: string, inner: Nest, s: Session<int>)
    requires !s.aborted
    requires var o := Exec(Spoiler(inner), Savepoint(s, n).session);
      && !o.threw && !o.session.aborted && o.session.db == s.db + 1
      && Savepoint(s, n).session.savepoints <= o.session.savepoints
    ensures var o := ExecStmt(Block(n, Spoiler(inner)), s);
      && !o.threw && !o.session.aborted && o.session.db == s.db + 1 && s.savepoints <= o.session.savepoints
  {
    var points := Exec(Spoiler(inner), Savepoint(s, n).session).session.savepoints;
    assert points[|s.savepoints|].0 == n;
    assert LastNamed(points, n) >= |s.savepoints|;
  }

  /**
   The condition is exact: for every nest with a block directly inside a block of its own name there
   is a callback with those blocks that commits something other than what it means.
   */
  lemma UnsafeNamesBreakBigStep(nest: Nest, db: int)
    requires !Safe(nest)
    ensures NestOf(Spoiler(nest)) == nest
    ensures Committed(Spoiler(nest), db) == db && ExecTransaction(Spoiler(nest), db).0 == db + 1
  {
    NestOfSpoiler(nest);
    SpoilerLosesRollback(nest, Session(db, [], false));
  }

  /** A way of naming blocks is right for every callback exactly when it is safe. */
  lemma BigStepExactlyWhenSafe(nest: Nest)
    ensures Safe(nest) <==> forall code: Code<int>, db: int :: NestOf(code) == nest ==>
      ExecTransaction(code, db) == (Committed(code, db), Meaning(code, db, false).threw)
  {
    if Safe(nest) {
      forall code: Code<int>, db: int | NestOf(code) == nest
        ensures ExecTransaction(code, db) == (Committed(code, db), Meaning(code, db, false).threw)
      {
        SafeNamesGiveBigStep(code, db);
      }
    } else {
      UnsafeNamesBreakBigStep(nest, 0);
    }
  }

  // ---------------------------------------------------------------- the client

  /** A pooled client: its committed database, and its session while a transaction is open. */
  class Client<Db(!new)> {
    var committed: Db
    var db: Db
    var savepoints: seq<(string, Db)>
    var aborted: bool

    constructor (db: Db)
      ensures committed == db
    {
      this.committed := db;
      this.db := db;
      this.savepoints := [];
      this.aborted := false;
    }

    ghost function State(): Session<Db>
      reads this
    {
      Session(db, savepoints, aborted)
    }

    /** Runs a callback against the open transaction. */
    method Run(code: Code<Db>) returns (threw: bool)
      modifies this
      ensures Outcome(State(), threw) == Exec(code, old(State()))
      ensures committed == old(committed)
      decreases code, 0
    {
      match code
      case End => threw := false;
      case Then(stmt, rest) =>
        threw := RunStmt(stmt);
        if !threw {
          threw := Run(rest);
        }
    }

    method RunStmt(stmt: Stmt<Db>) returns (threw: bool)
      modifies this
      ensures Outcome(State(), threw) == ExecStmt(stmt, old(State()))
      ensures committed == old(committed)
      decreases stmt, 0
    {
      match stmt
      case Query(effect) =>
        threw := aborted;
        if !aborted {
          db := effect(db);
        }
      case BadQuery =>
        aborted := true;
        threw := true;
      case Throw =>
        threw := true;
      case Try(body) =>
        var _ := Run(body);
        threw := false;
      case Block(name, body) =>
        threw := WithSavepoint(name, body);
    }

    method WithSavepoint(name: string, body: Code<Db>) returns (threw: bool)
      modifies this
      ensures Outcome(State(), threw) == ExecStmt(Block(name, body), old(State()))
      ensures Safe(NestOfStmt(Block(name, body))) ==>
        Result(db, aborted, threw) == MeaningOf(Block(name, body), old(db), old(aborted))
      ensures committed == old(committed)
      decreases body, 1
    {
      if Safe(NestOfStmt(Block(name, body))) {
        StmtMatchesMeaning(Block(name, body), State());
      }
      if aborted {
        return true;
      }
      savepoints := savepoints + [(name, db)];
      threw := Run(body);
      if !threw {
        var i := LastNamed(savepoints, name);
        if aborted || i < 0 {
          aborted := true;
          threw := true;
        } else {
          savepoints := savepoints[..i];
        }
      }
      if threw {
        var i := LastNamed(savepoints, name);
        if i < 0 {
          aborted := true;
        } else {
          db, savepoints, aborted := savepoints[i].1, savepoints[..i + 1], false;
        }
      }
    }

    /** BEGIN, the callback, then COMMIT or ROLLBACK; a COMMIT of an aborted transaction rolls back. */
    method WithTransaction(code: Code<Db>) returns (threw: bool)
      modifies this
      ensures (committed, threw) == ExecTransaction(code, old(committed))
      ensures Safe(NestOf(code)) ==>
        committed == Committed(code, old(committed)) && threw == Meaning(code, old(committed), false).threw
    {
      if Safe(NestOf(code)) {
        SafeNamesGiveBigStep(code, committed);
      }
      db, savepoints, aborted := committed, [], false;
      threw := Run(code);
      if !threw && !aborted {
        committed := db;
      }
      db, savepoints, aborted := committed, [], false;
    }
  }
}
