/**
 The browser's authentication session: one access token, one shared refresh, and a terminated flag.
 Every function runs to its next `await` without interruption; what follows an `await` is a step of
 its own. Promises are numbered in the order `refreshAuthSession` creates them.
 */
module AuthSession {
  import opened Options

  type Token = nat
  type PromiseId = nat

  /** A refresh promise: its request on the wire, its answer handled, or its `finally` run. None is a rejection. */
  datatype Phase = InFlight | Answered(result: Option<Token>) | Finished(result: Option<Token>)

  /** `rounds` counts how often the termination listeners have run since the last login. */
  datatype Session = Session(
    token: Option<Token>,
    refresh: Option<PromiseId>,
    promises: seq<Phase>,
    terminated: bool,
    rounds: nat)

  function Establish(s: Session, token: Token): Session {
    s.(terminated := false, token := Some(token), rounds := 0)
  }

  function Clear(s: Session): Session {
    s.(token := None)
  }

  function Terminate(s: Session): Session {
    if s.terminated then s else s.(terminated := true, token := None, rounds := s.rounds + 1)
  }

  /** A logout runs the listeners whether or not the session had ended. */
  function Revoke(s: Session): Session {
    s.(terminated := true, token := None, rounds := s.rounds + 1)
  }

  /** Joins the shared refresh or starts one. */
  function Refresh(s: Session): (r: (Session, PromiseId)) {
    match s.refresh
    case Some(p) => (s, p)
    case None => (s.(refresh := Some(|s.promises|), promises := s.promises + [InFlight]), |s.promises|)
  }

  /** The answer to a refresh request: a token, or None for a failure. It is refused after termination. */
  function Answer(s: Session, p: PromiseId, answer: Option<Token>): Session
    requires p < |s.promises| && s.promises[p] == InFlight
  {
    if answer.None? || s.terminated then s.(promises := s.promises[p := Answered(None)])
    else s.(token := answer, promises := s.promises[p := Answered(answer)])
  }

  function Finish(s: Session, p: PromiseId): Session
    requires p < |s.promises| && s.promises[p].Answered?
  {
    s.(refresh := None, promises := s.promises[p := Finished(s.promises[p].result)])
  }

  /** The module variables and the functions that assign them. */
  class Store {
    var accessToken: Option<Token>
    var refreshPromise: Option<PromiseId>
    var promises: seq<Phase>
    var sessionTerminated: bool
    ghost var rounds: nat

    constructor ()
      ensures State() == INITIAL
    {
      accessToken, refreshPromise, promises, sessionTerminated, rounds := None, None, [], false, 0;
    }

    ghost function State(): Session
      reads this
    {
      Session(accessToken, refreshPromise, promises, sessionTerminated, rounds)
    }

    method EstablishAuthSession(token: Token)
      modifies this
      ensures State() == Establish(old(State()), token)
    {
      sessionTerminated := false;
      accessToken := Some(token);
      rounds := 0;
    }

    method ClearAuthSession()
      modifies this
      ensures State() == Clear(old(State()))
    {
      accessToken := None;
    }

    /** Returns whether the termination listeners ran. */
    method TerminateAuthSession() returns (notified: bool)
      modifies this
      ensures State() == Terminate(old(State()))
      ensures notified <==> !old(sessionTerminated)
    {
      if sessionTerminated {
        return false;
      }
      sessionTerminated := true;
      ClearAuthSession();
      rounds := rounds + 1;
      return true;
    }

    method RevokeAuthSession()
      modifies this
      ensures State() == Revoke(old(State()))
    {
      sessionTerminated := true;
      ClearAuthSession();
      rounds := rounds + 1;
    }

    method RefreshAuthSession() returns (p: PromiseId)
      modifies this
      ensures (State(), p) == Refresh(old(State()))
    {
      if refreshPromise.None? {
        refreshPromise := Some(|promises|);
        promises := promises + [InFlight];
      }
      p := refreshPromise.value;
    }

    /** The `then` handler of a refresh request. */
    method OnAnswer(p: PromiseId, answer: Option<Token>)
      requires p < |promises| && promises[p] == InFlight
      modifies this
      ensures State() == Answer(old(State()), p, answer)
    {
      if answer.None? || sessionTerminated {
        promises := promises[p := Answered(None)];
      } else {
        accessToken := answer;
        promises := promises[p := Answered(answer)];
      }
    }

    /** The `finally` handler. */
    method OnFinally(p: PromiseId)
      requires p < |promises| && promises[p].Answered?
      modifies this
      ensures State() == Finish(old(State()), p)
    {
      refreshPromise := None;
      promises := promises[p := Finished(promises[p].result)];
    }
  }

  const INITIAL := Session(None, None, [], false, 0)

  // ---------------------------------------------------------------- requests and the interceptor

  type RequestId = nat

  datatype Pc = OnWire | Waiting(promise: PromiseId) | Succeeded | Rejected

  /** `attempted` is the flag on the request's config; `skips` its header that turns the handling off. */
  datatype Request = Request(pc: Pc, sends: nat, attempted: bool, skips: bool)

  datatype Reply = Success | Unauthorized(sessionRequired: bool, hasConfig: bool) | OtherError

  datatype App = App(session: Session, requests: map<RequestId, Request>)

  datatype Step =
    | Login(token: Token)
    | Logout
    | TerminateNow
    | ClearNow
    | RefreshNow
    | AnswerArrives(p: PromiseId, answer: Option<Token>)
    | FinallyRuns(p: PromiseId)
    | Send(id: RequestId, skips: bool)
    | Receive(id: RequestId, reply: Reply)
    | Resume(id: RequestId)

  function WithRequest(a: App, s: Session, id: RequestId, r: Request): App {
    App(s, a.requests[id := r])
  }

  /** The response interceptor up to its first `await`. */
  function Intercept(a: App, id: RequestId, reply: Reply): App
    requires id in a.requests
  {
    var r := a.requests[id];
    match reply
    case Success => WithRequest(a, a.session, id, r.(pc := Succeeded))
    case OtherError => WithRequest(a, a.session, id, r.(pc := Rejected))
    case Unauthorized(sessionRequired, hasConfig) =>
      if hasConfig && r.skips then WithRequest(a, a.session, id, r.(pc := Rejected))
      else if sessionRequired || (hasConfig && r.attempted) || a.session.terminated then
        WithRequest(a, Terminate(a.session), id, r.(pc := Rejected))
      else if hasConfig && a.session.token.Some? then
        var (s, p) := Refresh(a.session);
        WithRequest(a, s, id, r.(pc := Waiting(p), attempted := true))
      else WithRequest(a, a.session, id, r.(pc := Rejected))
  }

  /** The interceptor after its refresh: replay the request, or terminate the session. */
  function Replay(a: App, id: RequestId, result: Option<Token>): App
    requires id in a.requests
  {
    var r := a.requests[id];
    if result.Some? then WithRequest(a, a.session, id, r.(pc := OnWire, sends := r.sends + 1))
    else WithRequest(a, Terminate(a.session), id, r.(pc := Rejected))
  }

  function Next(a: App, step: Step): App {
    var s := a.session;
    match step
    case Login(token) => a.(session := Establish(s, token))
    case Logout => a.(session := Revoke(s))
    case TerminateNow => a.(session := Terminate(s))
    case ClearNow => a.(session := Clear(s))
    case RefreshNow => a.(session := Refresh(s).0)
    case AnswerArrives(p, answer) =>
      if p < |s.promises| && s.promises[p] == InFlight then a.(session := Answer(s, p, answer)) else a
    case FinallyRuns(p) =>
      if p < |s.promises| && s.promises[p].Answered? then a.(session := Finish(s, p)) else a
    case Send(id, skips) =>
      if id in a.requests then a else WithRequest(a, s, id, Request(OnWire, 1, false, skips))
    case Receive(id, reply) =>
      if id in a.requests && a.requests[id].pc.OnWire? then Intercept(a, id, reply) else a
    case Resume(id) =>
      if id in a.requests && a.requests[id].pc.Waiting? && a.requests[id].pc.promise < |s.promises|
         && s.promises[a.requests[id].pc.promise].Finished?
      then Replay(a, id, s.promises[a.requests[id].pc.promise].result) else a
  }

  function Run(a: App, steps: seq<Step>): App {
    if steps == [] then a else Next(Run(a, steps[..|steps| - 1]), steps[|steps| - 1])
  }

  const START := App(INITIAL, map[])

  // ---------------------------------------------------------------- invariant

  ghost predicate SessionOk(s: Session) {
    && (s.terminated ==> s.token == None)
    && (s.refresh.Some? ==> s.refresh.value < |s.promises|)
    && (forall p :: 0 <= p < |s.promises| ==> (s.promises[p].Finished? <==> s.refresh != Some(p)))
    && (s.rounds > 0 <==> s.terminated)
  }

  ghost predicate RequestOk(r: Request, promises: seq<Phase>) {
    match r.pc
    case OnWire => r.sends == if r.attempted then 2 else 1
    case Waiting(p) => r.sends == 1 && r.attempted && p < |promises|
    case _ => 1 <= r.sends <= 2
  }

  ghost predicate Inv(a: App) {
    SessionOk(a.session) && forall id :: id in a.requests ==> RequestOk(a.requests[id], a.session.promises)
  }

  /** The steps of the session keep its promises apart, whoever calls them. */
  lemma SessionStepsKeep(s: Session, token: Token, p: PromiseId, answer: Option<Token>)
    requires SessionOk(s)
    ensures SessionOk(Establish(s, token)) && SessionOk(Clear(s)) && SessionOk(Terminate(s)) && SessionOk(Revoke(s))
    ensures SessionOk(Refresh(s).0)
    ensures p < |s.promises| && s.promises[p] == InFlight ==> SessionOk(Answer(s, p, answer))
    ensures p < |s.promises| && s.promises[p].Answered? ==> SessionOk(Finish(s, p))
  {
  }

  lemma InterceptKeepsInv(a: App, id: RequestId, reply: Reply)
    requires Inv(a) && id in a.requests && a.requests[id].pc.OnWire?
    ensures Inv(Intercept(a, id, reply))
  {
    assert RequestOk(a.requests[id], a.session.promises);
    SessionStepsKeep(a.session, 0, 0, None);
  }

  /**
   A request whose config is missing has no attempt flag to read; it can then not have been replayed,
   because a replay is made from its config.
   */
  lemma NextKeepsInv(a: App, step: Step)
    requires Inv(a)
    ensures Inv(Next(a, step))
  {
    var token, p, answer := if step.Login? then step.token else 0,
      (if step.AnswerArrives? || step.FinallyRuns? then step.p else 0), if step.AnswerArrives? then step.answer else None;
    SessionStepsKeep(a.session, token, p, answer);
    match step
    case Receive(id, reply) => if id in a.requests && a.requests[id].pc.OnWire? { InterceptKeepsInv(a, id, reply); }
    case Resume(id) =>
      if id in a.requests {
        assert RequestOk(a.requests[id], a.session.promises);
        SessionStepsKeep(a.session, 0, 0, None);
      }
    case _ =>
  }

  lemma {:induction false} RunKeepsInv(steps: seq<Step>)
    ensures Inv(Run(START, steps))
  {
    if steps != [] {
      RunKeepsInv(steps[..|steps| - 1]);
      NextKeepsInv(Run(START, steps[..|steps| - 1]), steps[|steps| - 1]);
    }
  }

  /** In every interleaving at most one refresh request is on the wire, and it is the shared one. */
  lemma OneRefreshOutstanding(steps: seq<Step>, p: PromiseId, r: PromiseId)
    requires var s := Run(START, steps).session;
      p < |s.promises| && r < |s.promises| && s.promises[p] == InFlight && s.promises[r] == InFlight
    ensures p == r && Run(START, steps).session.refresh == Some(p)
  {
    RunKeepsInv(steps);
  }

  /** Every request is sent at most twice. */
  lemma SentAtMostTwice(steps: seq<Step>, id: RequestId)
    requires id in Run(START, steps).requests
    ensures 1 <= Run(START, steps).requests[id].sends <= 2
  {
    RunKeepsInv(steps);
    assert RequestOk(Run(START, steps).requests[id], Run(START, steps).session.promises);
  }

  // ---------------------------------------------------------------- listeners

  function LogoutsSinceLogin(steps: seq<Step>): nat {
    if steps == [] || steps[|steps| - 1].Login? then 0
    else LogoutsSinceLogin(steps[..|steps| - 1]) + if steps[|steps| - 1].Logout? then 1 else 0
  }

  /** Since the last login the session has ended, and not by a logout first. */
  function EndedByTermination(steps: seq<Step>): bool {
    if steps == [] || steps[|steps| - 1].Login? then false
    else
      var before := Run(START, steps[..|steps| - 1]).session;
      if before.terminated then EndedByTermination(steps[..|steps| - 1])
      else Run(START, steps).session.terminated && !steps[|steps| - 1].Logout?
  }

  /** Since the last login there was a logout of a session that had already ended. */
  ghost predicate LogoutAfterEnding(steps: seq<Step>) {
    exists j :: 0 <= j < |steps| && steps[j].Logout? && EndedBefore(steps, j)
  }

  ghost predicate EndedBefore(steps: seq<Step>, j: nat)
    requires j < |steps|
  {
    Run(START, steps[..j]).session.terminated && forall k :: j < k < |steps| ==> !steps[k].Login?
  }

  lemma EndedBeforeSnoc(steps: seq<Step>, last: Step)
    ensures LogoutAfterEnding(steps + [last]) <==>
      !last.Login? && (LogoutAfterEnding(steps) || (last.Logout? && Run(START, steps).session.terminated))
  {
    var now := steps + [last];
    forall j | 0 <= j < |steps|
      ensures EndedBefore(now, j) <==> EndedBefore(steps, j) && !last.Login?
    {
      assert now[..j] == steps[..j];
      assert now[|steps|] == last && forall k :: 0 <= k < |steps| ==> now[k] == steps[k];
    }
    assert now[..|steps|] == steps;
    assert EndedBefore(now, |steps|) <==> Run(START, steps).session.terminated;
    if LogoutAfterEnding(steps) {
      var j :| 0 <= j < |steps| && steps[j].Logout? && EndedBefore(steps, j);
      assert now[j].Logout?;
    }
  }

  /**
   How often the listeners run between logins: once for every logout, and once more if something else
   ended the session first. So it is at most once exactly when no logout follows an earlier ending.
   */
  lemma {:induction false} ListenerRounds(steps: seq<Step>)
    ensures var s := Run(START, steps).session;
      && s.rounds == LogoutsSinceLogin(steps) + (if EndedByTermination(steps) then 1 else 0)
      && (s.terminated <==> s.rounds > 0)
      && (s.rounds <= 1 <==> !LogoutAfterEnding(steps))
  {
    if steps != [] {
      var before, last := steps[..|steps| - 1], steps[|steps| - 1];
      ListenerRounds(before);
      EndedBeforeSnoc(before, last);
      assert steps == before + [last];
      RoundsOfStep(Run(START, before), last);
    }
  }

  lemma RoundsOfStep(a: App, step: Step)
    ensures var s, s' := a.session, Next(a, step).session;
      && (step.Login? ==> s'.rounds == 0 && !s'.terminated)
      && (step.Logout? ==> s'.rounds == s.rounds + 1 && s'.terminated)
      && (!step.Login? && !step.Logout? ==>
            (s.terminated ==> s'.terminated) && s'.rounds == s.rounds + if s'.terminated && !s.terminated then 1 else 0)
  {
  }

  lemma {:induction false} StaysTerminated(a: App, steps: seq<Step>)
    requires a.session.terminated && forall i :: 0 <= i < |steps| ==> !steps[i].Login?
    ensures Run(a, steps).session.terminated
    ensures a.session.token == None ==> Run(a, steps).session.token == None
  {
    if steps != [] {
      StaysTerminated(a, steps[..|steps| - 1]);
    }
  }

  lemma {:induction false} RunOfConcat(a: App, first: seq<Step>, second: seq<Step>)
    ensures Run(a, first + second) == Run(Run(a, first), second)
  {
    if second == [] {
      assert first + second == first;
    } else {
      RunOfConcat(a, first, second[..|second| - 1]);
      assert (first + second)[..|first + second| - 1] == first + second[..|second| - 1];
    }
  }

  /**
   Once the session is terminated, by the interceptor, a caller or a logout, the access token stays
   null until the next login, whatever refreshes were in flight and whatever requests are answered.
   */
  lemma TokenStaysNullUntilLogin(before: seq<Step>, after: seq<Step>)
    requires Run(START, before).session.terminated
    requires forall i :: 0 <= i < |after| ==> !after[i].Login?
    ensures Run(START, before + after).session.token == None
    ensures Run(START, before + after).session.terminated
  {
    RunKeepsInv(before);
    RunOfConcat(START, before, after);
    StaysTerminated(Run(START, before), after);
  }

  /**
   A request that is answered 401 a second time, or whose refresh failed, ends the session, and is
   rejected; it is not sent again.
   */
  lemma UnauthorizedTwiceEndsSession(steps: seq<Step>, id: RequestId, sessionRequired: bool)
    requires id in Run(START, steps).requests
    ensures var a := Run(START, steps);
      var r := a.requests[id];
      var answered := Next(a, Receive(id, Unauthorized(sessionRequired, true)));
      r.pc.OnWire? && r.sends == 2 && !r.skips ==>
        answered.session.terminated && answered.requests[id] == r.(pc := Rejected)
    ensures var a := Run(START, steps);
      var r := a.requests[id];
      r.pc.Waiting? ==>
        && r.pc.promise < |a.session.promises|
        && (a.session.promises[r.pc.promise] == Finished(None) ==>
              Next(a, Resume(id)).session.terminated && Next(a, Resume(id)).requests[id].pc == Rejected)
        && (a.session.promises[r.pc.promise].Finished? && a.session.promises[r.pc.promise].result.Some? ==>
              Next(a, Resume(id)).requests[id] == r.(pc := OnWire, sends := 2))
  {
    RunKeepsInv(steps);
    assert RequestOk(Run(START, steps).requests[id], Run(START, steps).session.promises);
  }

  /**
   A first 401 with a token held: the token and the session stay as they are, and the request waits for the
   shared refresh, which is begun if none is under way.
   */
  lemma FirstUnauthorizedWaits(steps: seq<Step>, id: RequestId)
    requires id in Run(START, steps).requests
    requires var a := Run(START, steps);
      a.requests[id].pc.OnWire? && a.requests[id].sends == 1 && !a.requests[id].skips && a.session.token.Some?
    ensures var a, b := Run(START, steps), Next(Run(START, steps), Receive(id, Unauthorized(false, true)));
      && b.session.token == a.session.token && !b.session.terminated && b.session.refresh.Some?
      && b.requests[id].pc == Waiting(b.session.refresh.value) && b.requests[id].sends == 1
      && (forall r :: r in a.requests && r != id ==> r in b.requests && b.requests[r] == a.requests[r])
      && (if a.session.refresh.Some? then b.session == a.session
          else |b.session.promises| == |a.session.promises| + 1 && b.session.promises[b.session.refresh.value] == InFlight)
  {
    RunKeepsInv(steps);
    assert RequestOk(Run(START, steps).requests[id], Run(START, steps).session.promises);
  }

  /**
   The whole path of a request that is answered 401 once, no refresh being under way: the refresh brings a
   token, the request is sent a second time and succeeds, and the new token is held.
   */
  lemma RefreshedRequestSucceeds(a: App, id: RequestId, t: Token)
    requires Inv(a) && id in a.requests && a.session.token.Some? && a.session.refresh.None?
    requires a.requests[id].pc.OnWire? && a.requests[id].sends == 1 && !a.requests[id].skips
    ensures var p := |a.session.promises|;
      var waits := Next(a, Receive(id, Unauthorized(false, true)));
      var refreshed := Next(Next(waits, AnswerArrives(p, Some(t))), FinallyRuns(p));
      var replayed := Next(refreshed, Resume(id));
      var done := Next(replayed, Receive(id, Success));
      && refreshed.session.token == Some(t) && refreshed.session.refresh == None
      && replayed.requests[id].pc == OnWire && replayed.requests[id].sends == 2
      && done.requests[id].pc == Succeeded && done.requests[id].sends == 2 && done.session == refreshed.session
  {
    assert RequestOk(a.requests[id], a.session.promises);
  }

  /** Every other answer ends its request and touches no other; which of them end the session. */
  lemma OtherAnswers(a: App, id: RequestId, sessionRequired: bool, hasConfig: bool)
    requires id in a.requests && a.requests[id].pc.OnWire?
    ensures Next(a, Receive(id, Success)) == App(a.session, a.requests[id := a.requests[id].(pc := Succeeded)])
    ensures Next(a, Receive(id, OtherError)) == App(a.session, a.requests[id := a.requests[id].(pc := Rejected)])
    ensures hasConfig && a.requests[id].skips ==>
      Next(a, Receive(id, Unauthorized(sessionRequired, hasConfig))) == Next(a, Receive(id, OtherError))
    ensures !(hasConfig && a.requests[id].skips) && (sessionRequired || a.session.terminated) ==>
      var b := Next(a, Receive(id, Unauthorized(sessionRequired, hasConfig)));
      b.session.terminated && b.requests == Next(a, Receive(id, OtherError)).requests
    ensures !sessionRequired && !a.session.terminated && (!hasConfig || a.session.token.None?) && !a.requests[id].attempted ==>
      Next(a, Receive(id, Unauthorized(sessionRequired, hasConfig))) == Next(a, Receive(id, OtherError))
  {
  }

  /** A new request is sent once; terminating ends the session whoever calls for it. */
  lemma SendsOnce(a: App, id: RequestId, skips: bool)
    ensures id !in a.requests ==>
      Next(a, Send(id, skips)) == App(a.session, a.requests[id := Request(OnWire, 1, false, skips)])
    ensures Next(a, TerminateNow).session.terminated && Next(a, TerminateNow).requests == a.requests
    ensures !a.session.terminated ==> Next(a, TerminateNow).session.token == None
  {
  }

  /** A failed refresh brings no token, and clearing the session forgets the one there is and nothing else. */
  lemma TokenlessSteps(a: App, p: PromiseId)
    ensures Next(a, ClearNow).session == a.session.(token := None) && Next(a, ClearNow).requests == a.requests
    ensures p < |a.session.promises| && a.session.promises[p] == InFlight ==>
      var b := Next(a, AnswerArrives(p, None));
      b.session.promises[p] == Answered(None) && b.session.token == a.session.token && b.requests == a.requests
  {
  }

  lemma RunOfSnoc(a: App, steps: seq<Step>, last: Step)
    ensures Run(a, steps + [last]) == Next(Run(a, steps), last)
  {
    assert (steps + [last])[..|steps|] == steps;
  }

  // ---------------------------------------------------------------- a login against older refreshes

  ghost predicate NoneOnWire(promises: seq<Phase>) {
    forall p :: 0 <= p < |promises| ==> promises[p] != InFlight
  }

  ghost predicate NoLogin(steps: seq<Step>) {
    forall i :: 0 <= i < |steps| ==> !steps[i].Login?
  }

  /** Promise `p` has brought the token `t`. */
  predicate Brought(promises: seq<Phase>, p: nat, t: Token) {
    p < |promises| && !promises[p].InFlight? && promises[p].result == Some(t)
  }

  /** The token is none, the login's own, or one that a refresh begun since (from `n` on) has brought. */
  ghost predicate KeepsLogin(s: Session, n: nat, t: Token) {
    s.token == None || s.token == Some(t) || exists p :: n <= p && Brought(s.promises, p, s.token.value)
  }

  /** The first `n` promises are past their answers. */
  ghost predicate OldAnswered(s: Session, n: nat) {
    n <= |s.promises| && forall p :: 0 <= p < n ==> s.promises[p] != InFlight
  }

  lemma SessionStepKeepsLogin(s: Session, s': Session, n: nat, t: Token)
    requires OldAnswered(s, n) && KeepsLogin(s, n, t)
    requires |s.promises| <= |s'.promises|
    requires forall p :: 0 <= p < |s.promises| && s.promises[p] != InFlight ==>
      s'.promises[p] != InFlight && s'.promises[p].result == s.promises[p].result
    requires s'.token == None || s'.token == s.token || exists p :: n <= p && Brought(s'.promises, p, s'.token.value)
    ensures OldAnswered(s', n) && KeepsLogin(s', n, t)
  {
    if s'.token == s.token && s.token.Some? && s.token != Some(t) {
      var p :| n <= p && Brought(s.promises, p, s.token.value);
      assert Brought(s'.promises, p, s.token.value);
    }
  }

  lemma StepKeepsLogin(a: App, step: Step, n: nat, t: Token)
    requires OldAnswered(a.session, n) && KeepsLogin(a.session, n, t) && !step.Login?
    ensures OldAnswered(Next(a, step).session, n) && KeepsLogin(Next(a, step).session, n, t)
  {
    var s, s' := a.session, Next(a, step).session;
    if step.AnswerArrives? && s'.token != s.token {
      assert s'.token.Some? ==> Brought(s'.promises, step.p, s'.token.value);
    }
    SessionStepKeepsLogin(s, s', n, t);
  }

  lemma {:induction false} RunKeepsLogin(a: App, steps: seq<Step>, n: nat, t: Token)
    requires OldAnswered(a.session, n) && KeepsLogin(a.session, n, t) && NoLogin(steps)
    ensures OldAnswered(Run(a, steps).session, n) && KeepsLogin(Run(a, steps).session, n, t)
  {
    if steps != [] {
      RunKeepsLogin(a, steps[..|steps| - 1], n, t);
      StepKeepsLogin(Run(a, steps[..|steps| - 1]), steps[|steps| - 1], n, t);
    }
  }

  /** With no refresh on the wire at the login, its token is kept in every continuation. */
  lemma LoginKept(a: App, t: Token, after: seq<Step>)
    requires NoneOnWire(a.session.promises) && NoLogin(after)
    ensures KeepsLogin(Run(Next(a, Login(t)), after).session, |a.session.promises|, t)
  {
    RunKeepsLogin(Next(a, Login(t)), after, |a.session.promises|, t);
  }

  /** A refresh on the wire at the login can replace its token in one step. */
  lemma StaleAnswerReplaces(a: App, t: Token, p: PromiseId)
    requires p < |a.session.promises| && a.session.promises[p] == InFlight
    ensures NoLogin([AnswerArrives(p, Some(t + 1))])
    ensures !KeepsLogin(Run(Next(a, Login(t)), [AnswerArrives(p, Some(t + 1))]).session, |a.session.promises|, t)
  {
    var login, stale := Next(a, Login(t)), AnswerArrives(p, Some(t + 1));
    RunOfSnoc(login, [], stale);
    assert [] + [stale] == [stale];
    StaleAnswerIsNotKept(login.session, p, t);
  }

  lemma StaleAnswerIsNotKept(s: Session, p: PromiseId, t: Token)
    requires p < |s.promises| && s.promises[p] == InFlight && !s.terminated
    ensures !KeepsLogin(Answer(s, p, Some(t + 1)), |s.promises|, t)
  {
  }

  /** The login's token is kept in every continuation up to the next login. */
  ghost predicate AlwaysKeepsLogin(a: App, t: Token) {
    forall after: seq<Step> :: NoLogin(after) ==>
      KeepsLogin(Run(Next(a, Login(t)), after).session, |a.session.promises|, t)
  }

  /**
   A login's token is safe from older refreshes exactly when none is on the wire at the login: then, until
   the next login, the token is none, the login's, or brought by a refresh begun after the login.
   */
  lemma LoginIsKeptExactlyWhenNoRefreshOnWire(a: App, t: Token)
    ensures NoneOnWire(a.session.promises) <==> AlwaysKeepsLogin(a, t)
  {
    if NoneOnWire(a.session.promises) {
      forall after: seq<Step> | NoLogin(after)
        ensures KeepsLogin(Run(Next(a, Login(t)), after).session, |a.session.promises|, t)
      {
        LoginKept(a, t, after);
      }
    } else {
      var p :| 0 <= p < |a.session.promises| && a.session.promises[p] == InFlight;
      StaleAnswerReplaces(a, t, p);
    }
  }

  /**
   A refresh outlives a logout and the next login, and its late answer replaces the new token.
   */
  lemma LateRefreshReplacesLogin(first: Token, second: Token, stale: Token)
    ensures Run(START, [Login(first), RefreshNow, Logout, Login(second)]).session.token == Some(second)
    ensures Run(START, [Login(first), RefreshNow, Logout, Login(second)] + [AnswerArrives(0, Some(stale))]).session.token ==
      Some(stale)
  {
    RunOfSnoc(START, [], Login(first));
    RunOfSnoc(START, [Login(first)], RefreshNow);
    RunOfSnoc(START, [Login(first), RefreshNow], Logout);
    RunOfSnoc(START, [Login(first), RefreshNow, Logout], Login(second));
    RunOfSnoc(START, [Login(first), RefreshNow, Logout, Login(second)], AnswerArrives(0, Some(stale)));
    assert [] + [Login(first)] == [Login(first)];
    assert [Login(first)] + [RefreshNow] == [Login(first), RefreshNow];
    assert [Login(first), RefreshNow] + [Logout] == [Login(first), RefreshNow, Logout];
    assert [Login(first), RefreshNow, Logout] + [Login(second)] == [Login(first), RefreshNow, Logout, Login(second)];
  }
}
