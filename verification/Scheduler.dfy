/**
 Background jobs. Within a process `JobRunner` skips a tick while the job's previous cycle still runs;
 across processes `withAdvisoryJobLock` takes a PostgreSQL advisory lock, which belongs to a database
 session and counts re-entries.
 */
module Scheduler {
  import opened Options

  type JobName = nat
  type ProcessId = nat
  type SessionId = nat
  type InvocationId = nat
  type LockKey = nat

  // ---------------------------------------------------------------- one process

  /** `inFlight` holds a name once for every cycle of that job between its start and its `finally`. */
  class JobRunner {
    var timers: map<JobName, nat>
    var running: set<JobName>
    ghost var inFlight: multiset<JobName>

    /** The guard is set exactly while one cycle runs, and no two cycles of a name overlap. */
    ghost predicate Valid()
      reads this
    {
      forall n :: inFlight[n] == if n in running then 1 else 0
    }

    constructor ()
      ensures Valid() && timers == map[] && inFlight == multiset{}
    {
      timers, running, inFlight := map[], {}, multiset{};
    }

    method Schedule(name: JobName, timer: nat)
      requires Valid()
      modifies this`timers
      ensures Valid() && timers == old(timers)[name := timer]
    {
      timers := timers[name := timer];
    }

    /** Clears the timers; cycles in flight go on and keep their guards. */
    method Stop()
      requires Valid()
      modifies this`timers
      ensures Valid() && timers == map[]
    {
      timers := map[];
    }

    /** A timer fires, possibly one that `Schedule` has since replaced. */
    method Tick(name: JobName) returns (started: bool)
      requires Valid()
      modifies this`running, this`inFlight
      ensures Valid() && (started <==> old(inFlight)[name] == 0)
      ensures inFlight == if started then old(inFlight) + multiset{name} else old(inFlight)
    {
      if name in running {
        return false;
      }
      running := running + {name};
      inFlight := inFlight + multiset{name};
      return true;
    }

    /** The `finally` of a cycle, after its last attempt. */
    method CycleEnds(name: JobName)
      requires Valid() && name in inFlight
      modifies this`running, this`inFlight
      ensures Valid() && inFlight == old(inFlight) - multiset{name} && inFlight[name] == 0
    {
      running := running - {name};
      inFlight := inFlight - multiset{name};
    }
  }

  // ---------------------------------------------------------------- the advisory lock

  /** Where a call of `withAdvisoryJobLock` is. Only `Inside` executes the job. */
  datatype Pc = Connected | Acquired | Inside | Unlocking | Returned

  /** `lost` says that the database session was closed under the call: its remaining statements fail. */
  datatype Invocation = Invocation(job: JobName, process: ProcessId, session: SessionId, pc: Pc, lost: bool)

  datatype RunStatus = Running | Succeeded | Failed

  datatype JobRun = JobRun(owner: ProcessId, status: RunStatus)

  /** `held` counts acquisitions per session and lock; `leaked` counts the unlocks that failed. */
  datatype Sys = Sys(
    calls: map<InvocationId, Invocation>,
    held: map<(SessionId, LockKey), nat>,
    leaked: map<(SessionId, LockKey), nat>,
    runs: map<JobName, JobRun>)

  datatype Step =
    | Connect(id: InvocationId, job: JobName, process: ProcessId, session: SessionId)
    | TryLock(id: InvocationId)
    | Register(id: InvocationId, ok: bool)
    | RunEnds(id: InvocationId, ok: bool)
    | RunEndsUnrecorded(id: InvocationId)
    | Unlock(id: InvocationId, ok: bool)
    | Disconnect(session: SessionId)

  function Count(m: map<(SessionId, LockKey), nat>, s: SessionId, k: LockKey): nat {
    if (s, k) in m then m[(s, k)] else 0
  }

  /** The session is checked out of its pool. */
  ghost predicate InUse(s: Sys, session: SessionId) {
    exists id :: id in s.calls && s.calls[id].session == session && !s.calls[id].pc.Returned?
  }

  ghost predicate HeldByOther(s: Sys, session: SessionId, k: LockKey) {
    exists o :: (o, k) in s.held && o != session && s.held[(o, k)] > 0
  }

  /** The lock of a job: `hashtext` of its name, which may collide with another job's. */
  type Hash = JobName -> LockKey

  ghost predicate Alive(s: Sys, id: InvocationId) {
    id in s.calls && !s.calls[id].lost
  }

  ghost predicate AtPc(s: Sys, id: InvocationId, pc: Pc) {
    id in s.calls && s.calls[id].pc == pc
  }

  ghost function To(s: Sys, id: InvocationId, pc: Pc): Sys
    requires id in s.calls
  {
    s.(calls := s.calls[id := s.calls[id].(pc := pc)])
  }

  ghost function Next(s: Sys, step: Step, hash: Hash): Sys {
    match step
    case Connect(id, job, process, session) =>
      if id in s.calls || InUse(s, session) then s
      else s.(calls := s.calls[id := Invocation(job, process, session, Connected, false)])
    case TryLock(id) =>
      if !AtPc(s, id, Connected) then s
      else if s.calls[id].lost then To(s, id, Returned)
      else
        var c := s.calls[id];
        var k := hash(c.job);
        if HeldByOther(s, c.session, k) then To(s, id, Returned)
        else To(s, id, Acquired).(held := s.held[(c.session, k) := Count(s.held, c.session, k) + 1])
    case Register(id, ok) =>
      if !AtPc(s, id, Acquired) then s
      else if !ok || s.calls[id].lost then To(s, id, Unlocking)
      else To(s, id, Inside).(runs := s.runs[s.calls[id].job := JobRun(s.calls[id].process, Running)])
    case RunEnds(id, ok) =>
      if !AtPc(s, id, Inside) || s.calls[id].lost then s
      else
        var job := s.calls[id].job;
        if job !in s.runs then To(s, id, Unlocking)
        else To(s, id, Unlocking).(runs :=
          s.runs[job := s.runs[job].(status := if ok then Succeeded else Failed)])
    case RunEndsUnrecorded(id) => if AtPc(s, id, Inside) then To(s, id, Unlocking) else s
    case Unlock(id, ok) =>
      if !AtPc(s, id, Unlocking) then s
      else if s.calls[id].lost then To(s, id, Returned)
      else
        var c := s.calls[id];
        var k := hash(c.job);
        var n := Count(s.held, c.session, k);
        if ok then To(s, id, Returned).(held := s.held[(c.session, k) := if n > 0 then n - 1 else 0])
        else To(s, id, Returned).(leaked := s.leaked[(c.session, k) := Count(s.leaked, c.session, k) + 1])
    case Disconnect(session) =>
      s.(calls := map id | id in s.calls :: Severed(s.calls[id], session),
         held := map p | p in s.held && p.0 != session :: s.held[p],
         leaked := map p | p in s.leaked && p.0 != session :: s.leaked[p])
  }

  function Severed(c: Invocation, session: SessionId): Invocation {
    if c.session == session && !c.pc.Returned? then c.(lost := true) else c
  }

  ghost function RunFrom(s: Sys, steps: seq<Step>, hash: Hash): Sys {
    if steps == [] then s else Next(RunFrom(s, steps[..|steps| - 1], hash), steps[|steps| - 1], hash)
  }

  ghost function Run(steps: seq<Step>, hash: Hash): Sys {
    RunFrom(EMPTY, steps, hash)
  }

  const EMPTY := Sys(map[], map[], map[], map[])

  // ---------------------------------------------------------------- exclusion

  predicate HasLock(c: Invocation) {
    !c.lost && (c.pc == Acquired || c.pc == Inside || c.pc == Unlocking)
  }

  /** Some call has taken lock `k` on `session` and not yet tried to give it back. */
  ghost predicate Holding(s: Sys, hash: Hash, session: SessionId, k: LockKey) {
    exists a :: a in s.calls && HasLock(s.calls[a]) && s.calls[a].session == session && hash(s.calls[a].job) == k
  }

  ghost predicate SessionsApart(s: Sys) {
    forall a, b :: a in s.calls && b in s.calls && a != b && s.calls[a].session == s.calls[b].session ==>
      s.calls[a].pc.Returned? || s.calls[b].pc.Returned?
  }

  /** A lock count is the unlocks that failed on its session, plus one while a call holds it. */
  ghost predicate CountsMatch(s: Sys, hash: Hash) {
    forall x: SessionId, k: LockKey ::
      Count(s.held, x, k) == Count(s.leaked, x, k) + if Holding(s, hash, x, k) then 1 else 0
  }

  ghost predicate LocksExclusive(s: Sys) {
    forall x: SessionId, y: SessionId, k: LockKey ::
      x != y ==> Count(s.held, x, k) == 0 || Count(s.held, y, k) == 0
  }

  /** While a call is inside the job its session lives, and the job's row says so and names its process. */
  ghost predicate RunsMatch(s: Sys) {
    forall a :: AtPc(s, a, Inside) ==>
      Alive(s, a) && s.calls[a].job in s.runs && s.runs[s.calls[a].job] == JobRun(s.calls[a].process, Running)
  }

  ghost predicate Inv(s: Sys, hash: Hash) {
    SessionsApart(s) && CountsMatch(s, hash) && LocksExclusive(s) && RunsMatch(s)
  }

  ghost predicate RunsOn(s: Sys, session: SessionId) {
    exists id :: AtPc(s, id, Inside) && s.calls[id].session == session
  }

  /** A session may be lost at any time, unless a call on it is inside its job. */
  ghost predicate Reliable(s: Sys, step: Step) {
    step.Disconnect? ==> !RunsOn(s, step.session)
  }

  /** At most one call at a time holds a given lock, whichever job it is for. */
  lemma HoldersAreAlone(s: Sys, hash: Hash, a: InvocationId, b: InvocationId)
    requires SessionsApart(s) && CountsMatch(s, hash) && LocksExclusive(s)
    requires a in s.calls && b in s.calls && HasLock(s.calls[a]) && HasLock(s.calls[b])
    requires hash(s.calls[a].job) == hash(s.calls[b].job)
    ensures a == b
  {
    var k, x, y := hash(s.calls[a].job), s.calls[a].session, s.calls[b].session;
    assert Holding(s, hash, x, k) && Holding(s, hash, y, k);
    assert Count(s.held, x, k) > 0 && Count(s.held, y, k) > 0;
  }

  /** Moving a call between stages changes who holds locks only if it gains or gives up its own. */
  lemma HoldingAfter(s: Sys, s': Sys, hash: Hash, id: InvocationId, pc: Pc)
    requires SessionsApart(s) && id in s.calls && !s.calls[id].pc.Returned? && !s.calls[id].lost
    requires s'.calls == s.calls[id := s.calls[id].(pc := pc)]
    ensures SessionsApart(s')
    ensures forall x, k :: Holding(s', hash, x, k) <==>
      if x == s.calls[id].session && k == hash(s.calls[id].job) then HasLock(s'.calls[id])
      else Holding(s, hash, x, k)
  {
    forall x, k
      ensures Holding(s', hash, x, k) <==>
        if x == s.calls[id].session && k == hash(s.calls[id].job) then HasLock(s'.calls[id])
        else Holding(s, hash, x, k)
    {
      assert id in s'.calls;
      if Holding(s', hash, x, k) {
        var a :| a in s'.calls && HasLock(s'.calls[a]) && s'.calls[a].session == x && hash(s'.calls[a].job) == k;
        if a != id { assert a in s.calls && s.calls[a] == s'.calls[a]; }
      }
      if Holding(s, hash, x, k) {
        var a :| a in s.calls && HasLock(s.calls[a]) && s.calls[a].session == x && hash(s.calls[a].job) == k;
        if a != id { assert a in s'.calls && s'.calls[a] == s.calls[a]; }
      }
    }
  }

  lemma ConnectKeepsInv(s: Sys, hash: Hash, id: InvocationId, c: Invocation)
    requires Inv(s, hash) && id !in s.calls && !InUse(s, c.session) && c.pc == Connected && !c.lost
    ensures Inv(s.(calls := s.calls[id := c]), hash)
  {
    var s' := s.(calls := s.calls[id := c]);
    forall x, k
      ensures Holding(s', hash, x, k) <==> Holding(s, hash, x, k)
    {
      if Holding(s, hash, x, k) {
        var a :| a in s.calls && HasLock(s.calls[a]) && s.calls[a].session == x && hash(s.calls[a].job) == k;
        assert a in s'.calls && s'.calls[a] == s.calls[a];
      }
    }
  }

  lemma TryLockKeepsInv(s: Sys, hash: Hash, id: InvocationId)
    requires Inv(s, hash) && AtPc(s, id, Connected) && Alive(s, id)
    ensures Inv(Next(s, TryLock(id), hash), hash)
  {
    var c := s.calls[id];
    if HeldByOther(s, c.session, hash(c.job)) {
      HoldingAfter(s, Next(s, TryLock(id), hash), hash, id, Returned);
    } else {
      FreeLockKeepsInv(s, hash, id);
    }
  }

  lemma FreeLockKeepsInv(s: Sys, hash: Hash, id: InvocationId)
    requires Inv(s, hash) && AtPc(s, id, Connected) && Alive(s, id)
    requires !HeldByOther(s, s.calls[id].session, hash(s.calls[id].job))
    ensures Inv(Next(s, TryLock(id), hash), hash)
  {
    var c, s' := s.calls[id], Next(s, TryLock(id), hash);
    var k := hash(c.job);
    HoldingAfter(s, s', hash, id, Acquired);
    assert !Holding(s, hash, c.session, k);
    forall x | x != c.session
      ensures Count(s.held, x, k) == 0
    {
      assert (x, k) in s.held && s.held[(x, k)] > 0 ==> HeldByOther(s, c.session, k);
    }
  }

  /** A call that goes on holding its lock, with the job's row changed as its stage demands. */
  lemma HolderMoves(s: Sys, s': Sys, hash: Hash, id: InvocationId, pc: Pc)
    requires Inv(s, hash) && id in s.calls && HasLock(s.calls[id])
    requires s'.calls == s.calls[id := s.calls[id].(pc := pc)] && HasLock(s'.calls[id])
    requires s'.held == s.held && s'.leaked == s.leaked
    requires forall j :: j != s.calls[id].job ==> (j in s'.runs <==> j in s.runs) && (j in s.runs ==> s'.runs[j] == s.runs[j])
    requires pc == Inside ==>
      s.calls[id].job in s'.runs && s'.runs[s.calls[id].job] == JobRun(s.calls[id].process, Running)
    ensures Inv(s', hash)
  {
    HoldingAfter(s, s', hash, id, pc);
    forall a | AtPc(s', a, Inside) && a != id
      ensures Alive(s', a) && s'.calls[a].job in s'.runs && s'.runs[s'.calls[a].job] == JobRun(s'.calls[a].process, Running)
    {
      assert AtPc(s, a, Inside);
      if s.calls[a].job == s.calls[id].job { HoldersAreAlone(s, hash, a, id); }
    }
  }

  lemma UnlockKeepsInv(s: Sys, hash: Hash, id: InvocationId, ok: bool)
    requires Inv(s, hash) && AtPc(s, id, Unlocking) && Alive(s, id)
    ensures Inv(Next(s, Unlock(id, ok), hash), hash)
  {
    var c, s' := s.calls[id], Next(s, Unlock(id, ok), hash);
    HoldingAfter(s, s', hash, id, Returned);
    assert Holding(s, hash, c.session, hash(c.job));
  }

  lemma DisconnectKeepsInv(s: Sys, hash: Hash, session: SessionId)
    requires Inv(s, hash) && !RunsOn(s, session)
    ensures Inv(Next(s, Disconnect(session), hash), hash)
  {
    var s' := Next(s, Disconnect(session), hash);
    forall x, k
      ensures Holding(s', hash, x, k) <==> x != session && Holding(s, hash, x, k)
    {
      HoldingAfterDisconnect(s, hash, session, x, k);
    }
    forall a | AtPc(s', a, Inside)
      ensures AtPc(s, a, Inside) && s'.calls[a] == s.calls[a]
    {
      assert AtPc(s, a, Inside);
    }
  }

  lemma HoldingAfterDisconnect(s: Sys, hash: Hash, session: SessionId, x: SessionId, k: LockKey)
    ensures Holding(Next(s, Disconnect(session), hash), hash, x, k) <==> x != session && Holding(s, hash, x, k)
  {
    var s' := Next(s, Disconnect(session), hash);
    if x != session && Holding(s, hash, x, k) {
      var a :| a in s.calls && HasLock(s.calls[a]) && s.calls[a].session == x && hash(s.calls[a].job) == k;
      assert a in s'.calls && s'.calls[a] == s.calls[a];
    }
    if Holding(s', hash, x, k) {
      var a :| a in s'.calls && HasLock(s'.calls[a]) && s'.calls[a].session == x && hash(s'.calls[a].job) == k;
      assert a in s.calls && s'.calls[a] == s.calls[a];
    }
  }

  /** A call whose session is lost holds nothing and runs nothing, whatever stage it goes to. */
  lemma LostMoves(s: Sys, hash: Hash, id: InvocationId, pc: Pc)
    requires Inv(s, hash) && id in s.calls && s.calls[id].lost && !s.calls[id].pc.Returned? && pc != Inside
    ensures Inv(To(s, id, pc), hash)
  {
    var s' := To(s, id, pc);
    forall x, k
      ensures Holding(s', hash, x, k) <==> Holding(s, hash, x, k)
    {
      if Holding(s, hash, x, k) {
        var a :| a in s.calls && HasLock(s.calls[a]) && s.calls[a].session == x && hash(s.calls[a].job) == k;
        assert a in s'.calls && s'.calls[a] == s.calls[a];
      }
    }
    forall a | AtPc(s', a, Inside)
      ensures AtPc(s, a, Inside) && s'.calls[a] == s.calls[a]
    {
    }
  }

  lemma NextKeepsInv(s: Sys, step: Step, hash: Hash)
    requires Inv(s, hash) && Reliable(s, step)
    ensures Inv(Next(s, step, hash), hash)
  {
    match step
    case Connect(id, job, process, session) =>
      if id !in s.calls && !InUse(s, session) {
        ConnectKeepsInv(s, hash, id, Invocation(job, process, session, Connected, false));
      }
    case Disconnect(session) => DisconnectKeepsInv(s, hash, session);
    case _ =>
      if step.id in s.calls && s.calls[step.id].lost {
        LostStepKeepsInv(s, step, hash);
      } else if step.id in s.calls {
        CallStepKeepsInv(s, step, hash);
      }
  }

  lemma LostStepKeepsInv(s: Sys, step: Step, hash: Hash)
    requires Inv(s, hash) && !step.Connect? && !step.Disconnect? && step.id in s.calls && s.calls[step.id].lost
    ensures Inv(Next(s, step, hash), hash)
  {
    var id := step.id;
    assert !AtPc(s, id, Inside);
    if Next(s, step, hash) != s {
      LostMoves(s, hash, id, Next(s, step, hash).calls[id].pc);
    }
  }

  lemma CallStepKeepsInv(s: Sys, step: Step, hash: Hash)
    requires Inv(s, hash) && !step.Connect? && !step.Disconnect? && Alive(s, step.id)
    ensures Inv(Next(s, step, hash), hash)
  {
    match step
    case TryLock(id) => if AtPc(s, id, Connected) { TryLockKeepsInv(s, hash, id); }
    case Register(id, ok) =>
      if AtPc(s, id, Acquired) {
        HolderMoves(s, Next(s, step, hash), hash, id, if ok then Inside else Unlocking);
      }
    case RunEnds(id, ok) =>
      if AtPc(s, id, Inside) { HolderMoves(s, Next(s, step, hash), hash, id, Unlocking); }
    case RunEndsUnrecorded(id) =>
      if AtPc(s, id, Inside) { HolderMoves(s, Next(s, step, hash), hash, id, Unlocking); }
    case Unlock(id, ok) => if AtPc(s, id, Unlocking) { UnlockKeepsInv(s, hash, id, ok); }
  }

  /** No session is lost while a call on it is inside its job. */
  ghost predicate AllReliable(s: Sys, steps: seq<Step>, hash: Hash) {
    forall i :: 0 <= i < |steps| ==> Reliable(RunFrom(s, steps[..i], hash), steps[i])
  }

  lemma {:induction false} RunKeepsInv(s: Sys, steps: seq<Step>, hash: Hash)
    requires Inv(s, hash) && AllReliable(s, steps, hash)
    ensures Inv(RunFrom(s, steps, hash), hash)
  {
    if steps != [] {
      var before := steps[..|steps| - 1];
      forall i | 0 <= i < |before|
        ensures Reliable(RunFrom(s, before[..i], hash), before[i])
      {
        assert before[..i] == steps[..i];
      }
      RunKeepsInv(s, before, hash);
      NextKeepsInv(RunFrom(s, before, hash), steps[|steps| - 1], hash);
    }
  }

  lemma EmptyIsOk(hash: Hash)
    ensures Inv(EMPTY, hash)
  {
  }

  /**
   In every reachable state at most one call is inside `run` per job, over all processes, even when
   unlocks fail and sessions return to the pool holding locks; meanwhile the job's row names it.
   */
  lemma AtMostOneInside(steps: seq<Step>, hash: Hash, a: InvocationId, b: InvocationId)
    requires AllReliable(EMPTY, steps, hash)
    requires AtPc(Run(steps, hash), a, Inside) && AtPc(Run(steps, hash), b, Inside)
    requires Run(steps, hash).calls[a].job == Run(steps, hash).calls[b].job
    ensures a == b
    ensures var s := Run(steps, hash);
      s.calls[a].job in s.runs && s.runs[s.calls[a].job] == JobRun(s.calls[a].process, Running)
  {
    EmptyIsOk(hash);
    RunKeepsInv(EMPTY, steps, hash);
    HoldersAreAlone(Run(steps, hash), hash, a, b);
  }

  /**
   A failed unlock is never made good: the count of a session's lock stays at least the number of
   failures, so no other session can take the lock until that session is closed.
   */
  lemma LeakedLockShutsOthersOut(steps: seq<Step>, hash: Hash, id: InvocationId, session: SessionId)
    requires AllReliable(EMPTY, steps, hash) && AtPc(Run(steps, hash), id, Connected)
    requires var s := Run(steps, hash);
      session != s.calls[id].session && Count(s.leaked, session, hash(s.calls[id].job)) > 0
    ensures Next(Run(steps, hash), TryLock(id), hash) == To(Run(steps, hash), id, Returned)
  {
    EmptyIsOk(hash);
    RunKeepsInv(EMPTY, steps, hash);
    var s := Run(steps, hash);
    var k := hash(s.calls[id].job);
    assert Count(s.held, session, k) > 0;
    assert (session, k) in s.held && s.held[(session, k)] > 0;
    assert HeldByOther(s, s.calls[id].session, k);
  }

  /** A free lock is taken, the job entered and its row opened under the process's name. */
  lemma FreeLockIsTaken(s: Sys, hash: Hash, id: InvocationId)
    requires AtPc(s, id, Connected) && Alive(s, id) && !HeldByOther(s, s.calls[id].session, hash(s.calls[id].job))
    ensures var locked := Next(s, TryLock(id), hash);
      && AtPc(locked, id, Acquired)
      && Count(locked.held, s.calls[id].session, hash(s.calls[id].job)) ==
           Count(s.held, s.calls[id].session, hash(s.calls[id].job)) + 1
      && AtPc(Next(locked, Register(id, true), hash), id, Inside)
      && AtPc(Next(locked, Register(id, false), hash), id, Unlocking)
  {
  }

  /**
   A call inside its job records how it went, `succeeded` or `failed`, and gives its lock back; then the
   lock is held just as often as before the call, and the job's row is no longer running.
   */
  lemma JobRecordsAndUnlocks(s: Sys, hash: Hash, id: InvocationId, ok: bool)
    requires Inv(s, hash) && AtPc(s, id, Inside)
    ensures var c, ended := s.calls[id], Next(s, RunEnds(id, ok), hash);
      var k := hash(c.job);
      var returned := Next(ended, Unlock(id, true), hash);
      && AtPc(ended, id, Unlocking) && c.job in ended.runs && ended.runs[c.job].owner == c.process
      && (ok ==> ended.runs[c.job].status == Succeeded) && (!ok ==> ended.runs[c.job].status == Failed)
      && AtPc(returned, id, Returned) && Count(returned.held, c.session, k) == Count(s.leaked, c.session, k)
      && returned.runs == ended.runs
  {
    assert Holding(s, hash, s.calls[id].session, hash(s.calls[id].job));
  }

  /** An unlock that fails is not noticed: the call returns, and its session goes on holding the lock. */
  lemma FailedUnlockLeaks(s: Sys, hash: Hash, id: InvocationId)
    requires AtPc(s, id, Unlocking) && Alive(s, id)
    ensures var c, returned := s.calls[id], Next(s, Unlock(id, false), hash);
      && AtPc(returned, id, Returned) && returned.held == s.held && returned.runs == s.runs
      && Count(returned.leaked, c.session, hash(c.job)) == Count(s.leaked, c.session, hash(c.job)) + 1
  {
  }

  // ---------------------------------------------------------------- losing a session

  ghost predicate TwoInside(s: Sys) {
    exists a, b :: a != b && AtPc(s, a, Inside) && AtPc(s, b, Inside) && s.calls[a].job == s.calls[b].job
  }

  lemma {:induction false} NumberAbove(ids: set<nat>) returns (n: nat)
    ensures forall i :: i in ids ==> i < n
    decreases ids
  {
    if ids == {} {
      n := 0;
    } else {
      var some :| some in ids;
      var above := NumberAbove(ids - {some});
      n := if some < above then above else some + 1;
      assert forall i :: i in ids ==> i == some || i in ids - {some};
    }
  }

  /** When the session of a call inside its job is lost, a new call of the job gets inside beside it. */
  lemma LostSessionLetsSecondIn(s: Sys, hash: Hash, a: InvocationId, b: InvocationId, y: SessionId)
    requires Inv(s, hash) && AtPc(s, a, Inside) && b !in s.calls && !InUse(s, y)
    ensures var lost := Next(s, Disconnect(s.calls[a].session), hash);
      var connected := Next(lost, Connect(b, s.calls[a].job, s.calls[a].process, y), hash);
      var entered := Next(Next(connected, TryLock(b), hash), Register(b, true), hash);
      TwoInside(entered)
  {
    var x, k := s.calls[a].session, hash(s.calls[a].job);
    var lost := Next(s, Disconnect(x), hash);
    assert forall i :: i in lost.calls ==>
      i in s.calls && lost.calls[i].session == s.calls[i].session && lost.calls[i].pc == s.calls[i].pc;
    assert !InUse(lost, y);
    var connected := Next(lost, Connect(b, s.calls[a].job, s.calls[a].process, y), hash);
    LockIsFree(s, hash, a);
    assert !HeldByOther(connected, y, k);
    var locked := Next(connected, TryLock(b), hash);
    assert AtPc(locked, b, Acquired) && Alive(locked, b);
    var entered := Next(locked, Register(b, true), hash);
    assert AtPc(entered, a, Inside) && AtPc(entered, b, Inside);
  }

  lemma LockIsFree(s: Sys, hash: Hash, a: InvocationId)
    requires Inv(s, hash) && AtPc(s, a, Inside)
    ensures var lost, k := Next(s, Disconnect(s.calls[a].session), hash), hash(s.calls[a].job);
      forall o :: (o, k) in lost.held ==> lost.held[(o, k)] == 0
  {
    var x, k := s.calls[a].session, hash(s.calls[a].job);
    assert Holding(s, hash, x, k);
    assert Count(s.held, x, k) > 0;
    var lost := Next(s, Disconnect(x), hash);
    forall o | (o, k) in lost.held
      ensures lost.held[(o, k)] == 0
    {
      assert Count(s.held, o, k) == 0;
    }
  }

  /**
   In every reachable state: losing a session can let two calls of one job inside, in some continuation
   that loses no further session in the middle of a job, exactly when a call on it is inside its job.
   */
  lemma LossHarmsExactlyWhenInside(steps: seq<Step>, hash: Hash, x: SessionId)
    requires AllReliable(EMPTY, steps, hash)
    ensures var lost := Next(Run(steps, hash), Disconnect(x), hash);
      RunsOn(Run(steps, hash), x) <==>
        exists after :: AllReliable(lost, after, hash) && TwoInside(RunFrom(lost, after, hash))
  {
    EmptyIsOk(hash);
    RunKeepsInv(EMPTY, steps, hash);
    var s := Run(steps, hash);
    var lost := Next(s, Disconnect(x), hash);
    if RunsOn(s, x) {
      var a :| AtPc(s, a, Inside) && s.calls[a].session == x;
      var after := SecondCall(s, hash, a);
      assert AllReliable(lost, after, hash) && TwoInside(RunFrom(lost, after, hash));
    } else {
      DisconnectKeepsInv(s, hash, x);
      forall after | AllReliable(lost, after, hash)
        ensures !TwoInside(RunFrom(lost, after, hash))
      {
        RunKeepsInv(lost, after, hash);
        OneInside(RunFrom(lost, after, hash), hash);
      }
    }
  }

  lemma OneInside(s: Sys, hash: Hash)
    requires Inv(s, hash)
    ensures !TwoInside(s)
  {
    forall a, b | AtPc(s, a, Inside) && AtPc(s, b, Inside) && s.calls[a].job == s.calls[b].job
      ensures a == b
    {
      HoldersAreAlone(s, hash, a, b);
    }
  }

  /** The steps of a new call on a new session, up to its job. */
  lemma SecondCall(s: Sys, hash: Hash, a: InvocationId) returns (after: seq<Step>)
    requires Inv(s, hash) && AtPc(s, a, Inside)
    ensures var lost := Next(s, Disconnect(s.calls[a].session), hash);
      AllReliable(lost, after, hash) && TwoInside(RunFrom(lost, after, hash))
  {
    var b := NumberAbove(s.calls.Keys);
    var sessions := set id | id in s.calls :: s.calls[id].session;
    var y := NumberAbove(sessions);
    assert forall id :: id in s.calls ==> s.calls[id].session in sessions;
    LostSessionLetsSecondIn(s, hash, a, b, y);
    var lost := Next(s, Disconnect(s.calls[a].session), hash);
    after := [Connect(b, s.calls[a].job, s.calls[a].process, y), TryLock(b), Register(b, true)];
    assert after[..2] == [after[0], after[1]] && after[..2][..1] == [after[0]] && after[..2][..1][..0] == [];
    assert RunFrom(lost, after[..2][..1], hash) == Next(lost, after[0], hash);
    assert RunFrom(lost, after[..2], hash) == Next(Next(lost, after[0], hash), after[1], hash);
    assert RunFrom(lost, after, hash) == Next(Next(Next(lost, after[0], hash), after[1], hash), after[2], hash);
    assert forall i :: 0 <= i < |after| ==> !after[i].Disconnect?;
  }
}
