/**
 `getOrSet` of the in-memory cache while its fetches are awaited. Any calls of the cache may come between
 the begin of a fetch and its end; the state counts steps to say which came first.
 */
module PendingFetches {
  import opened Options
  import opened MemoryCache

  /** A cached value with the step at which it was fetched or, if it was set directly, set. */
  datatype Fetched<T> = Fetched(value: T, begunAt: nat)

  datatype Fetch = Fetch(key: string, begunAt: nat)

  type FetchId = nat

  datatype State<T> = State(history: seq<Write<Fetched<T>>>, pending: map<FetchId, Fetch>, clock: int, steps: nat)

  datatype Step<T> =
    | Begins(id: FetchId, key: string)
    | Ends(id: FetchId, value: T, ttl: int)
    | Fails(id: FetchId)
    | SetDirectly(key: string, value: T, ttl: int)
    | Invalidate(key: string)
    | InvalidatePrefix(prefix: string)
    | InvalidateAll
    | Wait(ms: nat)

  function Logged<T>(s: State<T>, w: Write<Fetched<T>>): State<T> {
    s.(history := s.history + [w])
  }

  /** One step, before it is counted. A fetch begins only when nothing is cached. */
  function Act<T>(s: State<T>, step: Step<T>): State<T> {
    match step
    case Begins(id, key) =>
      if id in s.pending || Visible(s.history, key, s.clock).Some? then s
      else s.(pending := s.pending[id := Fetch(key, s.steps)])
    case Ends(id, value, ttl) =>
      if id !in s.pending then s
      else
        var f := s.pending[id];
        Logged(s.(pending := s.pending - {id}), Set(f.key, Fetched(value, f.begunAt), s.clock + ttl))
    case Fails(id) => s.(pending := s.pending - {id})
    case SetDirectly(key, value, ttl) => Logged(s, Set(key, Fetched(value, s.steps), s.clock + ttl))
    case Invalidate(key) => Logged(s, Forget(key))
    case InvalidatePrefix(prefix) => Logged(s, ForgetPrefix(prefix))
    case InvalidateAll => Logged(s, ForgetAll)
    case Wait(ms) => s.(clock := s.clock + ms)
  }

  function Next<T>(s: State<T>, step: Step<T>): State<T> {
    Act(s, step).(steps := s.steps + 1)
  }

  function Run<T>(s: State<T>, steps: seq<Step<T>>): State<T> {
    if steps == [] then s else Next(Run(s, steps[..|steps| - 1]), steps[|steps| - 1])
  }

  function Start<T>(clock: int): State<T> {
    State([], map[], clock, 0)
  }

  predicate Drops<T>(step: Step<T>, key: string) {
    match step
    case Invalidate(k) => k == key
    case InvalidatePrefix(prefix) => prefix <= key
    case InvalidateAll => true
    case _ => false
  }

  /** A reader of `key` now would be given a value fetched or set before step `bound`. */
  predicate ServesOlder<T>(s: State<T>, key: string, bound: nat) {
    match Visible(s.history, key, s.clock)
    case None => false
    case Some(f) => f.begunAt < bound
  }

  ghost predicate NeverServesOlder<T(!new)>(s: State<T>, key: string, bound: nat) {
    forall after: seq<Step<T>> :: !ServesOlder(Run(s, after), key, bound)
  }

  ghost predicate NoFetchPending<T>(s: State<T>, key: string) {
    forall id :: id in s.pending ==> s.pending[id].key != key
  }

  ghost predicate NoOlderFetch<T>(s: State<T>, key: string, bound: nat) {
    forall id :: id in s.pending && s.pending[id].key == key ==> s.pending[id].begunAt >= bound
  }

  ghost predicate NoneOlder<T>(s: State<T>, key: string, bound: nat) {
    && bound <= s.steps && NoOlderFetch(s, key, bound)
    && (Stored(s.history, key).Some? ==> Stored(s.history, key).value.value.begunAt >= bound)
  }

  lemma LoggedShows<T>(s: State<T>, w: Write<Fetched<T>>, key: string)
    ensures Stored(Logged(s, w).history, key) ==
      if w.Set? && w.key == key then Some(Entry(w.value, w.expiresAt))
      else if Forgets(w, key) then None else Stored(s.history, key)
  {
    StoredAfter(s.history, w, key);
  }

  /** A write that does not set an older value keeps the key free of older ones. */
  lemma LoggedKeepsNoneOlder<T>(s: State<T>, w: Write<Fetched<T>>, key: string, bound: nat)
    requires NoneOlder(s, key, bound) && (w.Set? && w.key == key ==> w.value.begunAt >= bound)
    ensures NoneOlder(Logged(s, w).(steps := s.steps + 1), key, bound)
  {
    LoggedShows(s, w, key);
  }

  lemma EndKeepsNoneOlder<T>(s: State<T>, id: FetchId, value: T, ttl: int, key: string, bound: nat)
    requires NoneOlder(s, key, bound) && id in s.pending
    ensures NoneOlder(Next(s, Ends(id, value, ttl)), key, bound)
  {
    var f := s.pending[id];
    LoggedKeepsNoneOlder(s.(pending := s.pending - {id}), Set(f.key, Fetched(value, f.begunAt), s.clock + ttl), key, bound);
  }

  lemma NextKeepsNoneOlder<T>(s: State<T>, step: Step<T>, key: string, bound: nat)
    requires NoneOlder(s, key, bound)
    ensures NoneOlder(Next(s, step), key, bound)
  {
    match step
    case Ends(id, value, ttl) => if id in s.pending { EndKeepsNoneOlder(s, id, value, ttl, key, bound); }
    case SetDirectly(k, value, ttl) =>
      LoggedKeepsNoneOlder(s, Set(k, Fetched(value, s.steps), s.clock + ttl), key, bound);
    case Invalidate(k) => LoggedKeepsNoneOlder(s, Forget(k), key, bound);
    case InvalidatePrefix(prefix) => LoggedKeepsNoneOlder(s, ForgetPrefix(prefix), key, bound);
    case InvalidateAll => LoggedKeepsNoneOlder(s, ForgetAll, key, bound);
    case _ =>
  }

  lemma {:induction false} RunKeepsNoneOlder<T>(s: State<T>, steps: seq<Step<T>>, key: string, bound: nat)
    requires NoneOlder(s, key, bound)
    ensures NoneOlder(Run(s, steps), key, bound)
  {
    if steps != [] {
      RunKeepsNoneOlder(s, steps[..|steps| - 1], key, bound);
      NextKeepsNoneOlder(Run(s, steps[..|steps| - 1]), steps[|steps| - 1], key, bound);
    }
  }

  /** Pending fetches have begun before now. */
  lemma {:induction false} FetchesBeganBefore<T>(clock: int, steps: seq<Step<T>>, id: FetchId)
    requires id in Run(Start(clock), steps).pending
    ensures Run(Start(clock), steps).pending[id].begunAt < Run(Start(clock), steps).steps
  {
    if steps != [] {
      var before := steps[..|steps| - 1];
      if id in Run(Start(clock), before).pending { FetchesBeganBefore(clock, before, id); }
    }
  }

  lemma DroppedKeyIsGone<T>(s: State<T>, drop: Step<T>, key: string)
    requires Drops(drop, key)
    ensures Stored(Next(s, drop).history, key) == None
    ensures Next(s, drop).pending == s.pending && Next(s, drop).clock == s.clock
  {
    match drop
    case Invalidate(k) => LoggedShows(s, Forget(k), key);
    case InvalidatePrefix(prefix) => LoggedShows(s, ForgetPrefix(prefix), key);
    case InvalidateAll => LoggedShows(s, ForgetAll, key);
  }

  /** A fetch begins exactly when nothing is cached; direct sets are shown at once, failed fetches leave nothing. */
  lemma OtherSteps<T>(s: State<T>, id: FetchId, key: string, value: T, ttl: nat)
    ensures id !in s.pending ==>
      (id in Next(s, Begins(id, key)).pending <==> Visible(s.history, key, s.clock) == None)
    ensures var direct := Next(s, SetDirectly(key, value, ttl));
      Visible(direct.history, key, direct.clock) == Some(Fetched(value, s.steps))
    ensures Next(s, Fails(id)).pending == s.pending - {id} && Next(s, Fails(id)).history == s.history
  {
    LoggedShows(s, Set(key, Fetched(value, s.steps), s.clock + ttl), key);
  }

  /** A fetch that ends is pending no longer; its value lasts for its time to live from then on, the clock running. */
  lemma EndedFetchLasts<T>(s: State<T>, id: FetchId, value: T, ttl: nat, ms: nat)
    requires id in s.pending
    ensures var ended := Next(s, Ends(id, value, ttl));
      var later := Next(ended, Wait(ms));
      && ended.pending == s.pending - {id} && later.steps == s.steps + 2 && later.clock == s.clock + ms
      && Visible(later.history, s.pending[id].key, later.clock) ==
           if ms <= ttl then Some(Fetched(value, s.pending[id].begunAt)) else None
  {
    var f := s.pending[id];
    LoggedShows(s.(pending := s.pending - {id}), Set(f.key, Fetched(value, f.begunAt), s.clock + ttl), f.key);
  }

  /** A fetch that began earlier serves its value as soon as it ends. */
  lemma EndServesOlder<T>(s: State<T>, id: FetchId, value: T, bound: nat)
    requires id in s.pending && s.pending[id].begunAt < bound
    ensures ServesOlder(Run(s, [Ends(id, value, 0)]), s.pending[id].key, bound)
  {
    var f := s.pending[id];
    LoggedShows(s.(pending := s.pending - {id}), Set(f.key, Fetched(value, f.begunAt), s.clock + 0), f.key);
    assert [Ends(id, value, 0)][..0] == [];
    assert Run(s, [Ends(id, value, 0)]) == Next(s, Ends(id, value, 0));
  }

  /**
   In every reachable state: after an invalidation no reader of the key is ever given a value that was
   fetched or set before it, in any continuation, exactly when no fetch for the key was pending.
   */
  lemma InvalidationHoldsExactlyWhenNoFetchPending<T(!new)>(
      clock: int, steps: seq<Step<T>>, drop: Step<T>, key: string, some: T)
    requires Drops(drop, key)
    ensures var s := Run(Start(clock), steps);
      NoFetchPending(s, key) <==> NeverServesOlder(Next(s, drop), key, s.steps)
  {
    var s := Run(Start(clock), steps);
    var dropped := Next(s, drop);
    DroppedKeyIsGone(s, drop, key);
    if NoFetchPending(s, key) {
      forall after: seq<Step<T>>
        ensures !ServesOlder(Run(dropped, after), key, s.steps)
      {
        RunKeepsNoneOlder(dropped, after, key, s.steps);
      }
    } else {
      var id :| id in s.pending && s.pending[id].key == key;
      FetchesBeganBefore(clock, steps, id);
      EndServesOlder(dropped, id, some, s.steps);
    }
  }
}
