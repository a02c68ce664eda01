/**
 `RedisJsonCache.getOrLoad` and `invalidate` as a protocol. Each call moves from one `await` to the
 next; commands travel to Redis through a network that may delay them past their caller's error, or
 lose them; any read, write, delete or load may fail.
 */
module CacheAside {
  import opened Options

  type Key = nat
  type Value = int
  type CallId = nat

  const CACHE_VERSION := 1

  /** What a key holds: an envelope, or text that is none. The times of its load are history kept by the model. */
  datatype Raw = Envelope(version: nat, value: Value, begunAt: int, loadedAt: int) | Garbage

  datatype Entry = Entry(raw: Raw, storedAt: int, ttl: int)

  datatype Command = SetKey(key: Key, raw: Raw, ttl: int) | Delete(keys: set<Key>)

  datatype Pc =
    | Reading
    | Deleting
    | Loading(canWrite: bool, since: int)
    | Writing(value: Value)
    | Hit(value: Value, at: int)
    | Missed(value: Value)
    | Failed

  datatype Call = Call(key: Key, ttl: int, pc: Pc, enabled: bool, readFailed: bool, loads: nat, writes: nat, loaded: Option<Value>)

  datatype Load = Load(key: Key, value: Value, begunAt: int, at: int)
  datatype Store = Store(load: Load, at: int, ttl: int)

  /** `loads` and `stores` are the history of finished loads and of envelopes Redis has stored. */
  datatype Sys = Sys(
    now: int,
    redis: map<Key, Entry>,
    net: multiset<Command>,
    calls: map<CallId, Call>,
    loads: set<Load>,
    stores: set<Store>)

  datatype Step =
    | Tick
    | Begin(id: CallId, key: Key, ttl: int, enabled: bool)
    | Read(id: CallId)
    | ReadError(id: CallId)
    | DeleteReturned(id: CallId)
    | Loaded(id: CallId, value: Value)
    | LoadError(id: CallId)
    | WriteReturned(id: CallId)
    | Invalidate(keys: set<Key>, enabled: bool)
    | Deliver(command: Command)
    | Lose(command: Command)
    | Evict(key: Key)
    | Foreign(key: Key, raw: Raw, ttl: int)

  /** An envelope of this version whose value the caller's parser accepts. */
  predicate Readable(raw: Raw, accepts: Value -> bool) {
    raw.Envelope? && raw.version == CACHE_VERSION && accepts(raw.value)
  }

  /** The text under a key, gone once its time to live has passed. */
  function Get(redis: map<Key, Entry>, key: Key, now: int): Option<Raw> {
    if key in redis && now < redis[key].storedAt + redis[key].ttl then Some(redis[key].raw) else None
  }

  /** Redis refuses a SET whose time to live is not positive. */
  function Perform(s: Sys, c: Command): Sys {
    match c
    case Delete(keys) => s.(redis := s.redis - keys)
    case SetKey(key, raw, ttl) =>
      if ttl <= 0 then s
      else
        var stored := s.(redis := s.redis[key := Entry(raw, s.now, ttl)]);
        if raw.Envelope? then
          stored.(stores := s.stores + {Store(Load(key, raw.value, raw.begunAt, raw.loadedAt), s.now, ttl)})
        else stored
  }

  function With(s: Sys, id: CallId, call: Call): Sys {
    s.(calls := s.calls[id := call])
  }

  function Send(s: Sys, c: Command): Sys {
    s.(net := s.net + multiset{c})
  }

  function AfterRead(s: Sys, id: CallId, accepts: Value -> bool): Sys
    requires id in s.calls
  {
    var call := s.calls[id];
    match Get(s.redis, call.key, s.now)
    case None => With(s, id, call.(pc := Loading(true, s.now)))
    case Some(raw) =>
      if Readable(raw, accepts) then With(s, id, call.(pc := Hit(raw.value, s.now)))
      else Send(With(s, id, call.(pc := Deleting)), Delete({call.key}))
  }

  function AfterLoad(s: Sys, id: CallId, value: Value): Sys
    requires id in s.calls && s.calls[id].pc.Loading?
  {
    var call := s.calls[id].(loads := s.calls[id].loads + 1, loaded := Some(value));
    var logged := s.(loads := s.loads + {Load(call.key, value, call.pc.since, s.now)});
    if call.pc.canWrite then
      Send(With(logged, id, call.(pc := Writing(value), writes := call.writes + 1)),
           SetKey(call.key, Envelope(CACHE_VERSION, value, call.pc.since, s.now), call.ttl))
    else With(logged, id, call.(pc := Missed(value)))
  }

  predicate At(s: Sys, id: CallId, pc: Pc) {
    id in s.calls && s.calls[id].pc == pc
  }

  function Next(s: Sys, step: Step, accepts: Value -> bool): Sys {
    match step
    case Tick => s.(now := s.now + 1)
    case Begin(id, key, ttl, enabled) =>
      if id in s.calls then s
      else With(s, id, Call(key, ttl, if enabled then Reading else Loading(false, s.now), enabled, false, 0, 0, None))
    case Read(id) => if At(s, id, Reading) then AfterRead(s, id, accepts) else s
    case ReadError(id) =>
      if At(s, id, Reading) then With(s, id, s.calls[id].(pc := Loading(false, s.now), readFailed := true)) else s
    case DeleteReturned(id) => if At(s, id, Deleting) then With(s, id, s.calls[id].(pc := Loading(true, s.now))) else s
    case Loaded(id, value) => if id in s.calls && s.calls[id].pc.Loading? then AfterLoad(s, id, value) else s
    case LoadError(id) =>
      if id in s.calls && s.calls[id].pc.Loading? then With(s, id, s.calls[id].(pc := Failed)) else s
    case WriteReturned(id) =>
      if id in s.calls && s.calls[id].pc.Writing? then With(s, id, s.calls[id].(pc := Missed(s.calls[id].pc.value))) else s
    case Invalidate(keys, enabled) => if enabled && keys != {} then Send(s, Delete(keys)) else s
    case Deliver(c) => if c in s.net then Perform(s, c).(net := s.net - multiset{c}) else s
    case Lose(c) => s.(net := s.net - multiset{c})
    case Evict(key) => s.(redis := s.redis - {key})
    case Foreign(key, raw, ttl) =>
      // Other programs may leave anything under the key but an envelope of this version.
      if raw.Envelope? && raw.version == CACHE_VERSION then s
      else s.(redis := s.redis[key := Entry(raw, s.now, ttl)])
  }

  function Run(s: Sys, steps: seq<Step>, accepts: Value -> bool): Sys {
    if steps == [] then s else Next(Run(s, steps[..|steps| - 1], accepts), steps[|steps| - 1], accepts)
  }

  const EMPTY := Sys(0, map[], multiset{}, map[], {}, {})

  // ---------------------------------------------------------------- what holds in every state

  predicate Ours(raw: Raw) {
    raw.Envelope? && raw.version == CACHE_VERSION
  }

  ghost predicate RedisOk(s: Sys) {
    forall k :: k in s.redis && Ours(s.redis[k].raw) ==>
      var e := s.redis[k];
      Store(Load(k, e.raw.value, e.raw.begunAt, e.raw.loadedAt), e.storedAt, e.ttl) in s.stores
  }

  ghost predicate NetOk(s: Sys) {
    forall c :: c in s.net && c.SetKey? ==>
      Ours(c.raw) && Load(c.key, c.raw.value, c.raw.begunAt, c.raw.loadedAt) in s.loads
  }

  ghost predicate HistoryOk(s: Sys) {
    && (forall l :: l in s.loads ==> l.begunAt <= l.at <= s.now)
    && (forall x :: x in s.stores ==> x.load in s.loads && x.load.at <= x.at <= s.now)
  }

  /** A hit is backed by a store that was alive when it was read. */
  ghost predicate Backed(s: Sys, key: Key, value: Value, at: int) {
    exists x :: x in s.stores && x.load.key == key && x.load.value == value && x.at <= at < x.at + x.ttl
  }

  /** Whether the call may write its load back: the cache is on and the read did not fail. */
  predicate MayWrite(c: Call) {
    c.enabled && !c.readFailed
  }

  ghost predicate CallOk(s: Sys, c: Call) {
    match c.pc
    case Reading => MayWrite(c) && c.loads == 0 && c.writes == 0
    case Deleting => MayWrite(c) && c.loads == 0 && c.writes == 0
    case Loading(canWrite, since) => since <= s.now && (canWrite <==> MayWrite(c)) && c.loads == 0 && c.writes == 0
    case Writing(v) => MayWrite(c) && c.loads == 1 && c.writes == 1 && c.loaded == Some(v)
    case Hit(v, at) => MayWrite(c) && c.loads == 0 && c.writes == 0 && Backed(s, c.key, v, at)
    case Missed(v) => c.loads == 1 && c.writes == (if MayWrite(c) then 1 else 0) && c.loaded == Some(v)
    case Failed => c.loads == 0 && c.writes == 0
  }

  ghost predicate Inv(s: Sys) {
    RedisOk(s) && NetOk(s) && HistoryOk(s) && forall id :: id in s.calls ==> CallOk(s, s.calls[id])
  }

  lemma CallsKeep(s: Sys, s': Sys)
    requires s.stores <= s'.stores && s.now <= s'.now
    ensures forall c :: CallOk(s, c) ==> CallOk(s', c)
  {
  }

  lemma ReadKeepsInv(s: Sys, id: CallId, accepts: Value -> bool)
    requires Inv(s) && At(s, id, Reading)
    ensures Inv(AfterRead(s, id, accepts))
  {
    var s', call := AfterRead(s, id, accepts), s.calls[id];
    assert CallOk(s, call);
    CallsKeep(s, s');
    if s'.calls[id].pc.Hit? {
      var e := s.redis[call.key];
      assert Store(Load(call.key, e.raw.value, e.raw.begunAt, e.raw.loadedAt), e.storedAt, e.ttl) in s.stores;
    }
  }

  lemma LoadKeepsInv(s: Sys, id: CallId, value: Value)
    requires Inv(s) && id in s.calls && s.calls[id].pc.Loading?
    ensures Inv(AfterLoad(s, id, value))
  {
    assert CallOk(s, s.calls[id]);
    CallsKeep(s, AfterLoad(s, id, value));
  }

  lemma DeliverKeepsInv(s: Sys, c: Command)
    requires Inv(s) && c in s.net
    ensures Inv(Perform(s, c).(net := s.net - multiset{c}))
  {
    var s' := Perform(s, c).(net := s.net - multiset{c});
    CallsKeep(s, s');
    assert forall d :: d in s'.net ==> d in s.net;
  }

  lemma CallStepKeepsInv(s: Sys, id: CallId, call: Call)
    requires Inv(s) && CallOk(s, call)
    ensures Inv(With(s, id, call))
  {
    CallsKeep(s, With(s, id, call));
  }

  lemma SendKeepsInv(s: Sys, c: Command)
    requires Inv(s) && c.Delete?
    ensures Inv(Send(s, c))
  {
    CallsKeep(s, Send(s, c));
  }

  /** The steps that change one call and nothing else. */
  lemma LocalStepKeepsInv(s: Sys, step: Step, accepts: Value -> bool)
    requires Inv(s)
    requires step.Begin? || step.ReadError? || step.DeleteReturned? || step.LoadError? || step.WriteReturned?
    ensures Inv(Next(s, step, accepts))
  {
    var s' := Next(s, step, accepts);
    if s' != s {
      assert step.Begin? || CallOk(s, s.calls[step.id]);
      CallStepKeepsInv(s, step.id, s'.calls[step.id]);
    }
  }

  lemma NextKeepsInv(s: Sys, step: Step, accepts: Value -> bool)
    requires Inv(s)
    ensures Inv(Next(s, step, accepts))
  {
    match step
    case Read(id) => if At(s, id, Reading) { ReadKeepsInv(s, id, accepts); }
    case Loaded(id, value) => if id in s.calls && s.calls[id].pc.Loading? { LoadKeepsInv(s, id, value); }
    case Deliver(c) => if c in s.net { DeliverKeepsInv(s, c); }
    case Invalidate(keys, enabled) => SendKeepsInv(s, Delete(keys));
    case Tick => CallsKeep(s, Next(s, step, accepts));
    case Lose(_) => CallsKeep(s, Next(s, step, accepts));
    case Evict(_) => CallsKeep(s, Next(s, step, accepts));
    case Foreign(_, _, _) => CallsKeep(s, Next(s, step, accepts));
    case _ => LocalStepKeepsInv(s, step, accepts);
  }

  lemma {:induction false} RunKeepsInv(steps: seq<Step>, accepts: Value -> bool)
    ensures Inv(Run(EMPTY, steps, accepts))
  {
    if steps != [] {
      RunKeepsInv(steps[..|steps| - 1], accepts);
      NextKeepsInv(Run(EMPTY, steps[..|steps| - 1], accepts), steps[|steps| - 1], accepts);
    }
  }

  /**
   Bounded staleness: a call that hits, its key being read by Redis at H, returns a value that some load of
   that key, begun at B, produced at L and that Redis stored at S with B <= L <= S <= H < S + ttl, whatever
   failed, arrived late or was invalidated.
   */
  lemma HitsAreBoundedlyStale(steps: seq<Step>, accepts: Value -> bool, id: CallId)
    requires var s := Run(EMPTY, steps, accepts); id in s.calls && s.calls[id].pc.Hit?
    ensures var s := Run(EMPTY, steps, accepts);
      var c := s.calls[id];
      exists x :: x in s.stores && x.load in s.loads &&
        x.load.key == c.key && x.load.value == c.pc.value &&
        x.load.begunAt <= x.load.at <= x.at <= c.pc.at < x.at + x.ttl
  {
    RunKeepsInv(steps, accepts);
    var s := Run(EMPTY, steps, accepts);
    var c := s.calls[id];
    assert CallOk(s, c);
    var x :| x in s.stores && x.load.key == c.key && x.load.value == c.pc.value && x.at <= c.pc.at < x.at + x.ttl;
    assert x.load in s.loads;
  }

  /**
   A finished call loaded exactly once and returns that load, unless it hit, and then not at all. It sent
   exactly one write if the cache is on and its read did not fail, and none otherwise.
   */
  lemma LoadsOncePerMiss(steps: seq<Step>, accepts: Value -> bool, id: CallId)
    requires id in Run(EMPTY, steps, accepts).calls
    ensures var c := Run(EMPTY, steps, accepts).calls[id];
      && (c.pc.Hit? ==> c.loads == 0 && c.writes == 0 && MayWrite(c))
      && (c.pc.Missed? ==> c.loads == 1 && c.loaded == Some(c.pc.value) && c.writes == if MayWrite(c) then 1 else 0)
      && (c.readFailed ==> c.writes == 0 && !c.pc.Hit?)
  {
    RunKeepsInv(steps, accepts);
  }

  // ---------------------------------------------------------------- invalidation

  /** A reader of `key` that Redis answers now would hit a value whose load had begun before `bound`. */
  ghost predicate ServesOlder(s: Sys, key: Key, bound: int, accepts: Value -> bool) {
    match Get(s.redis, key, s.now)
    case None => false
    case Some(raw) => Readable(raw, accepts) && raw.begunAt < bound
  }

  /** No continuation serves a reader of `key` such a value. */
  ghost predicate NeverServesOlder(s: Sys, key: Key, bound: int, accepts: Value -> bool) {
    forall after: seq<Step> :: !ServesOlder(Run(s, after, accepts), key, bound, accepts)
  }

  /** A SET that would store for `key` a value whose load had begun before `bound`. */
  predicate StoresOlder(c: Command, key: Key, bound: int, accepts: Value -> bool) {
    c.SetKey? && c.key == key && c.ttl > 0 && Readable(c.raw, accepts) && c.raw.begunAt < bound
  }

  /** A call that has begun to load `key` before `bound` and will write what it loads. */
  predicate LoadsOlder(c: Call, key: Key, bound: int) {
    c.key == key && c.ttl > 0 && c.pc.Loading? && c.pc.canWrite && c.pc.since < bound
  }

  ghost predicate NoWriteOlder(s: Sys, key: Key, bound: int, accepts: Value -> bool) {
    forall c :: c in s.net ==> !StoresOlder(c, key, bound, accepts)
  }

  /** No call is loading such a value that a reader would accept. */
  ghost predicate NoLoadOlder(s: Sys, key: Key, bound: int, accepts: Value -> bool) {
    forall id, value :: id in s.calls && LoadsOlder(s.calls[id], key, bound) ==> !accepts(value)
  }

  ghost predicate NoEntryOlder(s: Sys, key: Key, bound: int, accepts: Value -> bool) {
    key in s.redis && Readable(s.redis[key].raw, accepts) ==> s.redis[key].raw.begunAt >= bound
  }

  ghost predicate NoneOlder(s: Sys, key: Key, bound: int, accepts: Value -> bool) {
    && bound <= s.now && NoWriteOlder(s, key, bound, accepts) && NoLoadOlder(s, key, bound, accepts)
    && NoEntryOlder(s, key, bound, accepts)
  }

  lemma DeliverKeepsNoneOlder(s: Sys, c: Command, key: Key, bound: int, accepts: Value -> bool)
    requires NoneOlder(s, key, bound, accepts) && c in s.net
    ensures NoneOlder(Perform(s, c).(net := s.net - multiset{c}), key, bound, accepts)
  {
    assert forall d :: d in s.net - multiset{c} ==> d in s.net;
    assert !StoresOlder(c, key, bound, accepts);
  }

  lemma LoadKeepsNoneOlder(s: Sys, id: CallId, value: Value, key: Key, bound: int, accepts: Value -> bool)
    requires NoneOlder(s, key, bound, accepts) && id in s.calls && s.calls[id].pc.Loading?
    ensures NoneOlder(AfterLoad(s, id, value), key, bound, accepts)
  {
    var call, s' := s.calls[id], AfterLoad(s, id, value);
    assert LoadsOlder(call, key, bound) ==> !accepts(value);
    forall c | c in s'.net
      ensures !StoresOlder(c, key, bound, accepts)
    {
      assert c in s.net || c == SetKey(call.key, Envelope(CACHE_VERSION, value, call.pc.since, s.now), call.ttl);
    }
  }

  /** Moving one call to a stage where it does not load an older value keeps the others as they are. */
  lemma MoveKeepsNoneOlder(s: Sys, id: CallId, call: Call, key: Key, bound: int, accepts: Value -> bool)
    requires NoneOlder(s, key, bound, accepts) && !LoadsOlder(call, key, bound)
    ensures NoneOlder(With(s, id, call), key, bound, accepts)
  {
  }

  lemma ReadKeepsNoneOlder(s: Sys, id: CallId, key: Key, bound: int, accepts: Value -> bool)
    requires NoneOlder(s, key, bound, accepts) && At(s, id, Reading)
    ensures NoneOlder(AfterRead(s, id, accepts), key, bound, accepts)
  {
    MoveKeepsNoneOlder(s, id, AfterRead(s, id, accepts).calls[id], key, bound, accepts);
  }

  lemma LocalStepKeepsNoneOlder(s: Sys, step: Step, key: Key, bound: int, accepts: Value -> bool)
    requires NoneOlder(s, key, bound, accepts)
    requires step.Begin? || step.ReadError? || step.DeleteReturned? || step.LoadError? || step.WriteReturned?
    ensures NoneOlder(Next(s, step, accepts), key, bound, accepts)
  {
    var s' := Next(s, step, accepts);
    if s' != s {
      MoveKeepsNoneOlder(s, step.id, s'.calls[step.id], key, bound, accepts);
    }
  }

  /** The steps of the clock, of Redis and of other programs. */
  lemma OuterStepKeepsNoneOlder(s: Sys, step: Step, key: Key, bound: int, accepts: Value -> bool)
    requires NoneOlder(s, key, bound, accepts)
    requires step.Tick? || step.Invalidate? || step.Lose? || step.Evict? || step.Foreign?
    ensures NoneOlder(Next(s, step, accepts), key, bound, accepts)
  {
    var s' := Next(s, step, accepts);
    OuterStepNet(s, step, key, bound, accepts);
    assert s'.calls == s.calls && bound <= s'.now;
    assert NoEntryOlder(s', key, bound, accepts);
  }

  lemma OuterStepNet(s: Sys, step: Step, key: Key, bound: int, accepts: Value -> bool)
    requires NoWriteOlder(s, key, bound, accepts)
    requires step.Tick? || step.Invalidate? || step.Lose? || step.Evict? || step.Foreign?
    ensures NoWriteOlder(Next(s, step, accepts), key, bound, accepts)
  {
    forall c | c in Next(s, step, accepts).net
      ensures !StoresOlder(c, key, bound, accepts)
    {
      assert c in s.net || c.Delete?;
    }
  }

  lemma NextKeepsNoneOlder(s: Sys, step: Step, key: Key, bound: int, accepts: Value -> bool)
    requires NoneOlder(s, key, bound, accepts)
    ensures NoneOlder(Next(s, step, accepts), key, bound, accepts)
  {
    match step
    case Deliver(c) => if c in s.net { DeliverKeepsNoneOlder(s, c, key, bound, accepts); }
    case Loaded(id, value) =>
      if id in s.calls && s.calls[id].pc.Loading? { LoadKeepsNoneOlder(s, id, value, key, bound, accepts); }
    case Read(id) => if At(s, id, Reading) { ReadKeepsNoneOlder(s, id, key, bound, accepts); }
    case Tick => OuterStepKeepsNoneOlder(s, step, key, bound, accepts);
    case Invalidate(_, _) => OuterStepKeepsNoneOlder(s, step, key, bound, accepts);
    case Lose(_) => OuterStepKeepsNoneOlder(s, step, key, bound, accepts);
    case Evict(_) => OuterStepKeepsNoneOlder(s, step, key, bound, accepts);
    case Foreign(_, _, _) => OuterStepKeepsNoneOlder(s, step, key, bound, accepts);
    case _ => LocalStepKeepsNoneOlder(s, step, key, bound, accepts);
  }

  lemma {:induction false} RunKeepsNoneOlder(s: Sys, steps: seq<Step>, key: Key, bound: int, accepts: Value -> bool)
    requires NoneOlder(s, key, bound, accepts)
    ensures NoneOlder(Run(s, steps, accepts), key, bound, accepts)
  {
    if steps != [] {
      RunKeepsNoneOlder(s, steps[..|steps| - 1], key, bound, accepts);
      NextKeepsNoneOlder(Run(s, steps[..|steps| - 1], accepts), steps[|steps| - 1], key, bound, accepts);
    }
  }

  lemma DeleteLeavesNoneOlder(s: Sys, keys: set<Key>, key: Key, accepts: Value -> bool)
    requires Delete(keys) in s.net && key in keys
    requires NoWriteOlder(s, key, s.now, accepts) && NoLoadOlder(s, key, s.now, accepts)
    ensures NeverServesOlder(Next(s, Deliver(Delete(keys)), accepts), key, s.now, accepts)
  {
    var deleted := Next(s, Deliver(Delete(keys)), accepts);
    assert forall d :: d in deleted.net ==> d in s.net;
    forall after: seq<Step>
      ensures !ServesOlder(Run(deleted, after, accepts), key, s.now, accepts)
    {
      RunKeepsNoneOlder(deleted, after, key, s.now, accepts);
    }
  }

  /** A write of an older value under way serves it one step later. */
  lemma WriteServesOlder(s: Sys, c: Command, key: Key, bound: int, accepts: Value -> bool)
    requires c in s.net && StoresOlder(c, key, bound, accepts)
    ensures ServesOlder(Run(s, [Deliver(c)], accepts), key, bound, accepts)
  {
    assert [Deliver(c)][..0] == [];
    var stored := Next(s, Deliver(c), accepts);
    assert Run(s, [Deliver(c)], accepts) == stored;
    assert Get(stored.redis, key, stored.now) == Some(c.raw);
  }

  /** A load of an older value under way serves it two steps later. */
  lemma LoadServesOlder(s: Sys, id: CallId, value: Value, key: Key, bound: int, accepts: Value -> bool)
    requires id in s.calls && LoadsOlder(s.calls[id], key, bound) && accepts(value)
    ensures exists after :: ServesOlder(Run(s, after, accepts), key, bound, accepts)
  {
    var call, loaded := s.calls[id], Next(s, Loaded(id, value), accepts);
    var c := SetKey(key, Envelope(CACHE_VERSION, value, call.pc.since, s.now), call.ttl);
    assert c in loaded.net && StoresOlder(c, key, bound, accepts);
    WriteServesOlder(loaded, c, key, bound, accepts);
    assert [Loaded(id, value)][..0] == [];
    assert Run(s, [Loaded(id, value)], accepts) == loaded;
    RunOfConcat(s, [Loaded(id, value)], [Deliver(c)], accepts);
  }

  /**
   What an invalidation promises, at the moment Redis carries out its delete: from then on no reader of
   the key is served a value whose load had begun earlier, in any continuation, exactly when neither a
   write nor a load of such a value is under way.
   */
  lemma InvalidationHoldsExactlyWhenNoneUnderWay(s: Sys, keys: set<Key>, key: Key, accepts: Value -> bool)
    requires Delete(keys) in s.net && key in keys
    ensures NoWriteOlder(s, key, s.now, accepts) && NoLoadOlder(s, key, s.now, accepts) <==>
      NeverServesOlder(Next(s, Deliver(Delete(keys)), accepts), key, s.now, accepts)
  {
    var deleted := Next(s, Deliver(Delete(keys)), accepts);
    if !NoWriteOlder(s, key, s.now, accepts) {
      var c :| c in s.net && StoresOlder(c, key, s.now, accepts);
      assert c in deleted.net;
      WriteServesOlder(deleted, c, key, s.now, accepts);
    } else if !NoLoadOlder(s, key, s.now, accepts) {
      var id, value :| id in s.calls && LoadsOlder(s.calls[id], key, s.now) && accepts(value);
      assert deleted.calls == s.calls;
      LoadServesOlder(deleted, id, value, key, s.now, accepts);
    } else {
      DeleteLeavesNoneOlder(s, keys, key, accepts);
    }
  }

  /** An enabled invalidation puts one delete of its keys under way, where it stays until Redis carries it out or it is lost. */
  lemma InvalidateSendsDelete(s: Sys, keys: set<Key>, step: Step, accepts: Value -> bool)
    requires keys != {}
    ensures Next(s, Invalidate(keys, true), accepts) == s.(net := s.net + multiset{Delete(keys)})
    ensures Delete(keys) in s.net && step != Deliver(Delete(keys)) && step != Lose(Delete(keys)) ==>
      Delete(keys) in Next(s, step, accepts).net
  {
  }

  /** A cache that is off and an empty list of keys send nothing. */
  lemma NothingToInvalidate(s: Sys, keys: set<Key>, accepts: Value -> bool)
    ensures Next(s, Invalidate(keys, false), accepts) == s && Next(s, Invalidate({}, true), accepts) == s
  {
  }

  /** A command that Redis carries out is under way once less and touches no key but its own. */
  lemma CommandsTouchTheirKeys(s: Sys, c: Command, other: Key, accepts: Value -> bool)
    requires c in s.net
    ensures var after := Next(s, Deliver(c), accepts);
      && after.net == s.net - multiset{c} && after.calls == s.calls && after.now == s.now
      && ((if c.SetKey? then other != c.key else other !in c.keys) ==>
            Get(after.redis, other, s.now) == Get(s.redis, other, s.now))
    ensures forall key :: other != key ==>
      Get(Next(s, Evict(key), accepts).redis, other, s.now) == Get(s.redis, other, s.now)
  {
  }

  /** What may befall a key and a command from outside: eviction, another program's text, loss on the way. */
  lemma OutsideSteps(s: Sys, key: Key, raw: Raw, ttl: int, c: Command, accepts: Value -> bool)
    ensures Get(Next(s, Evict(key), accepts).redis, key, s.now) == None
    ensures ttl > 0 && !Ours(raw) ==> Get(Next(s, Foreign(key, raw, ttl), accepts).redis, key, s.now) == Some(raw)
    ensures Ours(raw) ==> Next(s, Foreign(key, raw, ttl), accepts) == s
    ensures c in s.net ==> Next(s, Lose(c), accepts).net[c] == s.net[c] - 1
    ensures Next(s, Lose(c), accepts).redis == s.redis
  {
  }

  /**
   The law from the call to `invalidate` on: once its delete is carried out Redis holds nothing under the
   key, and no reader is served an older value again exactly when none was being loaded or written.
   */
  lemma InvalidateThenDelete(s: Sys, keys: set<Key>, key: Key, accepts: Value -> bool)
    requires key in keys
    ensures var run := [Invalidate(keys, true), Deliver(Delete(keys))];
      && Get(Run(s, run, accepts).redis, key, s.now) == None
      && (NoWriteOlder(s, key, s.now, accepts) && NoLoadOlder(s, key, s.now, accepts) <==>
            NeverServesOlder(Run(s, run, accepts), key, s.now, accepts))
  {
    var sent := Next(s, Invalidate(keys, true), accepts);
    RunOfTwo(s, Invalidate(keys, true), Deliver(Delete(keys)), accepts);
    SendingDeleteIsNoWrite(s, keys, key, s.now, accepts);
    InvalidationHoldsExactlyWhenNoneUnderWay(sent, keys, key, accepts);
  }

  lemma SendingDeleteIsNoWrite(s: Sys, keys: set<Key>, key: Key, bound: int, accepts: Value -> bool)
    requires key in keys
    ensures var sent := Next(s, Invalidate(keys, true), accepts);
      && Delete(keys) in sent.net && sent.now == s.now
      && Get(Next(sent, Deliver(Delete(keys)), accepts).redis, key, s.now) == None
      && (NoWriteOlder(sent, key, bound, accepts) <==> NoWriteOlder(s, key, bound, accepts))
      && (NoLoadOlder(sent, key, bound, accepts) <==> NoLoadOlder(s, key, bound, accepts))
  {
    InvalidateSendsDelete(s, keys, Tick, accepts);
    var sent := Next(s, Invalidate(keys, true), accepts);
    assert forall c :: c in sent.net <==> c in s.net || c == Delete(keys);
  }

  lemma RunOfTwo(s: Sys, x: Step, y: Step, accepts: Value -> bool)
    ensures Run(s, [x, y], accepts) == Next(Next(s, x, accepts), y, accepts)
  {
    assert [x, y][..1] == [x] && [x][..0] == [];
    assert Run(s, [x], accepts) == Next(s, x, accepts);
  }

  // ---------------------------------------------------------------- what each call comes to

  /** A read that finds a live envelope of this version that the parser accepts is a hit, and only that is. */
  lemma ReadDecides(s: Sys, id: CallId, accepts: Value -> bool)
    requires At(s, id, Reading)
    ensures var call, raw, pc := s.calls[id], Get(s.redis, s.calls[id].key, s.now), Next(s, Read(id), accepts).calls[id].pc;
      && (raw == None ==> pc == Loading(true, s.now))
      && (raw.Some? && Readable(raw.value, accepts) ==> pc == Hit(raw.value.value, s.now))
      && (raw.Some? && !Readable(raw.value, accepts) ==>
            pc == Deleting && Delete({call.key}) in Next(s, Read(id), accepts).net)
  {
  }

  /** Nothing but a failing load makes a call fail. */
  lemma OnlyLoadsFail(s: Sys, step: Step, accepts: Value -> bool, id: CallId)
    requires id in s.calls && s.calls[id].pc != Failed
    ensures id in Next(s, step, accepts).calls
    ensures Next(s, step, accepts).calls[id].pc == Failed <==> step == LoadError(id) && s.calls[id].pc.Loading?
  {
    CallsStay(s, step, accepts, id);
    match step
    case Read(i) => if At(s, i, Reading) { ReadDecides(s, i, accepts); }
    case Loaded(i, value) => if i in s.calls && s.calls[i].pc.Loading? { LoadedCallReturnsIt(s, i, value, accepts); }
    case _ =>
  }

  /** A step changes the call it is about and no other. */
  lemma CallsStay(s: Sys, step: Step, accepts: Value -> bool, id: CallId)
    requires id in s.calls
    ensures id in Next(s, step, accepts).calls
    ensures (step.Tick? || step.Invalidate? || step.Deliver? || step.Lose? || step.Evict? || step.Foreign? || step.id != id) ==>
      Next(s, step, accepts).calls[id] == s.calls[id]
  {
  }

  /** A call that loads ends with the value that its load brought, having sent it to Redis if it may write. */
  lemma LoadedCallReturnsIt(s: Sys, id: CallId, value: Value, accepts: Value -> bool)
    requires id in s.calls && s.calls[id].pc.Loading?
    ensures var call, loaded := s.calls[id], Next(s, Loaded(id, value), accepts);
      if call.pc.canWrite then
        && loaded.calls[id].pc == Writing(value)
        && SetKey(call.key, Envelope(CACHE_VERSION, value, call.pc.since, s.now), call.ttl) in loaded.net
        && Next(loaded, WriteReturned(id), accepts).calls[id].pc == Missed(value)
      else loaded.calls[id].pc == Missed(value) && loaded.net == s.net
  {
  }

  /**
   Every way into the load: a cache that is off, a failed read, an empty key, and an unreadable text once
   its delete has returned, whether or not that succeeded.
   */
  lemma EveryMissLoads(s: Sys, id: CallId, key: Key, ttl: int, accepts: Value -> bool)
    ensures id !in s.calls ==>
      && At(Next(s, Begin(id, key, ttl, false), accepts), id, Loading(false, s.now))
      && At(Next(s, Begin(id, key, ttl, true), accepts), id, Reading)
      && Next(s, Begin(id, key, ttl, true), accepts).calls[id].key == key
      && Next(s, Begin(id, key, ttl, true), accepts).calls[id].ttl == ttl
    ensures At(s, id, Reading) ==> At(Next(s, ReadError(id), accepts), id, Loading(false, s.now))
    ensures At(s, id, Deleting) ==> At(Next(s, DeleteReturned(id), accepts), id, Loading(true, s.now))
  {
  }

  /** What Redis stores is alive for exactly its time to live. */
  lemma StoredForItsTtl(s: Sys, key: Key, raw: Raw, ttl: int, accepts: Value -> bool, later: int)
    requires SetKey(key, raw, ttl) in s.net && s.now <= later
    ensures ttl > 0 ==>
      Get(Next(s, Deliver(SetKey(key, raw, ttl)), accepts).redis, key, later) ==
        if later < s.now + ttl then Some(raw) else None
    ensures ttl <= 0 ==> Next(s, Deliver(SetKey(key, raw, ttl)), accepts).redis == s.redis
  {
  }

  /** What `ServesOlder` means to a call: it is a hit on that value. */
  lemma ServedReaderHits(s: Sys, id: CallId, bound: int, accepts: Value -> bool)
    requires At(s, id, Reading) && ServesOlder(s, s.calls[id].key, bound, accepts)
    ensures At(Next(s, Read(id), accepts), id, Hit(Get(s.redis, s.calls[id].key, s.now).value.value, s.now))
  {
  }

  lemma {:induction false} RunOfConcat(s: Sys, a: seq<Step>, b: seq<Step>, accepts: Value -> bool)
    ensures Run(s, a + b, accepts) == Run(Run(s, a, accepts), b, accepts)
  {
    if b == [] {
      assert a + b == a;
    } else {
      RunOfConcat(s, a, b[..|b| - 1], accepts);
      assert (a + b)[..|a + b| - 1] == a + b[..|b| - 1];
    }
  }

  lemma RunOfThree(s: Sys, x: Step, y: Step, z: Step, accepts: Value -> bool)
    ensures Run(s, [x, y, z], accepts) == Next(Next(Next(s, x, accepts), y, accepts), z, accepts)
  {
    assert [x, y, z][..2] == [x, y] && [x, y][..1] == [x] && [x][..0] == [];
    assert Run(s, [x], accepts) == Next(s, x, accepts);
    assert Run(s, [x, y], accepts) == Next(Next(s, x, accepts), y, accepts);
  }

  /** The SET of a value that was loaded at time 0. */
  function Put(value: Value): Command {
    SetKey(0, Envelope(CACHE_VERSION, value, 0, 0), 10)
  }

  /** A run in which an invalidation is overtaken by the SET of a load that finished before it. */
  function Overtaking(value: Value): seq<Step> {
    [Begin(1, 0, 10, true), Read(1), Loaded(1, value)] +
    [Tick, Invalidate({0}, true), Deliver(Delete({0}))] +
    [Deliver(Put(value)), Begin(2, 0, 10, true), Read(2)]
  }

  /** The state of that run after the load. */
  function LoadDone(value: Value): Sys {
    Sys(0, map[], multiset{Put(value)},
        map[1 := Call(0, 10, Writing(value), true, false, 1, 1, Some(value))], {Load(0, value, 0, 0)}, {})
  }

  lemma OvertakingLoads(value: Value, accepts: Value -> bool)
    ensures Run(EMPTY, [Begin(1, 0, 10, true), Read(1), Loaded(1, value)], accepts) == LoadDone(value)
  {
    RunOfThree(EMPTY, Begin(1, 0, 10, true), Read(1), Loaded(1, value), accepts);
    var begun := With(EMPTY, 1, Call(0, 10, Reading, true, false, 0, 0, None));
    var missed := With(EMPTY, 1, Call(0, 10, Loading(true, 0), true, false, 0, 0, None));
    assert Next(EMPTY, Begin(1, 0, 10, true), accepts) == begun;
    assert AfterRead(begun, 1, accepts) == missed;
    LoadAfterMiss(value);
  }

  lemma LoadAfterMiss(value: Value)
    ensures AfterLoad(With(EMPTY, 1, Call(0, 10, Loading(true, 0), true, false, 0, 0, None)), 1, value) == LoadDone(value)
  {
    var done := AfterLoad(With(EMPTY, 1, Call(0, 10, Loading(true, 0), true, false, 0, 0, None)), 1, value);
    assert done.calls == LoadDone(value).calls && done.net == LoadDone(value).net && done.loads == LoadDone(value).loads;
  }

  lemma OvertakingInvalidates(value: Value, accepts: Value -> bool)
    ensures Run(LoadDone(value), [Tick, Invalidate({0}, true), Deliver(Delete({0}))], accepts) ==
      LoadDone(value).(now := 1)
  {
    var s := LoadDone(value).(now := 1);
    RunOfThree(LoadDone(value), Tick, Invalidate({0}, true), Deliver(Delete({0})), accepts);
    assert s.net + multiset{Delete({0})} - multiset{Delete({0})} == s.net;
  }

  lemma OvertakingStores(value: Value, accepts: Value -> bool)
    ensures var s := LoadDone(value).(now := 1);
      var stored := Next(s, Deliver(Put(value)), accepts);
      && stored.calls == s.calls && stored.now == 1 && stored.loads == s.loads
      && Get(stored.redis, 0, 1) == Some(Envelope(CACHE_VERSION, value, 0, 0))
  {
  }

  /** A call that begins while an acceptable envelope is alive hits it. */
  lemma BeginThenHit(s: Sys, id: CallId, key: Key, value: Value, begunAt: int, loadedAt: int, accepts: Value -> bool)
    requires id !in s.calls && accepts(value)
    requires Get(s.redis, key, s.now) == Some(Envelope(CACHE_VERSION, value, begunAt, loadedAt))
    ensures var read := Next(Next(s, Begin(id, key, 10, true), accepts), Read(id), accepts);
      At(read, id, Hit(value, s.now)) && read.loads == s.loads
  {
    var begun := Next(s, Begin(id, key, 10, true), accepts);
    assert begun.redis == s.redis && begun.now == s.now && At(begun, id, Reading);
  }

  lemma OvertakingServes(value: Value, accepts: Value -> bool)
    requires accepts(value)
    ensures var s := Run(LoadDone(value).(now := 1), [Deliver(Put(value)), Begin(2, 0, 10, true), Read(2)], accepts);
      At(s, 2, Hit(value, 1)) && s.loads == {Load(0, value, 0, 0)}
  {
    var s := LoadDone(value).(now := 1);
    RunOfThree(s, Deliver(Put(value)), Begin(2, 0, 10, true), Read(2), accepts);
    OvertakingStores(value, accepts);
    BeginThenHit(Next(s, Deliver(Put(value)), accepts), 2, 0, value, 0, 0, accepts);
  }

  /**
   An invalidation is no barrier: a value loaded before it can be stored after it, and be served as
   long as its time to live lasts.
   */
  lemma InvalidationCanBeOvertaken(value: Value, accepts: Value -> bool)
    requires accepts(value)
    ensures At(Run(EMPTY, Overtaking(value), accepts), 2, Hit(value, 1))
    ensures Load(0, value, 0, 0) in Run(EMPTY, Overtaking(value), accepts).loads
  {
    var first, second := [Begin(1, 0, 10, true), Read(1), Loaded(1, value)],
                         [Tick, Invalidate({0}, true), Deliver(Delete({0}))];
    OvertakingLoads(value, accepts);
    OvertakingInvalidates(value, accepts);
    OvertakingServes(value, accepts);
    RunOfConcat(EMPTY, first, second, accepts);
    RunOfConcat(EMPTY, first + second, [Deliver(Put(value)), Begin(2, 0, 10, true), Read(2)], accepts);
  }
}
