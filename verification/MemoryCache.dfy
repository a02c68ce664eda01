/**
 The in-memory cache with lazy deletion. Its meaning is given by the history of its writes alone: a key
 shows the last value set for it, unless that was invalidated since or has passed its expiry.
 */
module MemoryCache {
  import opened Options

  datatype Entry<T> = Entry(value: T, expiresAt: int)

  datatype Write<T> =
    | Set(key: string, value: T, expiresAt: int)
    | Forget(key: string)
    | ForgetPrefix(prefix: string)
    | ForgetAll

  /** Whether an invalidation removes `key`. */
  predicate Forgets<T>(w: Write<T>, key: string) {
    match w
    case Set(_, _, _) => false
    case Forget(k) => k == key
    case ForgetPrefix(prefix) => prefix <= key
    case ForgetAll => true
  }

  /** What each invalidation removes, and what it leaves alone. */
  lemma ForgetsExactly<T>(w: Write<T>, key: string)
    ensures w.Set? ==> !Forgets(w, key)
    ensures w.Forget? ==> (Forgets(w, key) <==> w.key == key)
    ensures w.ForgetPrefix? ==> (Forgets(w, key) <==> exists rest :: key == w.prefix + rest)
    ensures w.ForgetAll? ==> Forgets(w, key)
  {
    if w.ForgetPrefix? && w.prefix <= key { assert key == w.prefix + key[|w.prefix|..]; }
  }

  /** The last entry set for `key` and not invalidated since, expired or not. */
  function Stored<T>(history: seq<Write<T>>, key: string): Option<Entry<T>> {
    if history == [] then None
    else
      var last := history[|history| - 1];
      if last.Set? && last.key == key then Some(Entry(last.value, last.expiresAt))
      else if Forgets(last, key) then None
      else Stored(history[..|history| - 1], key)
  }

  /** What a reader sees at `now`; an entry is still good at its expiry itself. */
  function Visible<T>(history: seq<Write<T>>, key: string, now: int): Option<T> {
    match Stored(history, key)
    case None => None
    case Some(e) => if now > e.expiresAt then None else Some(e.value)
  }

  /** Every key that was ever set. */
  function KeysSet<T>(history: seq<Write<T>>): set<string> {
    if history == [] then {}
    else
      var last := history[|history| - 1];
      KeysSet(history[..|history| - 1]) + if last.Set? then {last.key} else {}
  }

  lemma StoredAfter<T>(history: seq<Write<T>>, w: Write<T>, key: string)
    ensures Stored(history + [w], key) ==
      if w.Set? && w.key == key then Some(Entry(w.value, w.expiresAt))
      else if Forgets(w, key) then None
      else Stored(history, key)
  {
    assert (history + [w])[..|history|] == history;
  }

  lemma {:induction false} StoredWasSet<T>(history: seq<Write<T>>, key: string)
    ensures Stored(history, key).Some? ==> key in KeysSet(history)
  {
    if history != [] {
      StoredWasSet(history[..|history| - 1], key);
    }
  }

  /** Write `i` set `value` for `key`, nothing touched the key since, and the entry has not expired. */
  predicate LastSetAt<T(==)>(history: seq<Write<T>>, i: nat, key: string, now: int, value: T)
    requires i < |history|
  {
    && history[i].Set? && history[i].key == key && history[i].value == value && now <= history[i].expiresAt
    && forall j :: i < j < |history| ==> !Forgets(history[j], key) && !(history[j].Set? && history[j].key == key)
  }

  /** A value is visible exactly when some set of it is the last word on its key and has not expired. */
  lemma {:induction false} VisibleIsLastSet<T>(history: seq<Write<T>>, key: string, now: int, value: T)
    ensures Visible(history, key, now) == Some(value) <==>
      exists i :: 0 <= i < |history| && LastSetAt(history, i, key, now, value)
  {
    if history != [] {
      var n := |history| - 1;
      var before, last := history[..n], history[n];
      VisibleIsLastSet(before, key, now, value);
      if last.Set? && last.key == key {
        assert LastSetAt(history, n, key, now, value) <==> last.value == value && now <= last.expiresAt;
      } else if !Forgets(last, key) {
        assert !LastSetAt(history, n, key, now, value);
        forall i | 0 <= i < n
          ensures LastSetAt(before, i, key, now, value) <==> LastSetAt(history, i, key, now, value)
        {
          assert forall j :: 0 <= j < n ==> before[j] == history[j];
        }
      }
    }
  }

  class Cache<T(!new)> {
    var store: map<string, Entry<T>>
    const defaultTtl: int
    ghost var history: seq<Write<T>>
    ghost var clock: int

    /** The store is the history's, less some entries that have expired. */
    ghost predicate Valid()
      reads this
    {
      forall k :: if k in store then Stored(history, k) == Some(store[k])
                  else Stored(history, k).Some? ==> Stored(history, k).value.expiresAt < clock
    }

    constructor (defaultTtl: int, ghost now: int)
      ensures Valid() && history == [] && clock == now && this.defaultTtl == defaultTtl
    {
      store := map[];
      this.defaultTtl := defaultTtl;
      history, clock := [], now;
    }

    method Get(key: string, now: int) returns (value: Option<T>)
      requires Valid() && clock <= now
      modifies this
      ensures Valid() && clock == now && history == old(history)
      ensures value == Visible(history, key, now)
    {
      clock := now;
      if key !in store {
        return None;
      }
      var entry := store[key];
      if now > entry.expiresAt {
        store := store - {key};
        return None;
      }
      return Some(entry.value);
    }

    method SetValue(key: string, value: T, ttl: Option<int>, now: int)
      requires Valid() && clock <= now
      modifies this
      ensures Valid() && clock == now
      ensures history == old(history) + [Set(key, value, now + ttl.GetOr(defaultTtl))]
    {
      var expiresAt := now + ttl.GetOr(defaultTtl);
      store := store[key := Entry(value, expiresAt)];
      Note(Set(key, value, expiresAt), now);
    }

    method Invalidate(key: string, ghost now: int)
      requires Valid() && clock <= now
      modifies this
      ensures Valid() && clock == now && history == old(history) + [Forget(key)]
    {
      store := store - {key};
      Note(Forget(key), now);
    }

    method InvalidateByPrefix(prefix: string, ghost now: int)
      requires Valid() && clock <= now
      modifies this
      ensures Valid() && clock == now && history == old(history) + [ForgetPrefix(prefix)]
    {
      var keys := store.Keys;
      while keys != {}
        invariant keys <= old(store).Keys
        invariant history == old(history) && clock == old(clock)
        invariant store == map k | k in old(store) && (k in keys || !(prefix <= k)) :: old(store)[k]
        decreases |keys|
      {
        var key :| key in keys;
        if prefix <= key {
          store := store - {key};
        }
        keys := keys - {key};
      }
      Note(ForgetPrefix(prefix), now);
    }

    method InvalidateAll(ghost now: int)
      requires Valid() && clock <= now
      modifies this
      ensures Valid() && clock == now && history == old(history) + [ForgetAll]
    {
      store := map[];
      Note(ForgetAll, now);
    }

    method DropExpired(now: int)
      modifies `store
      ensures store == map k | k in old(store) && now <= old(store)[k].expiresAt :: old(store)[k]
    {
      var keys := store.Keys;
      while keys != {}
        invariant keys <= old(store).Keys
        invariant store == map k | k in old(store) && (k in keys || now <= old(store)[k].expiresAt) :: old(store)[k]
        decreases |keys|
      {
        var key :| key in keys;
        if now > store[key].expiresAt {
          store := store - {key};
        }
        keys := keys - {key};
      }
    }

    /** Counts exactly the keys a reader would find, and drops the others from the store. */
    method Size(now: int) returns (n: nat)
      requires Valid() && clock <= now
      modifies this
      ensures Valid() && clock == now && history == old(history)
      ensures n == |set k | k in KeysSet(history) && Visible(history, k, now).Some?|
    {
      DropExpired(now);
      clock := now;
      n := |store|;
      forall k
        ensures k in store <==> k in KeysSet(history) && Visible(history, k, now).Some?
      {
        StoredWasSet(history, k);
      }
      assert store.Keys == set k | k in KeysSet(history) && Visible(history, k, now).Some?;
    }

    /** Adds a write, already carried out on the store, to the history. */
    ghost method Note(w: Write<T>, now: int)
      requires clock <= now
      requires forall k :: if k in store
        then Some(store[k]) == (if w.Set? && w.key == k then Some(Entry(w.value, w.expiresAt)) else Stored(history, k)) &&
             !Forgets(w, k)
        else (w.Set? ==> w.key != k) &&
             (!Forgets(w, k) && Stored(history, k).Some? ==> Stored(history, k).value.expiresAt < clock)
      modifies this`history, this`clock
      ensures Valid() && clock == now && history == old(history) + [w]
    {
      forall k { StoredAfter(history, w, k); }
      history, clock := history + [w], now;
    }

    /** `getOrSet` up to the `await` of its fetch: a cached value ends it. */
    method GetOrSetBegins(key: string, now: int) returns (cached: Option<T>)
      requires Valid() && clock <= now
      modifies this
      ensures Valid() && clock == now && history == old(history)
      ensures cached == Visible(history, key, now)
    {
      cached := Get(key, now);
    }

    /** The rest of `getOrSet`, when the fetch has resolved; any other calls may have come in between. */
    method GetOrSetEnds(key: string, fetched: T, ttl: Option<int>, now: int) returns (value: T)
      requires Valid() && clock <= now
      modifies this
      ensures Valid() && clock == now && value == fetched
      ensures history == old(history) + [Set(key, fetched, now + ttl.GetOr(defaultTtl))]
      ensures ttl.GetOr(defaultTtl) >= 0 ==> Visible(history, key, now) == Some(fetched)
    {
      SetValue(key, fetched, ttl, now);
      ghost var w := Set(key, fetched, now + ttl.GetOr(defaultTtl));
      StoredAfter(old(history), w, key);
      value := fetched;
    }
  }

  predicate Touches<T>(w: Write<T>, key: string) {
    Forgets(w, key) || (w.Set? && w.key == key)
  }

  lemma {:induction false} StoredUntouched<T>(history: seq<Write<T>>, during: seq<Write<T>>, key: string)
    requires forall i :: 0 <= i < |during| ==> !Touches(during[i], key)
    ensures Stored(history + during, key) == Stored(history, key)
  {
    if during == [] {
      assert history + during == history;
    } else {
      var before, last := during[..|during| - 1], during[|during| - 1];
      StoredUntouched(history, before, key);
      StoredAfter(history + before, last, key);
      assert history + during == history + before + [last];
    }
  }

  /**
   What a fetch brings is shown to readers whatever happened to the key while it was awaited, an
   invalidation included: a reader sees the fetched value as long as it lasts and nothing touches the key.
   */
  lemma FetchOutlivesInvalidation<T>(
      history: seq<Write<T>>, during: seq<Write<T>>, after: seq<Write<T>>, key: string, fetched: T, expiresAt: int, now: int)
    requires forall i :: 0 <= i < |after| ==> !Touches(after[i], key)
    ensures Visible(history + during + [Set(key, fetched, expiresAt)] + after, key, now) ==
      if now <= expiresAt then Some(fetched) else None
  {
    StoredUntouched(history + during + [Set(key, fetched, expiresAt)], after, key);
    StoredAfter(history + during, Set(key, fetched, expiresAt), key);
  }
}
