/**
 * What every SpyCache operation does, as a pure function from the cache's
 * observable state before the call to the state after it and the value it
 * returns. The methods of `JCache.SpyCache` are proved to follow these
 * functions; the lemmas below state what the source promises about them.
 *
 * Every compound operation is built from get, put, remove and replace in
 * the order the source calls them, so event, statistics and return-value
 * facts follow by composition.
 */
module CacheSpec {
  import opened Java
  import opened Memcached
  import opened Expiry
  import opened Configuration
  import opened Naming

  /** The statistics counters. */
  datatype Stats = Stats(hits: nat, misses: nat, puts: nat, removals: nat)

  /** The JSR-107 event types the adapter raises. */
  datatype EventType = Created | Updated | Removed

  /** The listener interface handed to the dispatcher with an event. */
  datatype ListenerKind = CreatedListener | UpdatedListener | RemovedListener

  /** One dispatch: listener interface, event type, key and value. */
  datatype Event = Event(listener: ListenerKind, kind: EventType, key: Obj, value: Option<Obj>)

  /** One call of the cache writer: `write(entry)` or `delete(key)`. */
  datatype WriterCall = Write(key: Obj, value: Obj) | Delete(key: Obj)

  /** One call of the cache loader: `load(key)` or `loadAll(keys)`. */
  datatype LoaderCall = Load(key: Obj) | LoadAll(keys: seq<Obj>)

  /** The completion listener's callback that `loadAll` calls. */
  datatype Completion = OnCompletion | OnException

  /** What an entry processor does through its entry: `remove()` or `setValue(v)`. */
  datatype EntryOp = RemoveEntry | SetEntryValue(value: Obj)

  /** What an entry processor can see of its entry: key, value and `exists()`. */
  datatype EntryView = EntryView(key: Obj, value: Option<Obj>, present: bool)

  /**
   * A user entry processor: the calls it makes on its entry and the value
   * it returns, both decided by the entry it sees and the arguments.
   */
  datatype Processor = Processor(ops: (EntryView, seq<Obj>) -> seq<EntryOp>,
                                 result: (EntryView, seq<Obj>) -> Option<Obj>)

  /**
   * What a call reads of the cache without changing it: its name and the
   * manager's separator, the configuration's switches, the loader, whether
   * any listener is registered, and the expiry policy's creation duration.
   */
  datatype Env = Env(name: string, separator: string, statistics: bool,
                     readThrough: bool, writeThrough: bool, loader: Option<Loader>,
                     listening: bool, creation: Duration)
  {
    /** Read-through is only ever in force with a loader. */
    predicate Coherent()
    {
      readThrough ==> loader.Some?
    }

    function Wire(key: Obj): string
    {
      CompositeKey(name, separator, key)
    }

    function Stamp(now: Int64): Int32
    {
      ExpiredTimeStamp(creation, now)
    }
  }

  /**
   * The observable state of one cache: the shared store, the counters, and
   * the logs of dispatched events, writer calls and loader calls.
   */
  datatype St = St(store: map<string, Stored>, stats: Stats, events: seq<Event>,
                   writes: seq<WriterCall>, loads: seq<LoaderCall>)

  function UpdatedEvent(key: Obj, value: Obj): Event
  {
    Event(UpdatedListener, Updated, key, Some(value))
  }

  /** The event `putIfAbsent` raises, handed to the removed-listener interface. */
  function CreatedEvent(key: Obj, value: Obj): Event
  {
    Event(RemovedListener, Created, key, Some(value))
  }

  function RemovedEvent(key: Obj): Event
  {
    Event(RemovedListener, Removed, key, None)
  }

  /** An event reaches the log only when some listener is registered. */
  function Dispatch(e: Env, s: St, ev: Event): St
  {
    if e.listening then s.(events := s.events + [ev]) else s
  }

  function WriteThrough(e: Env, s: St, call: WriterCall): St
  {
    if e.writeThrough then s.(writes := s.writes + [call]) else s
  }

  // ---------------------------------------------------------------------
  // The four primitives

  /** `put(key, value)`: set, count, write through, raise UPDATED. */
  function Put(e: Env, s: St, key: Obj, value: Obj, now: Int64): St
  {
    Dispatch(e, WriteThrough(e, PutStore(e, s, key, value, now), Write(key, value)), UpdatedEvent(key, value))
  }

  /** The part of `put` the store and the counters see. */
  function PutStore(e: Env, s: St, key: Obj, value: Obj, now: Int64): St
  {
    var s1 := s.(store := s.store[e.Wire(key) := Stored(value, e.Stamp(now))]);
    if e.statistics then s1.(stats := s1.stats.(puts := s1.stats.puts + 1)) else s1
  }

  /**
   * `get(key)`: read the store and count a hit or a miss; with read-through
   * in force, then ask the loader (whatever the store held), store a
   * non-null answer through `put` and return the loader's answer.
   */
  function Get(e: Env, s: St, key: Obj, now: Int64): (St, Option<Obj>)
    requires e.Coherent()
  {
    var found := Lookup(s.store, e.Wire(key));
    var s1 := if !e.statistics then s
              else if found.Some? then s.(stats := s.stats.(hits := s.stats.hits + 1))
              else s.(stats := s.stats.(misses := s.stats.misses + 1));
    if e.readThrough then
      var loaded := e.loader.value.load(key);
      var s2 := s1.(loads := s1.loads + [Load(key)]);
      if loaded.Some? then (Put(e, s2, key, loaded.value, now), loaded) else (s2, None)
    else (s1, found)
  }

  /** `remove(key)`: delete unconditionally, count, write through, raise REMOVED. */
  function Remove(e: Env, s: St, key: Obj): St
  {
    var s1 := s.(store := s.store - {e.Wire(key)});
    var s2 := if e.statistics then s1.(stats := s1.stats.(removals := s1.stats.removals + 1)) else s1;
    Dispatch(e, WriteThrough(e, s2, Delete(key)), RemovedEvent(key))
  }

  /**
   * `replace(key, value)`: the backend's replace-if-present. When its
   * future completes, the writer and the UPDATED event run whatever it
   * answered; when it throws (`fault`), the answer is false. Either way
   * a true answer counts a put and a hit, a false one a miss.
   */
  function Replace(e: Env, s: St, key: Obj, value: Obj, now: Int64, fault: bool): (St, bool)
  {
    var applied := !fault && e.Wire(key) in s.store;
    (CountReplace(e, ReplaceNotify(e, ReplaceStore(e, s, key, value, now, fault), key, value, fault), applied), applied)
  }

  /** The backend's replace-if-present; a failure leaves the store alone. */
  function ReplaceStore(e: Env, s: St, key: Obj, value: Obj, now: Int64, fault: bool): St
  {
    if !fault && e.Wire(key) in s.store then s.(store := s.store[e.Wire(key) := Stored(value, e.Stamp(now))]) else s
  }

  /** Writer and UPDATED event, both skipped when the backend failed. */
  function ReplaceNotify(e: Env, s: St, key: Obj, value: Obj, fault: bool): St
  {
    if fault then s else Dispatch(e, WriteThrough(e, s, Write(key, value)), UpdatedEvent(key, value))
  }

  /** A put and a hit for a replace that applied, a miss otherwise. */
  function CountReplace(e: Env, s: St, applied: bool): St
  {
    if !e.statistics then s
    else if applied then s.(stats := s.stats.(puts := s.stats.puts + 1, hits := s.stats.hits + 1))
    else s.(stats := s.stats.(misses := s.stats.misses + 1))
  }

  // ---------------------------------------------------------------------
  // Compound operations

  /** `containsKey(key)`: a full `get`, non-null. */
  function ContainsKey(e: Env, s: St, key: Obj, now: Int64): (St, bool)
    requires e.Coherent()
  {
    var (s1, v) := Get(e, s, key, now);
    (s1, v.Some?)
  }

  /** `getAndPut(key, value)`: get, then put; returns what get returned. */
  function GetAndPut(e: Env, s: St, key: Obj, value: Obj, now: Int64): (St, Option<Obj>)
    requires e.Coherent()
  {
    var (s1, prior) := Get(e, s, key, now);
    (Put(e, s1, key, value, now), prior)
  }

  /** `putIfAbsent(key, value)`: when `containsKey` is false, put and raise CREATED. */
  function PutIfAbsent(e: Env, s: St, key: Obj, value: Obj, now: Int64): (St, bool)
    requires e.Coherent()
  {
    var (s1, present) := ContainsKey(e, s, key, now);
    if present then (s1, false)
    else (Dispatch(e, Put(e, s1, key, value, now), CreatedEvent(key, value)), true)
  }

  /** `remove(key, oldValue)`: get; remove only when the value equals `expected`. */
  function RemoveIfEquals(e: Env, s: St, key: Obj, expected: Obj, now: Int64): (St, bool)
    requires e.Coherent()
  {
    var (s1, v) := Get(e, s, key, now);
    if v == Some(expected) then (Remove(e, s1, key), true) else (s1, false)
  }

  /** `getAndRemove(key)`: get; remove only when there was a value. */
  function GetAndRemove(e: Env, s: St, key: Obj, now: Int64): (St, Option<Obj>)
    requires e.Coherent()
  {
    var (s1, v) := Get(e, s, key, now);
    if v.Some? then (Remove(e, s1, key), v) else (s1, None)
  }

  /** `replace(key, oldValue, newValue)`: get; replace only when the value equals `expected`. */
  function ReplaceIfEquals(e: Env, s: St, key: Obj, expected: Obj, value: Obj, now: Int64, fault: bool): (St, bool)
    requires e.Coherent()
  {
    var (s1, v) := Get(e, s, key, now);
    if v == Some(expected) then Replace(e, s1, key, value, now, fault) else (s1, false)
  }

  /** `getAndReplace(key, value)`: get, then replace; returns what get returned. */
  function GetAndReplace(e: Env, s: St, key: Obj, value: Obj, now: Int64, fault: bool): (St, Option<Obj>)
    requires e.Coherent()
  {
    var (s1, prior) := Get(e, s, key, now);
    (Replace(e, s1, key, value, now, fault).0, prior)
  }

  /** `getAll(keys)`: one get per key, in iteration order, keeping the non-null values. */
  function GetAll(e: Env, s: St, keys: seq<Obj>, now: Int64): (St, map<Obj, Obj>)
    requires e.Coherent()
  {
    if keys == [] then (s, map[])
    else
      var (s1, m) := GetAll(e, s, keys[..|keys| - 1], now);
      var k := keys[|keys| - 1];
      var (s2, v) := Get(e, s1, k, now);
      (s2, if v.Some? then m[k := v.value] else m)
  }

  /** `putAll(map)`: one put per entry, in iteration order. */
  function PutAll(e: Env, s: St, entries: seq<(Obj, Obj)>, now: Int64): St
  {
    if entries == [] then s
    else
      var last := entries[|entries| - 1];
      Put(e, PutAll(e, s, entries[..|entries| - 1], now), last.0, last.1, now)
  }

  /** `removeAll(keys)`: one remove per key, in iteration order. */
  function RemoveAll(e: Env, s: St, keys: seq<Obj>): St
  {
    if keys == [] then s
    else Remove(e, RemoveAll(e, s, keys[..|keys| - 1]), keys[|keys| - 1])
  }

  /**
   * The keys `loadAll` hands to the loader: every key when replacing,
   * otherwise those whose `containsKey` is false (each check is a get).
   */
  function KeysToLoad(e: Env, s: St, keys: seq<Obj>, replace: bool, now: Int64): (St, seq<Obj>)
    requires e.Coherent()
  {
    if keys == [] then (s, [])
    else
      var (s1, chosen) := KeysToLoad(e, s, keys[..|keys| - 1], replace, now);
      var k := keys[|keys| - 1];
      if replace then (s1, chosen + [k])
      else
        var (s2, present) := ContainsKey(e, s1, k, now);
        (s2, if present then chosen else chosen + [k])
  }

  /**
   * `loadAll(keys, replace, listener)`: with no loader, only signal
   * completion; otherwise choose the keys, call the loader's batch load,
   * put every entry it returns and signal completion, or signal the
   * failure. `hasListener` is false for a null completion listener.
   */
  function LoadAllKeys(e: Env, s: St, keys: seq<Obj>, replace: bool, hasListener: bool, now: Int64): (St, Option<Completion>)
    requires e.Coherent()
  {
    if e.loader.None? then (s, if hasListener then Some(OnCompletion) else None)
    else
      var (s1, chosen) := KeysToLoad(e, s, keys, replace, now);
      var s2 := s1.(loads := s1.loads + [LoadAll(chosen)]);
      match e.loader.value.loadAll(chosen)
      case Loaded(entries) => (PutAll(e, s2, entries, now), if hasListener then Some(OnCompletion) else None)
      case LoadFailed => (s2, if hasListener then Some(OnException) else None)
  }

  /** The calls a processor makes on its entry, each routed to remove or put. */
  function ApplyOps(e: Env, s: St, key: Obj, ops: seq<EntryOp>, now: Int64): St
  {
    if ops == [] then s
    else
      var s1 := ApplyOps(e, s, key, ops[..|ops| - 1], now);
      match ops[|ops| - 1]
      case RemoveEntry => Remove(e, s1, key)
      case SetEntryValue(v) => Put(e, s1, key, v, now)
  }

  /**
   * `invoke(key, processor, args)`: get, wrap the value in an entry built
   * with the three-argument constructor (so `exists()` is false), and run
   * the processor on it.
   */
  function Invoke(e: Env, s: St, key: Obj, p: Processor, args: seq<Obj>, now: Int64): (St, Option<Obj>)
    requires e.Coherent()
  {
    var (s1, v) := Get(e, s, key, now);
    var view := EntryView(key, v, false);
    (ApplyOps(e, s1, key, p.ops(view, args), now), p.result(view, args))
  }

  /** `invokeAll(keys, processor, args)`: one invoke per key, keeping non-null results. */
  function InvokeAll(e: Env, s: St, keys: seq<Obj>, p: Processor, args: seq<Obj>, now: Int64): (St, map<Obj, Obj>)
    requires e.Coherent()
  {
    if keys == [] then (s, map[])
    else
      var (s1, m) := InvokeAll(e, s, keys[..|keys| - 1], p, args, now);
      var k := keys[|keys| - 1];
      var (s2, r) := Invoke(e, s1, k, p, args, now);
      (s2, if r.Some? then m[k := r.value] else m)
  }

  /** Running one more operation extends `ApplyOps` by that operation. */
  lemma ApplyOpsStep(e: Env, s: St, key: Obj, ops: seq<EntryOp>, i: nat, now: Int64)
    requires i < |ops|
    ensures ApplyOps(e, s, key, ops[..i + 1], now) ==
            match ops[i]
            case RemoveEntry => Remove(e, ApplyOps(e, s, key, ops[..i], now), key)
            case SetEntryValue(v) => Put(e, ApplyOps(e, s, key, ops[..i], now), key, v, now)
  {
    assert ops[..i + 1][..i] == ops[..i];
  }

  /** Invoking on one more key extends `InvokeAll` by that key's invoke. */
  lemma InvokeAllStep(e: Env, s: St, keys: seq<Obj>, p: Processor, args: seq<Obj>, i: nat, now: Int64)
    requires e.Coherent() && i < |keys|
    ensures InvokeAll(e, s, keys[..i + 1], p, args, now) ==
            var (s1, m) := InvokeAll(e, s, keys[..i], p, args, now);
            var (s2, r) := Invoke(e, s1, keys[i], p, args, now);
            (s2, if r.Some? then m[keys[i] := r.value] else m)
  {
    assert keys[..i + 1][..i] == keys[..i];
  }

  // ---------------------------------------------------------------------
  // Properties of get

  /**
   * Without read-through, `get` returns what the store holds and changes
   * nothing but the counters: with statistics on, exactly one of hits
   * (value present) or misses (value absent) goes up by one.
   */
  lemma GetWithoutReadThrough(e: Env, s: St, key: Obj, now: Int64)
    requires e.Coherent() && !e.readThrough
    ensures var (t, r) := Get(e, s, key, now);
      && r == Lookup(s.store, e.Wire(key))
      && t.(stats := s.stats) == s
      && t.stats.puts == s.stats.puts && t.stats.removals == s.stats.removals
      && t.stats.hits == s.stats.hits + (if e.statistics && r.Some? then 1 else 0)
      && t.stats.misses == s.stats.misses + (if e.statistics && r.None? then 1 else 0)
  {
  }

  /**
   * With read-through in force the loader is asked on every get, present
   * or not; its answer is returned, and a non-null answer is stored
   * through `put` (so it is counted as a put and raises UPDATED).
   */
  lemma GetWithReadThrough(e: Env, s: St, key: Obj, now: Int64)
    requires e.Coherent() && e.readThrough
    ensures var (t, r) := Get(e, s, key, now);
      && r == e.loader.value.load(key)
      && t.loads == s.loads + [Load(key)]
      && (r.None? ==> t.store == s.store && t.events == s.events && t.writes == s.writes)
      && (r.Some? ==> t.store == s.store[e.Wire(key) := Stored(r.value, e.Stamp(now))])
      && (r.Some? ==> t.events == s.events + (if e.listening then [UpdatedEvent(key, r.value)] else []))
      && (r.Some? ==> t.writes == s.writes + (if e.writeThrough then [Write(key, r.value)] else []))
      && t.stats.puts == s.stats.puts + (if e.statistics && r.Some? then 1 else 0)
  {
  }

  /**
   * Whatever the configuration, a get with statistics on counts exactly
   * one hit or one miss, and the hit is counted iff the store had the key.
   */
  lemma GetCountsOneHitOrMiss(e: Env, s: St, key: Obj, now: Int64)
    requires e.Coherent() && e.statistics
    ensures var t := Get(e, s, key, now).0;
      && t.stats.hits + t.stats.misses == s.stats.hits + s.stats.misses + 1
      && (t.stats.hits == s.stats.hits + 1 <==> e.Wire(key) in s.store)
  {
  }

  /** A key never written reads as null and, with statistics on, counts a miss. */
  lemma NeverWrittenKeyMisses(e: Env, s: St, key: Obj, now: Int64)
    requires e.Coherent() && !e.readThrough && e.Wire(key) !in s.store
    ensures Get(e, s, key, now).1 == None
    ensures e.statistics ==> Get(e, s, key, now).0.stats.misses == s.stats.misses + 1
  {
  }

  // ---------------------------------------------------------------------
  // Properties of put

  /**
   * `put` sets the wire key to the value with the policy's stamp and
   * leaves every other wire key alone; it counts one put when statistics
   * are on, calls the writer only with write-through in force, and raises
   * exactly one UPDATED event when a listener is registered, never CREATED.
   */
  lemma PutEffect(e: Env, s: St, key: Obj, value: Obj, now: Int64)
    ensures var t := Put(e, s, key, value, now);
      && e.Wire(key) in t.store && t.store[e.Wire(key)] == Stored(value, e.Stamp(now))
      && (forall w :: w != e.Wire(key) ==> (w in t.store <==> w in s.store))
      && (forall w :: w != e.Wire(key) && w in s.store ==> t.store[w] == s.store[w])
      && t.stats == s.stats.(puts := s.stats.puts + (if e.statistics then 1 else 0))
      && t.writes == s.writes + (if e.writeThrough then [Write(key, value)] else [])
      && t.events == s.events + (if e.listening then [UpdatedEvent(key, value)] else [])
      && (forall i :: |s.events| <= i < |t.events| ==> t.events[i].kind != Created)
      && t.loads == s.loads
  {
  }

  /** Without read-through, a get right after a put returns the value put. */
  lemma GetAfterPut(e: Env, s: St, key: Obj, value: Obj, now: Int64)
    requires e.Coherent() && !e.readThrough
    ensures Get(e, Put(e, s, key, value, now), key, now).1 == Some(value)
  {
  }

  /**
   * The read-through scenario: a loader that answers `v` for every key
   * makes `get` of a missing key return `v`, and the store then holds `v`
   * under that key's wire key.
   */
  lemma ReadThroughStoresLoadedValue(e: Env, s: St, key: Obj, v: Obj, now: Int64)
    requires e.Coherent() && e.readThrough
    requires forall k :: e.loader.value.load(k) == Some(v)
    ensures Get(e, s, key, now).1 == Some(v)
    ensures Lookup(Get(e, s, key, now).0.store, e.Wire(key)) == Some(v)
  {
  }

  /** `getAndPut` returns what `get` returned and leaves the value put in place. */
  lemma GetAndPutEffect(e: Env, s: St, key: Obj, value: Obj, now: Int64)
    requires e.Coherent()
    ensures GetAndPut(e, s, key, value, now).1 == Get(e, s, key, now).1
    ensures Lookup(GetAndPut(e, s, key, value, now).0.store, e.Wire(key)) == Some(value)
  {
  }

  /**
   * `putIfAbsent` answers true exactly when `containsKey` is false. Then
   * it puts and, with a listener registered, raises UPDATED and then
   * CREATED; otherwise nothing is set, written or raised after the check.
   */
  lemma PutIfAbsentEffect(e: Env, s: St, key: Obj, value: Obj, now: Int64)
    requires e.Coherent()
    ensures var (c, present) := ContainsKey(e, s, key, now);
      var (t, r) := PutIfAbsent(e, s, key, value, now);
      && r == !present
      && (!r ==> t == c)
      && (r ==> t.store == c.store[e.Wire(key) := Stored(value, e.Stamp(now))])
      && (r ==> t.events == c.events +
                 (if e.listening then [UpdatedEvent(key, value), CreatedEvent(key, value)] else []))
  {
  }

  /**
   * Without read-through, on an absent key `putIfAbsent` returns true,
   * stores the value and raises UPDATED then CREATED; on a present key it
   * returns false and leaves the store, the events and the writer alone.
   */
  lemma PutIfAbsentWithoutReadThrough(e: Env, s: St, key: Obj, value: Obj, now: Int64)
    requires e.Coherent() && !e.readThrough
    ensures var (t, r) := PutIfAbsent(e, s, key, value, now);
      && (r <==> e.Wire(key) !in s.store)
      && (r ==> t.store == s.store[e.Wire(key) := Stored(value, e.Stamp(now))])
      && (r ==> t.events == s.events +
                 (if e.listening then [UpdatedEvent(key, value), CreatedEvent(key, value)] else []))
      && (!r ==> t.store == s.store && t.events == s.events && t.writes == s.writes)
  {
  }

  // ---------------------------------------------------------------------
  // Properties of remove

  /**
   * `remove` deletes the wire key whether or not it was there, counts one
   * removal with statistics on, calls `writer.delete` with write-through
   * in force and raises one REMOVED event when a listener is registered.
   */
  lemma RemoveEffect(e: Env, s: St, key: Obj)
    ensures var t := Remove(e, s, key);
      && e.Wire(key) !in t.store
      && (forall w :: w != e.Wire(key) && w in s.store ==> w in t.store && t.store[w] == s.store[w])
      && t.store.Keys <= s.store.Keys
      && t.stats == s.stats.(removals := s.stats.removals + (if e.statistics then 1 else 0))
      && t.writes == s.writes + (if e.writeThrough then [Delete(key)] else [])
      && t.events == s.events + (if e.listening then [RemovedEvent(key)] else [])
  {
  }

  /** `getAndRemove` on a key whose get is null returns null and deletes nothing. */
  lemma GetAndRemoveAbsent(e: Env, s: St, key: Obj, now: Int64)
    requires e.Coherent() && Get(e, s, key, now).1.None?
    ensures GetAndRemove(e, s, key, now) == Get(e, s, key, now)
  {
  }

  /** `getAndRemove` on a key whose get is non-null removes it and returns the value. */
  lemma GetAndRemovePresent(e: Env, s: St, key: Obj, now: Int64)
    requires e.Coherent() && Get(e, s, key, now).1.Some?
    ensures var (g, v) := Get(e, s, key, now);
      GetAndRemove(e, s, key, now) == (Remove(e, g, key), v)
  {
  }

  /** `remove(key, old)` deletes, and answers true, exactly when the value equals `old`. */
  lemma RemoveIfEqualsEffect(e: Env, s: St, key: Obj, expected: Obj, now: Int64)
    requires e.Coherent()
    ensures var (g, v) := Get(e, s, key, now);
      var (t, r) := RemoveIfEquals(e, s, key, expected, now);
      && (r <==> v == Some(expected))
      && (r ==> t == Remove(e, g, key))
      && (!r ==> t == g)
  {
  }

  // ---------------------------------------------------------------------
  // Properties of replace

  /**
   * `replace(key, value)`: a backend failure answers false and changes
   * nothing but one miss; otherwise the answer is whether the key was
   * present, the writer and the UPDATED event run either way, and the
   * counters record a put and a hit on true, a miss on false.
   */
  lemma ReplaceEffect(e: Env, s: St, key: Obj, value: Obj, now: Int64, fault: bool)
    ensures var (t, r) := Replace(e, s, key, value, now, fault);
      && (r <==> !fault && e.Wire(key) in s.store)
      && (r ==> t.store == s.store[e.Wire(key) := Stored(value, e.Stamp(now))])
      && (!r ==> t.store == s.store)
      && (fault ==> t.events == s.events && t.writes == s.writes)
      && (!fault ==> t.events == s.events + (if e.listening then [UpdatedEvent(key, value)] else []))
      && (!fault ==> t.writes == s.writes + (if e.writeThrough then [Write(key, value)] else []))
      && (e.statistics && r ==> t.stats == s.stats.(puts := s.stats.puts + 1, hits := s.stats.hits + 1))
      && (e.statistics && !r ==> t.stats == s.stats.(misses := s.stats.misses + 1))
      && (!e.statistics ==> t.stats == s.stats)
      && t.loads == s.loads
  {
  }

  /**
   * `replace(key, old, new)` with a null or different current value
   * answers false without a backend replace: the state is the get's.
   */
  lemma ReplaceIfEqualsMismatch(e: Env, s: St, key: Obj, expected: Obj, value: Obj, now: Int64, fault: bool)
    requires e.Coherent() && Get(e, s, key, now).1 != Some(expected)
    ensures ReplaceIfEquals(e, s, key, expected, value, now, fault) == (Get(e, s, key, now).0, false)
  {
  }

  /**
   * Without read-through and a backend failure, `replace(key, old, new)`
   * answers true iff the stored value equals `old`, and then a get
   * returns `new`.
   */
  lemma ReplaceIfEqualsWithoutReadThrough(e: Env, s: St, key: Obj, expected: Obj, value: Obj, now: Int64)
    requires e.Coherent() && !e.readThrough
    ensures var (t, r) := ReplaceIfEquals(e, s, key, expected, value, now, false);
      && (r <==> Lookup(s.store, e.Wire(key)) == Some(expected))
      && (r ==> Get(e, t, key, now).1 == Some(value))
  {
  }

  /** `getAndReplace` returns the get's value whether or not the replace applied. */
  lemma GetAndReplaceReturnsPrior(e: Env, s: St, key: Obj, value: Obj, now: Int64, fault: bool)
    requires e.Coherent()
    ensures var (g, v) := Get(e, s, key, now);
      GetAndReplace(e, s, key, value, now, fault) == (Replace(e, g, key, value, now, fault).0, v)
  {
  }

  // ---------------------------------------------------------------------
  // Properties of the bulk operations

  /**
   * Without read-through, `getAll` leaves the store, events, writer and
   * loader alone, returns exactly the keys present in the store with their
   * stored values, and with statistics on counts one hit or miss per key.
   */
  lemma {:induction false} GetAllWithoutReadThrough(e: Env, s: St, keys: seq<Obj>, now: Int64)
    requires e.Coherent() && !e.readThrough
    ensures var (t, m) := GetAll(e, s, keys, now);
      && t.(stats := s.stats) == s
      && (forall k :: k in m <==> k in keys && e.Wire(k) in s.store)
      && (forall k :: k in m ==> m[k] == s.store[e.Wire(k)].value)
      && t.stats.hits + t.stats.misses == s.stats.hits + s.stats.misses + (if e.statistics then |keys| else 0)
    decreases |keys|
  {
    if keys != [] {
      var init := keys[..|keys| - 1];
      GetAllWithoutReadThrough(e, s, init, now);
      var (s1, m1) := GetAll(e, s, init, now);
      GetWithoutReadThrough(e, s1, keys[|keys| - 1], now);
      assert keys == init + [keys[|keys| - 1]];
    }
  }

  /**
   * `putAll` performs one put per entry: with statistics on the put count
   * grows by the number of entries, each entry raises one UPDATED event
   * when a listener is registered, and nothing is removed or loaded.
   */
  lemma {:induction false} PutAllCounts(e: Env, s: St, entries: seq<(Obj, Obj)>, now: Int64)
    ensures var t := PutAll(e, s, entries, now);
      && t.stats == s.stats.(puts := s.stats.puts + (if e.statistics then |entries| else 0))
      && |t.events| == |s.events| + (if e.listening then |entries| else 0)
      && (forall i :: |s.events| <= i < |t.events| ==> t.events[i].kind == Updated)
      && |t.writes| == |s.writes| + (if e.writeThrough then |entries| else 0)
      && s.store.Keys <= t.store.Keys
      && t.loads == s.loads
    decreases |entries|
  {
    if entries != [] {
      var last := entries[|entries| - 1];
      PutAllCounts(e, s, entries[..|entries| - 1], now);
      PutEffect(e, PutAll(e, s, entries[..|entries| - 1], now), last.0, last.1, now);
    }
  }

  /**
   * After `putAll`, an entry whose key's wire key no later entry shares is
   * stored with its value.
   */
  lemma {:induction false} PutAllLastWins(e: Env, s: St, entries: seq<(Obj, Obj)>, j: nat, now: Int64)
    requires j < |entries|
    requires forall i :: j < i < |entries| ==> e.Wire(entries[i].0) != e.Wire(entries[j].0)
    ensures var t := PutAll(e, s, entries, now);
      e.Wire(entries[j].0) in t.store && t.store[e.Wire(entries[j].0)] == Stored(entries[j].1, e.Stamp(now))
    decreases |entries|
  {
    var init := entries[..|entries| - 1];
    if j < |entries| - 1 {
      assert init[j] == entries[j];
      PutAllLastWins(e, s, init, j, now);
    }
  }

  /**
   * `removeAll(keys)` deletes every key's wire key, keeps every other
   * wire key, and counts one removal per key with statistics on.
   */
  lemma {:induction false} RemoveAllEffect(e: Env, s: St, keys: seq<Obj>)
    ensures var t := RemoveAll(e, s, keys);
      && (forall k :: k in keys ==> e.Wire(k) !in t.store)
      && (forall w :: w in s.store && (forall k :: k in keys ==> e.Wire(k) != w) ==> w in t.store && t.store[w] == s.store[w])
      && t.store.Keys <= s.store.Keys
      && t.stats.removals == s.stats.removals + (if e.statistics then |keys| else 0)
      && |t.events| == |s.events| + (if e.listening then |keys| else 0)
    decreases |keys|
  {
    if keys != [] {
      var init := keys[..|keys| - 1];
      RemoveAllEffect(e, s, init);
      RemoveEffect(e, RemoveAll(e, s, init), keys[|keys| - 1]);
      assert keys == init + [keys[|keys| - 1]];
    }
  }

  /** With no loader, `loadAll` touches no key and only signals completion. */
  lemma LoadAllWithoutLoader(e: Env, s: St, keys: seq<Obj>, replace: bool, hasListener: bool, now: Int64)
    requires e.Coherent() && e.loader.None?
    ensures LoadAllKeys(e, s, keys, replace, hasListener, now) == (s, if hasListener then Some(OnCompletion) else None)
  {
  }

  /** When replacing, every key is handed to the loader and no key is checked. */
  lemma {:induction false} ReplacingLoadsEveryKey(e: Env, s: St, keys: seq<Obj>, now: Int64)
    requires e.Coherent()
    ensures KeysToLoad(e, s, keys, true, now) == (s, keys)
    decreases |keys|
  {
    if keys != [] {
      ReplacingLoadsEveryKey(e, s, keys[..|keys| - 1], now);
      assert keys == keys[..|keys| - 1] + [keys[|keys| - 1]];
    }
  }

  /**
   * Without replacing and without read-through, the loader is handed
   * exactly the keys absent from the store, in order, and the checks leave
   * everything but the counters alone.
   */
  lemma {:induction false} KeysToLoadAbsent(e: Env, s: St, keys: seq<Obj>, now: Int64)
    requires e.Coherent() && !e.readThrough
    ensures var (t, chosen) := KeysToLoad(e, s, keys, false, now);
      && t.(stats := s.stats) == s
      && (forall k :: k in chosen <==> k in keys && e.Wire(k) !in s.store)
    decreases |keys|
  {
    if keys != [] {
      var init := keys[..|keys| - 1];
      KeysToLoadAbsent(e, s, init, now);
      var (s1, c1) := KeysToLoad(e, s, init, false, now);
      GetWithoutReadThrough(e, s1, keys[|keys| - 1], now);
      assert keys == init + [keys[|keys| - 1]];
    }
  }

  /**
   * With a loader whose batch load succeeds, `loadAll` calls it once with
   * the chosen keys, puts every returned entry and signals completion.
   */
  lemma LoadAllLoads(e: Env, s: St, keys: seq<Obj>, replace: bool, hasListener: bool, now: Int64)
    requires e.Coherent() && e.loader.Some?
    requires var chosen := KeysToLoad(e, s, keys, replace, now).1; e.loader.value.loadAll(chosen).Loaded?
    ensures var (s1, chosen) := KeysToLoad(e, s, keys, replace, now);
      var entries := e.loader.value.loadAll(chosen).entries;
      LoadAllKeys(e, s, keys, replace, hasListener, now)
        == (PutAll(e, s1.(loads := s1.loads + [LoadAll(chosen)]), entries, now),
            if hasListener then Some(OnCompletion) else None)
  {
  }

  /** A failing batch load stores nothing and signals the failure. */
  lemma LoadAllFailure(e: Env, s: St, keys: seq<Obj>, replace: bool, now: Int64)
    requires e.Coherent() && e.loader.Some?
    requires var chosen := KeysToLoad(e, s, keys, replace, now).1; e.loader.value.loadAll(chosen).LoadFailed?
    ensures var (s1, chosen) := KeysToLoad(e, s, keys, replace, now);
      LoadAllKeys(e, s, keys, replace, true, now) == (s1.(loads := s1.loads + [LoadAll(chosen)]), Some(OnException))
  {
  }

  /**
   * The entry an invoked processor sees carries the get's value and always
   * reports `exists()` false; a processor that makes no calls leaves the
   * state of the get.
   */
  lemma InvokeSeesFreshEntry(e: Env, s: St, key: Obj, p: Processor, args: seq<Obj>, now: Int64)
    requires e.Coherent()
    ensures var (g, v) := Get(e, s, key, now);
      && Invoke(e, s, key, p, args, now).1 == p.result(EntryView(key, v, false), args)
      && (p.ops(EntryView(key, v, false), args) == [] ==> Invoke(e, s, key, p, args, now).0 == g)
  {
  }

  /**
   * Each `setValue` a processor makes is one put and each `remove` one
   * remove: the put and removal counts grow by exactly those numbers.
   */
  lemma {:induction false} ApplyOpsCounts(e: Env, s: St, key: Obj, ops: seq<EntryOp>, now: Int64)
    ensures var t := ApplyOps(e, s, key, ops, now);
      && t.stats.puts == s.stats.puts + (if e.statistics then CountSets(ops) else 0)
      && t.stats.removals == s.stats.removals + (if e.statistics then |ops| - CountSets(ops) else 0)
      && t.stats.hits == s.stats.hits && t.stats.misses == s.stats.misses
      && t.loads == s.loads
    decreases |ops|
  {
    if ops != [] {
      ApplyOpsCounts(e, s, key, ops[..|ops| - 1], now);
    }
  }

  /** The number of `setValue` calls among `ops`. */
  function CountSets(ops: seq<EntryOp>): (n: nat)
    ensures n <= |ops|
  {
    if ops == [] then 0 else CountSets(ops[..|ops| - 1]) + (if ops[|ops| - 1].SetEntryValue? then 1 else 0)
  }

  /**
   * `invokeAll` keeps results only for keys it was given: for every key
   * when the processor never answers null, and for none when it always does.
   */
  lemma {:induction false} InvokeAllResults(e: Env, s: St, keys: seq<Obj>, p: Processor, args: seq<Obj>, now: Int64)
    requires e.Coherent()
    ensures forall k :: k in InvokeAll(e, s, keys, p, args, now).1 ==> k in keys
    ensures (forall v, a :: p.result(v, a).Some?) ==> forall k :: k in keys ==> k in InvokeAll(e, s, keys, p, args, now).1
    ensures (forall v, a :: p.result(v, a).None?) ==> InvokeAll(e, s, keys, p, args, now).1 == map[]
    decreases |keys|
  {
    if keys != [] {
      InvokeAllResults(e, s, keys[..|keys| - 1], p, args, now);
    }
  }
}
