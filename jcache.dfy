/**
 * The JSR-107 adapter itself: the cache, its mutable entry, its map view,
 * the cache manager and the caching provider. They refer to one another
 * (cache to manager, manager to provider and back), so they share one
 * module.
 *
 * Every data operation of `SpyCache` is proved to take the cache from
 * `old(State())` to the state that the matching function of `CacheSpec`
 * computes, and to return that function's value.
 */
module JCache {
  import opened Java
  import opened Memcached
  import opened Expiry
  import opened Configuration
  import opened Naming
  import Spec = CacheSpec

  /** What `unwrap` can hand back. */
  datatype Unwrapped = AsCache(cache: SpyCache) | AsMap(view: CacheMap) | AsClient(client: Backend)
                     | AsManager(manager: SpyCacheManager)

  /** The environment a cache created from `c` starts with. */
  function InitialEnv(name: string, separator: string, c: CompleteConfiguration): Spec.Env
  {
    Spec.Env(name, separator, c.statisticsEnabled,
             c.readThrough && c.loaderFactory.Some?, c.writeThrough && c.writerFactory.Some?,
             ProductOf(c.loaderFactory), |c.listenerConfigs| > 0, c.expiryFactory.product.forCreation)
  }

  class SpyCache {
    const manager: SpyCacheManager
    /** The manager's client, shared by every cache of that manager. */
    const backend: Backend
    const name: string
    const separator: string
    const configuration: SpyMutableConfiguration
    /** The listener registrations, identified by their configurations. */
    var registrations: seq<ListenerConfig>
    /** The statistics bean's counters. */
    var stats: Spec.Stats
    /** Every event handed to the dispatcher, in order. */
    var events: seq<Spec.Event>
    /** Every call made on the cache writer, in order. */
    var writerCalls: seq<Spec.WriterCall>
    /** Every call made on the cache loader, in order. */
    var loaderCalls: seq<Spec.LoaderCall>
    var isClosed: bool

    /** The observable state the data operations change. */
    function State(): Spec.St
      reads backend`store, this`stats, this`events, this`writerCalls, this`loaderCalls
    {
      Spec.St(backend.store, stats, events, writerCalls, loaderCalls)
    }

    /** What the data operations read without changing. */
    function Env(): (e: Spec.Env)
      reads this`registrations, configuration`isStatisticsEnabled, configuration`isReadThrough,
            configuration`cacheLoader, configuration`isWriteThrough, configuration`cacheWriter,
            configuration`expiryPolicy
      ensures e.Coherent()
      ensures e.name == name && e.separator == separator
      ensures e.listening <==> |registrations| > 0
    {
      Spec.Env(name, separator, configuration.isStatisticsEnabled, configuration.IsReadThroughSupport(),
               configuration.IsWriteThroughSupport(), configuration.cacheLoader, |registrations| > 0,
               configuration.expiryPolicy.forCreation)
    }

    /**
     * Copies the configuration and registers one listener for each of its
     * listener configurations; counters and logs start empty, the cache open.
     */
    constructor (manager: SpyCacheManager, backend: Backend, name: string, separator: string, c: CompleteConfiguration)
      ensures this.manager == manager && this.backend == backend
      ensures this.name == name && this.separator == separator
      ensures fresh(configuration)
      ensures configuration.keyType == c.keyType && configuration.valueType == c.valueType
      ensures configuration.listenerConfigs == c.listenerConfigs
      ensures configuration.isManagementEnabled == c.managementEnabled
      ensures registrations == c.listenerConfigs
      ensures Env() == InitialEnv(name, separator, c)
      ensures stats == Spec.Stats(0, 0, 0, 0) && events == [] && writerCalls == [] && loaderCalls == []
      ensures !isClosed
    {
      this.manager, this.backend := manager, backend;
      this.name, this.separator := name, separator;
      configuration := new SpyMutableConfiguration(c);
      var configs := c.listenerConfigs;
      var regs: seq<ListenerConfig> := [];
      var i := 0;
      while i < |configs|
        invariant 0 <= i <= |configs|
        invariant regs == configs[..i]
      {
        regs := regs + [configs[i]];
        i := i + 1;
      }
      registrations := regs;
      stats := Spec.Stats(0, 0, 0, 0);
      events, writerCalls, loaderCalls := [], [], [];
      isClosed := false;
    }

    /** `setManagementEnabled`: records the flag (the MBean is not modelled). */
    method SetManagementEnabled(enabled: bool)
      modifies configuration`isManagementEnabled
      ensures configuration.isManagementEnabled == enabled
    {
      configuration.SetManagementEnabled(enabled);
    }

    /** `setStatisticsEnabled`: switches the counters on or off. */
    method SetStatisticsEnabled(enabled: bool)
      modifies configuration`isStatisticsEnabled
      ensures Env() == old(Env()).(statistics := enabled)
    {
      configuration.SetStatisticsEnabled(enabled);
    }

    method Get(key: Obj, now: Int64) returns (value: Option<Obj>)
      modifies backend, this`stats, this`events, this`writerCalls, this`loaderCalls
      ensures (State(), value) == Spec.Get(Env(), old(State()), key, now)
    {
      value := backend.Get(CompositeKey(name, separator, key));
      if configuration.isStatisticsEnabled {
        if value.Some? {
          stats := stats.(hits := stats.hits + 1);
        } else {
          stats := stats.(misses := stats.misses + 1);
        }
      }
      if configuration.IsReadThroughSupport() {
        value := configuration.cacheLoader.value.load(key);
        loaderCalls := loaderCalls + [Spec.Load(key)];
        if value.Some? {
          Put(key, value.value, now);
        }
      }
    }

    method GetAll(keys: seq<Obj>, now: Int64) returns (m: map<Obj, Obj>)
      modifies backend, this`stats, this`events, this`writerCalls, this`loaderCalls
      ensures (State(), m) == Spec.GetAll(Env(), old(State()), keys, now)
    {
      m := map[];
      var i := 0;
      while i < |keys|
        invariant 0 <= i <= |keys|
        invariant (State(), m) == Spec.GetAll(Env(), old(State()), keys[..i], now)
      {
        var v := Get(keys[i], now);
        if v.Some? {
          m := m[keys[i] := v.value];
        }
        assert keys[..i + 1][..i] == keys[..i];
        i := i + 1;
      }
      assert keys[..|keys|] == keys;
    }

    method ContainsKey(key: Obj, now: Int64) returns (b: bool)
      modifies backend, this`stats, this`events, this`writerCalls, this`loaderCalls
      ensures (State(), b) == Spec.ContainsKey(Env(), old(State()), key, now)
    {
      var v := Get(key, now);
      b := v.Some?;
    }

    /**
     * `loadAll`; `hasListener` is false for a null completion listener and
     * the result is the callback made on it.
     */
    method LoadAll(keys: seq<Obj>, replace: bool, hasListener: bool, now: Int64) returns (signal: Option<Spec.Completion>)
      modifies backend, this`stats, this`events, this`writerCalls, this`loaderCalls
      ensures (State(), signal) == Spec.LoadAllKeys(Env(), old(State()), keys, replace, hasListener, now)
    {
      if configuration.cacheLoader.None? {
        signal := if hasListener then Some(Spec.OnCompletion) else None;
        return;
      }
      var toLoad: seq<Obj> := [];
      var i := 0;
      while i < |keys|
        invariant 0 <= i <= |keys|
        invariant (State(), toLoad) == Spec.KeysToLoad(Env(), old(State()), keys[..i], replace, now)
      {
        if replace {
          toLoad := toLoad + [keys[i]];
        } else {
          var present := ContainsKey(keys[i], now);
          if !present {
            toLoad := toLoad + [keys[i]];
          }
        }
        assert keys[..i + 1][..i] == keys[..i];
        i := i + 1;
      }
      assert keys[..|keys|] == keys;
      loaderCalls := loaderCalls + [Spec.LoadAll(toLoad)];
      match configuration.cacheLoader.value.loadAll(toLoad)
      case Loaded(entries) =>
        PutAll(entries, now);
        signal := if hasListener then Some(Spec.OnCompletion) else None;
      case LoadFailed =>
        signal := if hasListener then Some(Spec.OnException) else None;
    }

    method Put(key: Obj, value: Obj, now: Int64)
      modifies backend, this`stats, this`events, this`writerCalls
      ensures State() == Spec.Put(Env(), old(State()), key, value, now)
    {
      ghost var e, s0 := Env(), State();
      backend.Set(CompositeKey(name, separator, key), ExpiredTimeStamp(configuration.expiryPolicy.forCreation, now), value);
      if configuration.isStatisticsEnabled {
        stats := stats.(puts := stats.puts + 1);
      }
      ghost var s2 := State();
      assert s2 == Spec.PutStore(e, s0, key, value, now);
      if configuration.IsWriteThroughSupport() {
        writerCalls := writerCalls + [Spec.Write(key, value)];
      }
      assert State() == Spec.WriteThrough(e, s2, Spec.Write(key, value));
      if |registrations| > 0 {
        events := events + [Spec.UpdatedEvent(key, value)];
      }
    }

    method GetAndPut(key: Obj, value: Obj, now: Int64) returns (prior: Option<Obj>)
      modifies backend, this`stats, this`events, this`writerCalls, this`loaderCalls
      ensures (State(), prior) == Spec.GetAndPut(Env(), old(State()), key, value, now)
    {
      prior := Get(key, now);
      Put(key, value, now);
    }

    /** `putAll`, with the map given as its entries in iteration order. */
    method PutAll(entries: seq<(Obj, Obj)>, now: Int64)
      modifies backend, this`stats, this`events, this`writerCalls
      ensures State() == Spec.PutAll(Env(), old(State()), entries, now)
    {
      var i := 0;
      while i < |entries|
        invariant 0 <= i <= |entries|
        invariant State() == Spec.PutAll(Env(), old(State()), entries[..i], now)
      {
        Put(entries[i].0, entries[i].1, now);
        assert entries[..i + 1][..i] == entries[..i];
        i := i + 1;
      }
      assert entries[..|entries|] == entries;
    }

    method PutIfAbsent(key: Obj, value: Obj, now: Int64) returns (b: bool)
      modifies backend, this`stats, this`events, this`writerCalls, this`loaderCalls
      ensures (State(), b) == Spec.PutIfAbsent(Env(), old(State()), key, value, now)
    {
      var present := ContainsKey(key, now);
      if !present {
        Put(key, value, now);
        if |registrations| > 0 {
          events := events + [Spec.CreatedEvent(key, value)];
        }
        b := true;
      } else {
        b := false;
      }
    }

    /** `remove(key)`: always answers true. */
    method Remove(key: Obj) returns (b: bool)
      modifies backend, this`stats, this`events, this`writerCalls
      ensures b && State() == Spec.Remove(Env(), old(State()), key)
    {
      backend.Delete(CompositeKey(name, separator, key));
      if configuration.isStatisticsEnabled {
        stats := stats.(removals := stats.removals + 1);
      }
      if configuration.isWriteThrough && configuration.cacheWriter.Some? {
        writerCalls := writerCalls + [Spec.Delete(key)];
      }
      if |registrations| > 0 {
        events := events + [Spec.RemovedEvent(key)];
      }
      b := true;
    }

    /** `remove(key, oldValue)`. */
    method RemoveIfEquals(key: Obj, expected: Obj, now: Int64) returns (b: bool)
      modifies backend, this`stats, this`events, this`writerCalls, this`loaderCalls
      ensures (State(), b) == Spec.RemoveIfEquals(Env(), old(State()), key, expected, now)
    {
      var v := Get(key, now);
      if v.Some? && v.value == expected {
        var _ := Remove(key);
        b := true;
      } else {
        b := false;
      }
    }

    method GetAndRemove(key: Obj, now: Int64) returns (r: Option<Obj>)
      modifies backend, this`stats, this`events, this`writerCalls, this`loaderCalls
      ensures (State(), r) == Spec.GetAndRemove(Env(), old(State()), key, now)
    {
      var v := Get(key, now);
      if v.Some? {
        var _ := Remove(key);
        r := v;
      } else {
        r := None;
      }
    }

    /** `replace(key, oldValue, newValue)`; `fault` is passed to the inner replace. */
    method ReplaceIfEquals(key: Obj, expected: Obj, value: Obj, now: Int64, fault: bool) returns (b: bool)
      modifies backend, this`stats, this`events, this`writerCalls, this`loaderCalls
      ensures (State(), b) == Spec.ReplaceIfEquals(Env(), old(State()), key, expected, value, now, fault)
    {
      var v := Get(key, now);
      if v.Some? && v.value == expected {
        b := Replace(key, value, now, fault);
      } else {
        b := false;
      }
    }

    /**
     * `replace(key, value)`; `fault` is true when waiting on the backend's
     * future throws, which the source swallows.
     */
    method Replace(key: Obj, value: Obj, now: Int64, fault: bool) returns (result: bool)
      modifies backend, this`stats, this`events, this`writerCalls
      ensures (State(), result) == Spec.Replace(Env(), old(State()), key, value, now, fault)
    {
      ghost var e, s0 := Env(), State();
      var outcome := backend.Replace(CompositeKey(name, separator, key),
                                     ExpiredTimeStamp(configuration.expiryPolicy.forCreation, now), value, fault);
      if outcome.Failed? {
        assert State() == s0;
        result := false;
      } else {
        ghost var s1 := State();
        assert s1 == Spec.ReplaceStore(e, s0, key, value, now, fault);
        result := outcome.applied;
        if configuration.isWriteThrough && configuration.cacheWriter.Some? {
          writerCalls := writerCalls + [Spec.Write(key, value)];
        }
        assert State() == Spec.WriteThrough(e, s1, Spec.Write(key, value));
        if |registrations| > 0 {
          events := events + [Spec.UpdatedEvent(key, value)];
        }
        assert State() == Spec.ReplaceNotify(e, s1, key, value, fault);
      }
      CountReplace(result);
    }

    /** The `finally` block of `replace(key, value)`: a put and a hit, or a miss. */
    method CountReplace(applied: bool)
      modifies this`stats
      ensures State() == Spec.CountReplace(Env(), old(State()), applied)
    {
      if configuration.isStatisticsEnabled {
        if applied {
          stats := stats.(puts := stats.puts + 1, hits := stats.hits + 1);
        } else {
          stats := stats.(misses := stats.misses + 1);
        }
      }
    }

    method GetAndReplace(key: Obj, value: Obj, now: Int64, fault: bool) returns (prior: Option<Obj>)
      modifies backend, this`stats, this`events, this`writerCalls, this`loaderCalls
      ensures (State(), prior) == Spec.GetAndReplace(Env(), old(State()), key, value, now, fault)
    {
      prior := Get(key, now);
      var _ := Replace(key, value, now, fault);
    }

    /** `removeAll(keys)`. */
    method RemoveAllKeys(keys: seq<Obj>)
      modifies backend, this`stats, this`events, this`writerCalls
      ensures State() == Spec.RemoveAll(Env(), old(State()), keys)
    {
      var i := 0;
      while i < |keys|
        invariant 0 <= i <= |keys|
        invariant State() == Spec.RemoveAll(Env(), old(State()), keys[..i])
      {
        var _ := Remove(keys[i]);
        assert keys[..i + 1][..i] == keys[..i];
        i := i + 1;
      }
      assert keys[..|keys|] == keys;
    }

    /** `removeAll()`: the store cannot enumerate its keys. */
    method RemoveAll() returns (s: Status)
      ensures s == Thrown(UnsupportedOperation)
    {
      s := Thrown(UnsupportedOperation);
    }

    /** `clear()`: refused for the same reason. */
    method Clear() returns (s: Status)
      ensures s == Thrown(UnsupportedOperation)
    {
      s := Thrown(UnsupportedOperation);
    }

    /** `iterator()`: refused for the same reason. */
    method Iterator() returns (s: Status)
      ensures s == Thrown(UnsupportedOperation)
    {
      s := Thrown(UnsupportedOperation);
    }

    /**
     * `getConfiguration(clazz)` as the source writes it: the test is made
     * against the cache's own class, so asking for any configuration
     * interface yields null.
     */
    function GetConfigurationAsWritten(c: JClass): (r: Option<SpyMutableConfiguration>)
      ensures r.Some? <==> IsAssignableFrom(c, SpyCacheClass)
      ensures r.Some? ==> r.value == configuration
    {
      if IsAssignableFrom(c, SpyCacheClass) then Some(configuration) else None
    }

    /** `getConfiguration(clazz)` testing the configuration's class, as intended. */
    function GetConfiguration(c: JClass): (r: Option<SpyMutableConfiguration>)
      ensures r.Some? <==> IsAssignableFrom(c, SpyMutableConfigurationClass)
      ensures r.Some? ==> r.value == configuration
    {
      if IsAssignableFrom(c, SpyMutableConfigurationClass) then Some(configuration) else None
    }

    /**
     * `invoke(key, processor, args)`: the processor runs on a fresh entry and
     * each of its `remove`/`setValue` calls goes through this cache.
     */
    method Invoke(key: Obj, p: Spec.Processor, args: seq<Obj>, now: Int64) returns (r: Option<Obj>)
      modifies backend, this`stats, this`events, this`writerCalls, this`loaderCalls
      ensures (State(), r) == Spec.Invoke(Env(), old(State()), key, p, args, now)
    {
      var value := Get(key, now);
      var entry := new RIEntry(this, key, value);
      var view := Spec.EntryView(entry.key, entry.value, entry.Exists());
      var ops := p.ops(view, args);
      ghost var start, e := State(), Env();
      var i := 0;
      while i < |ops|
        invariant 0 <= i <= |ops|
        invariant Env() == e
        invariant State() == Spec.ApplyOps(e, start, key, ops[..i], now)
      {
        Spec.ApplyOpsStep(e, start, key, ops, i, now);
        match ops[i] {
          case RemoveEntry =>
            entry.Remove();
          case SetEntryValue(v) =>
            entry.SetValue(v, now);
        }
        i := i + 1;
      }
      assert ops[..|ops|] == ops;
      r := p.result(view, args);
    }

    method InvokeAll(keys: seq<Obj>, p: Spec.Processor, args: seq<Obj>, now: Int64) returns (m: map<Obj, Obj>)
      modifies backend, this`stats, this`events, this`writerCalls, this`loaderCalls
      ensures (State(), m) == Spec.InvokeAll(Env(), old(State()), keys, p, args, now)
    {
      m := map[];
      var i := 0;
      while i < |keys|
        invariant 0 <= i <= |keys|
        invariant (State(), m) == Spec.InvokeAll(Env(), old(State()), keys[..i], p, args, now)
      {
        Spec.InvokeAllStep(Env(), old(State()), keys, p, args, i, now);
        var r := Invoke(keys[i], p, args, now);
        if r.Some? {
          m := m[keys[i] := r.value];
        }
        i := i + 1;
      }
      assert keys[..|keys|] == keys;
    }

    /**
     * `close()`: releases the name from the manager, switches statistics
     * and management off and marks the cache closed.
     */
    method Close()
      modifies manager`caches, configuration`isStatisticsEnabled, configuration`isManagementEnabled, this`isClosed
      ensures manager.caches == old(manager.caches) - {name}
      ensures isClosed && !configuration.isManagementEnabled
      ensures Env() == old(Env()).(statistics := false)
    {
      manager.ReleaseCache(name);
      SetStatisticsEnabled(false);
      SetManagementEnabled(false);
      isClosed := true;
    }

    /** `unwrap(clazz)`. */
    method Unwrap(c: JClass) returns (r: Result<Unwrapped>)
      ensures IsAssignableFrom(c, SpyCacheClass) ==> r == Ok(AsCache(this))
      ensures !IsAssignableFrom(c, SpyCacheClass) && c == MapClass ==>
                r.Ok? && r.value.AsMap? && fresh(r.value.view) && r.value.view.cache == this
      ensures !IsAssignableFrom(c, SpyCacheClass) && c == MemcachedClientClass ==> r == Ok(AsClient(backend))
      ensures !IsAssignableFrom(c, SpyCacheClass) && c != MapClass && c != MemcachedClientClass ==>
                r == Err(IllegalArgument)
    {
      if IsAssignableFrom(c, SpyCacheClass) {
        r := Ok(AsCache(this));
      } else if c == MapClass {
        var view := new CacheMap(this);
        r := Ok(AsMap(view));
      } else if c == MemcachedClientClass {
        r := Ok(AsClient(backend));
      } else {
        r := Err(IllegalArgument);
      }
    }

    /**
     * `registerCacheEntryListener`: the configuration refuses a second
     * registration of the same listener configuration; otherwise both the
     * configuration and the registrations gain it.
     */
    method RegisterListener(l: ListenerConfig) returns (s: Status)
      modifies configuration`listenerConfigs, this`registrations
      ensures l in old(configuration.listenerConfigs) ==>
                s == Thrown(IllegalArgument) && configuration.listenerConfigs == old(configuration.listenerConfigs)
                && registrations == old(registrations)
      ensures l !in old(configuration.listenerConfigs) ==>
                s == Normal && configuration.listenerConfigs == old(configuration.listenerConfigs) + [l]
                && registrations == old(registrations) + [l]
    {
      s := configuration.AddListenerConfig(l);
      if s.Normal? {
        registrations := registrations + [l];
      }
    }

    /**
     * `deregisterCacheEntryListener`: null is refused; otherwise every
     * registration of `l` in a snapshot of the registrations is removed, and
     * the configuration is asked to drop `l` once per match.
     */
    method DeregisterListener(l: Option<ListenerConfig>) returns (s: Status)
      modifies configuration`listenerConfigs, this`registrations
      ensures l.None? ==> s == Thrown(NullPointer) && registrations == old(registrations)
                          && configuration.listenerConfigs == old(configuration.listenerConfigs)
      ensures l.Some? ==> var n := Occurrences(old(registrations), l.value);
                s == Normal
                && registrations == RemoveTimes(old(registrations), l.value, n)
                && configuration.listenerConfigs == RemoveTimes(old(configuration.listenerConfigs), l.value, n)
    {
      if l.None? {
        return Thrown(NullPointer);
      }
      var snapshot := registrations;
      var i := 0;
      while i < |snapshot|
        invariant 0 <= i <= |snapshot|
        invariant registrations == RemoveTimes(snapshot, l.value, Occurrences(snapshot[..i], l.value))
        invariant configuration.listenerConfigs ==
                  RemoveTimes(old(configuration.listenerConfigs), l.value, Occurrences(snapshot[..i], l.value))
      {
        ghost var k := Occurrences(snapshot[..i], l.value);
        assert snapshot[..i + 1][..i] == snapshot[..i];
        if l.value == snapshot[i] {
          assert Occurrences(snapshot[..i + 1], l.value) == k + 1;
          registrations := RemoveFirst(registrations, snapshot[i]);
          configuration.RemoveListenerConfig(l.value);
          assert RemoveTimes(snapshot, l.value, k + 1) == RemoveFirst(RemoveTimes(snapshot, l.value, k), l.value);
        } else {
          assert Occurrences(snapshot[..i + 1], l.value) == k;
        }
        i := i + 1;
      }
      assert snapshot[..|snapshot|] == snapshot;
      s := Normal;
    }
  }

  /**
   * A deregistration that follows a successful registration of a new
   * listener configuration restores the registrations.
   */
  lemma DeregisterUndoesRegister(before: seq<ListenerConfig>, l: ListenerConfig)
    requires l !in before
    ensures RemoveTimes(before + [l], l, Occurrences(before + [l], l)) == before
  {
    OccurrencesCount(before, l);
    assert (before + [l])[..|before|] == before;
    assert Occurrences(before + [l], l) == 1;
    assert RemoveTimes(before + [l], l, 1) == RemoveFirst(before + [l], l);
    RemoveFirstAppended(before, l);
  }

  /**
   * The type check `getCache(name, keyType, valueType)` makes on an
   * existing cache, given what `getConfiguration(Configuration.class)`
   * returned: null fails with a NullPointerException, a differing or null
   * key type and then a differing or null value type with a
   * ClassCastException.
   */
  function ExistingCacheLookup(cache: SpyCache, conf: Option<SpyMutableConfiguration>,
                               keyType: Option<JClass>, valueType: Option<JClass>): (r: Result<SpyCache>)
    reads if conf.Some? then {conf.value} else {}
    ensures conf.None? ==> r == Err(NullPointer)
    ensures conf.Some? ==> (r == Ok(cache) <==> (conf.value.keyType.Some? && conf.value.keyType == keyType
                                                 && conf.value.valueType.Some? && conf.value.valueType == valueType))
    ensures conf.Some? && r.Err? ==> r.error == ClassCast
  {
    if conf.None? then Err(NullPointer)
    else if !(conf.value.keyType.Some? && conf.value.keyType == keyType) then Err(ClassCast)
    else if !(conf.value.valueType.Some? && conf.value.valueType == valueType) then Err(ClassCast)
    else Ok(cache)
  }

  /**
   * As written, looking up an existing cache by name and types always ends
   * in a NullPointerException, whatever the types asked for.
   */
  lemma ExistingCacheLookupAsWrittenFails(cache: SpyCache, keyType: Option<JClass>, valueType: Option<JClass>)
    ensures ExistingCacheLookup(cache, cache.GetConfigurationAsWritten(ConfigurationClass), keyType, valueType)
            == Err(NullPointer)
  {
    assert ConfigurationClass !in Supertypes(SpyCacheClass);
  }

  /**
   * With the intended test, the lookup returns the cache exactly when the
   * types asked for are the configured ones.
   */
  lemma ExistingCacheLookupMatchesTypes(cache: SpyCache, keyType: Option<JClass>, valueType: Option<JClass>)
    ensures var r := ExistingCacheLookup(cache, cache.GetConfiguration(ConfigurationClass), keyType, valueType);
      && (r == Ok(cache) <==> keyType.Some? && keyType == cache.configuration.keyType
                              && valueType.Some? && valueType == cache.configuration.valueType)
      && (r.Err? ==> r.error == ClassCast)
  {
    assert ConfigurationClass in Supertypes(SpyMutableConfigurationClass);
  }

  /** `getCache(name)` passes null types, so an existing cache is never returned. */
  lemma UntypedLookupOfExistingCacheFails(cache: SpyCache)
    ensures ExistingCacheLookup(cache, cache.GetConfiguration(ConfigurationClass), None, None) == Err(ClassCast)
  {
    assert ConfigurationClass in Supertypes(SpyMutableConfigurationClass);
  }

  /** The mutable entry an entry processor works on. */
  class RIEntry {
    const cache: SpyCache
    const key: Obj
    const value: Option<Obj>
    const oldValue: Option<Obj>

    /** The three-argument constructor: no old value. */
    constructor (cache: SpyCache, key: Obj, value: Option<Obj>)
      ensures this.cache == cache && this.key == key && this.value == value && oldValue.None?
    {
      this.cache, this.key, this.value, oldValue := cache, key, value, None;
    }

    constructor WithOldValue(cache: SpyCache, key: Obj, value: Option<Obj>, oldValue: Option<Obj>)
      ensures this.cache == cache && this.key == key && this.value == value && this.oldValue == oldValue
    {
      this.cache, this.key, this.value, this.oldValue := cache, key, value, oldValue;
    }

    /** `exists()`: whether there is an old value, not whether the key is cached. */
    function Exists(): (b: bool)
      ensures b <==> oldValue.Some?
    {
      oldValue.Some?
    }

    /** `remove()`: removes the key through the cache. */
    method Remove()
      modifies cache.backend, cache`stats, cache`events, cache`writerCalls
      ensures cache.State() == Spec.Remove(cache.Env(), old(cache.State()), key)
    {
      var _ := cache.Remove(key);
    }

    /** `setValue(v)`: puts through the cache; the entry's own value is unchanged. */
    method SetValue(v: Obj, now: Int64)
      modifies cache.backend, cache`stats, cache`events, cache`writerCalls
      ensures cache.State() == Spec.Put(cache.Env(), old(cache.State()), key, v, now)
    {
      cache.Put(key, v, now);
    }

    /** `unwrap(clazz)`: only to a type the entry is an instance of. */
    function Unwrap(c: JClass): (r: Result<RIEntry>)
      ensures r.Ok? <==> IsAssignableFrom(c, RIEntryClass)
      ensures r.Ok? ==> r.value == this
      ensures r.Err? ==> r.error == IllegalArgument
    {
      if IsAssignableFrom(c, RIEntryClass) then Ok(this) else Err(IllegalArgument)
    }

    /**
     * `equals(o)`: the same entry, or an entry with equal key, value and old
     * value. Comparing with a null value, or a null old value against a
     * non-null one, dereferences null.
     */
    function Equals(o: RIEntry?): (r: Result<bool>)
      ensures o == this ==> r == Ok(true)
      ensures o == null ==> r == Ok(false)
      ensures r == Ok(true) ==> o != null && (o == this || (key == o.key && value == o.value && oldValue == o.oldValue))
      ensures o != null && o != this && key == o.key && value.None? ==> r == Err(NullPointer)
      ensures r.Err? ==> r.error == NullPointer
    {
      if this == o then Ok(true)
      else if o == null then Ok(false)
      else if key != o.key then Ok(false)
      else if value.None? then Err(NullPointer)
      else if value != o.value then Ok(false)
      else if oldValue.None? && o.oldValue.None? then Ok(true)
      else if oldValue.None? then Err(NullPointer)
      else Ok(oldValue == o.oldValue)
    }

    /** `hashCode()`: the key's hash code. */
    function HashCode(): (h: Int32)
      ensures h == Java.HashCode(key)
    {
      Java.HashCode(key)
    }
  }

  /** Entries that are equal have equal hash codes. */
  lemma EqualEntriesHashAlike(a: RIEntry, b: RIEntry)
    requires a.Equals(b) == Ok(true)
    ensures a.HashCode() == b.HashCode()
  {
  }

  /** Equality of entries with non-null values and old values is symmetric. */
  lemma EntryEqualsSymmetric(a: RIEntry, b: RIEntry)
    requires a.value.Some? && a.oldValue.Some? && b.value.Some? && b.oldValue.Some?
    ensures a.Equals(b).Ok? && b.Equals(a).Ok? && a.Equals(b) == b.Equals(a)
  {
  }

  /** The `java.util.Map` view `unwrap(Map.class)` returns. */
  class CacheMap {
    const cache: SpyCache

    constructor (cache: SpyCache)
      ensures this.cache == cache
    {
      this.cache := cache;
    }

    /** `size()`: the store cannot count, so the view claims the largest `int`. */
    function Size(): (n: Int32)
      ensures n == INT_MAX
    {
      INT_MAX
    }

    /** `isEmpty()`: never, whatever is stored. */
    function IsEmpty(): (b: bool)
      ensures !b
    {
      false
    }

    method ContainsKey(key: Obj, now: Int64) returns (b: bool)
      modifies cache.backend, cache`stats, cache`events, cache`writerCalls, cache`loaderCalls
      ensures (cache.State(), b) == Spec.ContainsKey(cache.Env(), old(cache.State()), key, now)
    {
      b := cache.ContainsKey(key, now);
    }

    method ContainsValue(value: Obj) returns (s: Status)
      ensures s == Thrown(UnsupportedOperation)
    {
      s := Thrown(UnsupportedOperation);
    }

    method Get(key: Obj, now: Int64) returns (v: Option<Obj>)
      modifies cache.backend, cache`stats, cache`events, cache`writerCalls, cache`loaderCalls
      ensures (cache.State(), v) == Spec.Get(cache.Env(), old(cache.State()), key, now)
    {
      v := cache.Get(key, now);
    }

    /** `put(k, v)`: puts and answers the new value, not the previous one. */
    method Put(key: Obj, value: Obj, now: Int64) returns (r: Obj)
      modifies cache.backend, cache`stats, cache`events, cache`writerCalls
      ensures r == value
      ensures cache.State() == Spec.Put(cache.Env(), old(cache.State()), key, value, now)
    {
      cache.Put(key, value, now);
      r := value;
    }

    /** `remove(k)`: the cache's `getAndRemove`. */
    method Remove(key: Obj, now: Int64) returns (v: Option<Obj>)
      modifies cache.backend, cache`stats, cache`events, cache`writerCalls, cache`loaderCalls
      ensures (cache.State(), v) == Spec.GetAndRemove(cache.Env(), old(cache.State()), key, now)
    {
      v := cache.GetAndRemove(key, now);
    }

    method PutAll(entries: seq<(Obj, Obj)>, now: Int64)
      modifies cache.backend, cache`stats, cache`events, cache`writerCalls
      ensures cache.State() == Spec.PutAll(cache.Env(), old(cache.State()), entries, now)
    {
      var i := 0;
      while i < |entries|
        invariant 0 <= i <= |entries|
        invariant cache.State() == Spec.PutAll(cache.Env(), old(cache.State()), entries[..i], now)
      {
        cache.Put(entries[i].0, entries[i].1, now);
        assert entries[..i + 1][..i] == entries[..i];
        i := i + 1;
      }
      assert entries[..|entries|] == entries;
    }

    /** `clear()`: the cache's `clear`, which refuses. */
    method Clear() returns (s: Status)
      ensures s == Thrown(UnsupportedOperation)
    {
      s := cache.Clear();
    }

    method KeySet() returns (s: Status)
      ensures s == Thrown(UnsupportedOperation)
    {
      s := Thrown(UnsupportedOperation);
    }

    method Values() returns (s: Status)
      ensures s == Thrown(UnsupportedOperation)
    {
      s := Thrown(UnsupportedOperation);
    }

    method EntrySet() returns (s: Status)
      ensures s == Thrown(UnsupportedOperation)
    {
      s := Thrown(UnsupportedOperation);
    }
  }

  /** A cache manager's locator: its text and its query component (null when opaque). */
  datatype Uri = Uri(text: string, query: Option<string>)

  /** A class loader, the provider's first-level key. */
  datatype Scope = Scope(id: nat)

  /** `cache:memcached:localhost:11211`, an opaque locator without a query. */
  function DefaultUri(): (u: Uri)
    ensures u.query.None?
  {
    Uri("cache:memcached:localhost:11211", None)
  }

  /** The provider's own class loader. */
  const DEFAULT_SCOPE: Scope := Scope(0)

  function ManagerUri(uri: Option<Uri>): Uri
  {
    if uri.Some? then uri.value else DefaultUri()
  }

  function ManagerScope(scope: Option<Scope>): Scope
  {
    if scope.Some? then scope.value else DEFAULT_SCOPE
  }

  class SpyCacheManager {
    const provider: SpyCachingProvider
    const uri: Uri
    const scope: Scope
    const backend: Backend
    /** The namespace separator: "$" unless the locator's query overrides it. */
    const separator: string
    var caches: map<string, SpyCache>
    var isClosed: bool

    /**
     * Every cache is registered under its own name, belongs to this
     * manager and shares its client and separator; a closed manager holds
     * no caches.
     */
    ghost predicate Valid()
      reads this`caches, this`isClosed
    {
      && (forall n :: n in caches ==> caches[n].manager == this && caches[n].name == n
                                      && caches[n].backend == backend && caches[n].separator == separator)
      && (isClosed ==> caches == map[])
    }

    ghost function Configurations(): set<SpyMutableConfiguration>
      reads this`caches
    {
      set c | c in caches.Values :: c.configuration
    }

    /**
     * Connects a fresh client and reads the separator from the locator's
     * query parameters.
     */
    constructor (provider: SpyCachingProvider, uri: Uri, scope: Scope)
      ensures this.provider == provider && this.uri == uri && this.scope == scope
      ensures separator == SeparatorFor(QueryParameters(uri.query))
      ensures fresh(backend) && backend.store == map[]
      ensures caches == map[] && !isClosed && Valid()
    {
      this.provider, this.uri, this.scope := provider, uri, scope;
      var params := ParseQuery(uri.query);
      var sep := DEFAULT_SEPARATOR;
      if SEPARATOR_PARAMETER in params {
        sep := params[SEPARATOR_PARAMETER];
      }
      separator := sep;
      backend := new Backend();
      caches := map[];
      isClosed := false;
    }

    /** `parseQuery`. */
    static method ParseQuery(query: Option<string>) returns (params: map<string, string>)
      ensures params == QueryParameters(query)
    {
      params := map[];
      if query.Some? && '=' in query.value {
        var parts := JavaSplit(query.value, '&');
        var i := 0;
        while i < |parts|
          invariant 0 <= i <= |parts|
          invariant params == CollectParameters(parts[..i])
        {
          var part := parts[i];
          if '=' in part {
            params := params[ParamName(part) := ParamValue(part)];
          }
          assert parts[..i + 1][..i] == parts[..i];
          i := i + 1;
        }
        assert parts[..|parts|] == parts;
      }
    }

    /**
     * `createCache(name, configuration)`: refused when closed or for an
     * invalid name; an existing cache of that name is returned as it is,
     * whatever the configuration; otherwise a new cache is made and kept.
     */
    method CreateCache(name: string, c: CompleteConfiguration) returns (r: Result<SpyCache>)
      requires Valid()
      modifies this`caches
      ensures Valid()
      ensures isClosed ==> r == Err(IllegalState) && caches == old(caches)
      ensures !isClosed && !ValidateCacheName(name) ==> r == Err(IllegalArgument) && caches == old(caches)
      ensures !isClosed && ValidateCacheName(name) && name in old(caches) ==>
                r == Ok(old(caches)[name]) && caches == old(caches)
      ensures !isClosed && ValidateCacheName(name) && name !in old(caches) ==>
                r.Ok? && fresh(r.value) && caches == old(caches)[name := r.value]
                && r.value.Env() == InitialEnv(name, separator, c)
                && r.value.configuration.keyType == c.keyType && r.value.configuration.valueType == c.valueType
                && !r.value.isClosed
    {
      if isClosed {
        return Err(IllegalState);
      }
      if !ValidateCacheName(name) {
        return Err(IllegalArgument);
      }
      if name in caches {
        return Ok(caches[name]);
      }
      var cache := new SpyCache(this, backend, name, separator, c);
      caches := caches[name := cache];
      r := Ok(cache);
    }

    /**
     * `getCache(name, keyType, valueType)`: an existing cache after the
     * type check (with `getConfiguration` testing the configuration's
     * class), otherwise a new cache with a default configuration, typed
     * when both types are given.
     */
    method GetCache(name: string, keyType: Option<JClass>, valueType: Option<JClass>) returns (r: Result<SpyCache>)
      requires Valid()
      modifies this`caches
      ensures Valid()
      ensures name in old(caches) ==>
                caches == old(caches)
                && r == ExistingCacheLookup(old(caches)[name], Some(old(caches)[name].configuration), keyType, valueType)
      ensures name !in old(caches) && isClosed ==> r == Err(IllegalState) && caches == old(caches)
      ensures name !in old(caches) && !isClosed && !ValidateCacheName(name) ==>
                r == Err(IllegalArgument) && caches == old(caches)
      ensures name !in old(caches) && !isClosed && ValidateCacheName(name) ==>
                r.Ok? && fresh(r.value) && caches == old(caches)[name := r.value]
                && r.value.configuration.keyType == (if keyType.Some? && valueType.Some? then keyType else Some(ObjectClass))
                && r.value.configuration.valueType == (if keyType.Some? && valueType.Some? then valueType else Some(ObjectClass))
    {
      if name in caches {
        var cache := caches[name];
        r := ExistingCacheLookup(cache, cache.GetConfiguration(ConfigurationClass), keyType, valueType);
        return;
      }
      var c := DefaultConfiguration();
      if keyType.Some? && valueType.Some? {
        c := WithTypes(c, keyType.value, valueType.value);
      }
      r := CreateCache(name, c);
    }

    /** The names of the caches this manager holds. */
    function CacheNames(): (names: set<string>)
      reads this`caches
      ensures forall n :: n in names <==> n in caches
    {
      caches.Keys
    }

    /** `destroyCache(name)`: forgets the cache and closes it. */
    method DestroyCache(name: string)
      requires Valid()
      modifies this`caches, (if name in caches then {caches[name]} else {})`isClosed,
               (if name in caches then {caches[name].configuration} else {})`isStatisticsEnabled,
               (if name in caches then {caches[name].configuration} else {})`isManagementEnabled
      ensures Valid()
      ensures caches == old(caches) - {name}
      ensures name in old(caches) ==> old(caches)[name].isClosed
                                      && !old(caches)[name].configuration.isStatisticsEnabled
    {
      if name in caches {
        var cache := caches[name];
        caches := caches - {name};
        cache.Close();
      }
    }

    /** `enableManagement`: an unknown name dereferences null. */
    method EnableManagement(name: string, enabled: bool) returns (s: Status)
      requires Valid()
      modifies (if name in caches then {caches[name].configuration} else {})`isManagementEnabled
      ensures isClosed ==> s == Thrown(IllegalState)
      ensures !isClosed && name !in caches ==> s == Thrown(NullPointer)
      ensures !isClosed && name in caches ==> s == Normal && caches[name].configuration.isManagementEnabled == enabled
    {
      if isClosed {
        return Thrown(IllegalState);
      }
      if name !in caches {
        return Thrown(NullPointer);
      }
      caches[name].SetManagementEnabled(enabled);
      s := Normal;
    }

    /** `enableStatistics`: an unknown name is ignored. */
    method EnableStatistics(name: string, enabled: bool) returns (s: Status)
      requires Valid()
      modifies (if name in caches then {caches[name].configuration} else {})`isStatisticsEnabled
      ensures isClosed ==> s == Thrown(IllegalState)
      ensures !isClosed ==> s == Normal
      ensures !isClosed && name in caches ==> caches[name].Env() == old(caches[name].Env()).(statistics := enabled)
    {
      if isClosed {
        return Thrown(IllegalState);
      }
      if name in caches {
        caches[name].SetStatisticsEnabled(enabled);
      }
      s := Normal;
    }

    /** `releaseCache(name)`: forgets the name without closing the cache. */
    method ReleaseCache(name: string)
      modifies this`caches
      ensures caches == old(caches) - {name}
    {
      if name in caches {
        caches := caches - {name};
      }
    }

    /**
     * `close()`: once only, release this manager from the provider, forget
     * every cache, close each of them and mark the manager closed.
     */
    method Close()
      requires Valid()
      modifies this`caches, this`isClosed, provider`managers, caches.Values`isClosed,
               Configurations()`isStatisticsEnabled, Configurations()`isManagementEnabled
      ensures Valid() && isClosed && caches == map[]
      ensures old(isClosed) ==> provider.managers == old(provider.managers)
      ensures !old(isClosed) ==> provider.managers == Released(old(provider.managers), uri, scope)
      ensures !old(isClosed) ==> forall c :: c in old(caches.Values) ==> c.isClosed
      ensures forall c: SpyCache :: old(allocated(c)) && c.manager != this ==> c.isClosed == old(c.isClosed)
    {
      if isClosed {
        return;
      }
      provider.ReleaseCacheManager(Some(uri), Some(scope));
      CloseCaches();
      isClosed := true;
    }

    /** The part of `close()` that forgets every cache and closes each of them. */
    method CloseCaches()
      requires Valid()
      modifies this`caches, caches.Values`isClosed,
               Configurations()`isStatisticsEnabled, Configurations()`isManagementEnabled
      ensures caches == map[]
      ensures forall c :: c in old(caches.Values) ==> c.isClosed
      ensures forall c: SpyCache :: old(allocated(c)) && c.manager != this ==> c.isClosed == old(c.isClosed)
    {
      var toClose := caches.Values;
      ghost var all := toClose;
      caches := map[];
      while toClose != {}
        invariant toClose <= all
        invariant caches == map[]
        invariant forall c :: c in all && c !in toClose ==> c.isClosed
        decreases |toClose|
      {
        var c :| c in toClose;
        c.Close();
        toClose := toClose - {c};
      }
    }

    /** `unwrap(clazz)`. */
    function Unwrap(c: JClass): (r: Result<Unwrapped>)
      ensures IsAssignableFrom(c, SpyCacheManagerClass) ==> r == Ok(AsManager(this))
      ensures !IsAssignableFrom(c, SpyCacheManagerClass) && c == MemcachedClientClass ==> r == Ok(AsClient(backend))
      ensures !IsAssignableFrom(c, SpyCacheManagerClass) && c != MemcachedClientClass ==> r == Err(IllegalArgument)
    {
      if IsAssignableFrom(c, SpyCacheManagerClass) then Ok(AsManager(this))
      else if c == MemcachedClientClass then Ok(AsClient(backend))
      else Err(IllegalArgument)
    }
  }

  /** JSR-107 optional features. */
  datatype OptionalFeature = StoreByReference | OtherFeature(feature: string)

  /**
   * `releaseCacheManager`: the registry without the manager at (`scope`,
   * `uri`), and without the scope once it holds no manager.
   */
  function Released(managers: map<Scope, map<Uri, SpyCacheManager>>, uri: Uri, scope: Scope): (r: map<Scope, map<Uri, SpyCacheManager>>)
    ensures scope !in r || uri !in r[scope]
    ensures forall s :: s in r ==> s in managers && r[s].Keys <= managers[s].Keys
    ensures forall s, u :: s in r && u in r[s] ==> r[s][u] == managers[s][u]
    ensures forall s, u :: s in managers && u in managers[s] && (s, u) != (scope, uri) ==> s in r && u in r[s]
  {
    if scope in managers then
      var inner := managers[scope] - {uri};
      if |inner| == 0 then managers - {scope} else managers[scope := inner]
    else managers
  }

  /** Releasing keeps the registry free of scopes that hold no manager. */
  lemma ReleasedKeepsScopesNonEmpty(managers: map<Scope, map<Uri, SpyCacheManager>>, uri: Uri, scope: Scope)
    requires forall s :: s in managers ==> |managers[s]| > 0
    ensures forall s :: s in Released(managers, uri, scope) ==> |Released(managers, uri, scope)[s]| > 0
  {
  }

  /** Releasing a manager that is not registered changes nothing. */
  lemma ReleasedAbsent(managers: map<Scope, map<Uri, SpyCacheManager>>, uri: Uri, scope: Scope)
    requires forall s :: s in managers ==> |managers[s]| > 0
    requires scope !in managers || uri !in managers[scope]
    ensures Released(managers, uri, scope) == managers
  {
    if scope in managers {
      assert managers[scope] - {uri} == managers[scope];
    }
  }

  /**
   * `close(uri, classLoader)` takes the locator out of the scope's map and
   * then lets the manager release itself: together one release.
   */
  lemma ReleaseAfterRemoval(managers: map<Scope, map<Uri, SpyCacheManager>>, uri: Uri, scope: Scope)
    requires scope in managers
    ensures Released(managers[scope := managers[scope] - {uri}], uri, scope) == Released(managers, uri, scope)
  {
    var inner := managers[scope] - {uri};
    assert inner - {uri} == inner;
    if |inner| == 0 {
      assert managers[scope := inner] - {scope} == managers - {scope};
    }
  }

  /**
   * When every manager carries the scope and locator it sits under, the one
   * at (`scope`, `uri`) is not among those a release keeps.
   */
  lemma NoneGone(managers: map<Scope, map<Uri, SpyCacheManager>>, uri: Uri, scope: Scope)
    requires forall s, u :: s in managers && u in managers[s] ==> managers[s][u].scope == s && managers[s][u].uri == u
    ensures var r := Released(managers, uri, scope);
      scope in managers && uri in managers[scope] ==>
        forall s, u :: s in r && u in r[s] ==> r[s][u] !in Gone(managers, uri, scope)
  {
  }

  /** The manager a release of (`scope`, `uri`) takes out, if the registry holds one there. */
  ghost function Gone(managers: map<Scope, map<Uri, SpyCacheManager>>, uri: Uri, scope: Scope): set<SpyCacheManager>
  {
    if scope in managers && uri in managers[scope] then {managers[scope][uri]} else {}
  }

  /** Removing a locator a scope does not hold leaves the registry as it is. */
  lemma MapUpdateUnchanged(managers: map<Scope, map<Uri, SpyCacheManager>>, uri: Uri, scope: Scope)
    requires scope in managers && uri !in managers[scope] && |managers[scope]| > 0
    ensures managers[scope := managers[scope] - {uri}] == managers == Released(managers, uri, scope)
  {
    assert managers[scope] - {uri} == managers[scope];
  }

  /** Removing a scope the registry does not hold leaves it as it is. */
  lemma MapRemoveAbsent(managers: map<Scope, map<Uri, SpyCacheManager>>, scope: Scope)
    requires scope !in managers
    ensures managers - {scope} == managers
  {
  }

  /** The caches the managers `ms` hold. */
  ghost function CachesOf(ms: set<SpyCacheManager>): set<SpyCache>
    reads ms`caches
  {
    set m, c | m in ms && c in m.caches.Values :: c
  }

  /** The configurations of the caches the managers `ms` hold. */
  ghost function ConfigurationsOf(ms: set<SpyCacheManager>): set<SpyMutableConfiguration>
    reads ms`caches
  {
    set m, c | m in ms && c in m.caches.Values :: c.configuration
  }

  /** Each manager's caches and their configurations are among those of `ms`. */
  lemma CachesOfContains(ms: set<SpyCacheManager>)
    ensures forall m :: m in ms ==> m.caches.Values <= CachesOf(ms) && m.Configurations() <= ConfigurationsOf(ms)
  {
  }

  /** A cache that valid managers hold belongs to one of them. */
  lemma CachesOfOwned(ms: set<SpyCacheManager>)
    requires forall m :: m in ms ==> m.Valid()
    ensures forall c :: c in CachesOf(ms) ==> c.manager in ms && c in c.manager.caches.Values
  {
    forall c | c in CachesOf(ms)
      ensures c.manager in ms && c in c.manager.caches.Values
    {
      var m, n :| m in ms && n in m.caches && m.caches[n] == c;
      assert m.Valid();
    }
  }

  lemma CachesOfMonotone(a: set<SpyCacheManager>, b: set<SpyCacheManager>)
    requires a <= b
    ensures CachesOf(a) <= CachesOf(b) && ConfigurationsOf(a) <= ConfigurationsOf(b)
  {
  }

  /** The managers of one scope, none when the scope is unknown. */
  function InScope(managers: map<Scope, map<Uri, SpyCacheManager>>, s: Scope): (r: map<Uri, SpyCacheManager>)
    ensures s in managers ==> r == managers[s]
    ensures s !in managers ==> r == map[]
  {
    if s in managers then managers[s] else map[]
  }

  class SpyCachingProvider {
    /** The managers by class loader, then by locator. */
    var managers: map<Scope, map<Uri, SpyCacheManager>>

    constructor ()
      ensures managers == map[]
    {
      managers := map[];
    }

    function Managers(): set<SpyCacheManager>
      reads this`managers
    {
      set s, u | s in managers && u in managers[s] :: managers[s][u]
    }

    /** `m` is registered under scope `s` and locator `u`: it refers to this provider and is open and valid. */
    ghost predicate Registered(m: SpyCacheManager, s: Scope, u: Uri)
      reads m`caches, m`isClosed
    {
      m.provider == this && m.scope == s && m.uri == u && !m.isClosed && m.Valid()
    }

    /** The managers of one scope: at least one, each registered where it sits. */
    ghost predicate ValidScope(s: Scope, byUri: map<Uri, SpyCacheManager>)
      reads byUri.Values`caches, byUri.Values`isClosed
    {
      |byUri| > 0 && forall u :: u in byUri ==> Registered(byUri[u], s, u)
    }

    /** Every scope kept is valid, so no scope is kept empty. */
    ghost predicate Valid()
      reads this`managers, Managers()`caches, Managers()`isClosed
    {
      forall s :: s in managers ==> ValidScope(s, managers[s])
    }

    /**
     * `getCacheManager(uri, classLoader, properties)`: null arguments mean
     * the defaults; the registered manager is returned, or a fresh one is
     * made and registered.
     */
    method GetCacheManager(uri: Option<Uri>, scope: Option<Scope>) returns (m: SpyCacheManager)
      requires Valid()
      modifies this`managers
      ensures Valid()
      ensures var u, s := ManagerUri(uri), ManagerScope(scope);
        if s in old(managers) && u in old(managers)[s] then
          m == old(managers)[s][u] && managers == old(managers)
        else
          fresh(m) && m.uri == u && m.scope == s && m.provider == this && m.caches == map[] && !m.isClosed
          && m.separator == SeparatorFor(QueryParameters(u.query))
          && managers == old(managers)[s := InScope(old(managers), s)[u := m]]
    {
      var u, s := ManagerUri(uri), ManagerScope(scope);
      var byUri: map<Uri, SpyCacheManager> := InScope(managers, s);
      if u in byUri {
        m := byUri[u];
        return;
      }
      m := new SpyCacheManager(this, u, s);
      managers := managers[s := byUri[u := m]];
      AddKeepsValid(m);
    }

    /** Registering a new, open manager where it belongs keeps the provider valid. */
    twostate lemma AddKeepsValid(new m: SpyCacheManager)
      requires old(Valid()) && !old(allocated(m))
      requires Registered(m, m.scope, m.uri)
      requires managers == old(managers)[m.scope := InScope(old(managers), m.scope)[m.uri := m]]
      requires forall o: SpyCacheManager :: old(allocated(o)) ==> o.caches == old(o.caches) && o.isClosed == old(o.isClosed)
      ensures Valid()
    {
      forall t | t in managers
        ensures ValidScope(t, managers[t])
      {
        forall v | v in managers[t]
          ensures Registered(managers[t][v], t, v)
        {
          if t != m.scope || v != m.uri {
            assert t in old(managers) && v in old(managers)[t] && managers[t][v] == old(managers)[t][v];
            assert old(ValidScope(t, managers[t]));
            assert old(Registered(managers[t][v], t, v));
          }
        }
      }
    }

    /**
     * Closes every manager of `ms`, none of which is registered any more,
     * and with them their caches `held`, whose configurations are among
     * `configured`; nothing else changes.
     */
    method CloseAll(ms: set<SpyCacheManager>, ghost held: set<SpyCache>, ghost configured: set<SpyMutableConfiguration>)
      requires forall m :: m in ms ==> m.provider == this && m.Valid() && m.scope !in managers
      requires forall m :: m in ms ==> m.caches.Values <= held && m.Configurations() <= configured
      requires forall c :: c in held ==> c.manager in ms && c in c.manager.caches.Values
      modifies this`managers, ms`caches, ms`isClosed, held`isClosed,
               configured`isStatisticsEnabled, configured`isManagementEnabled
      ensures managers == old(managers)
      ensures forall m :: m in ms ==> m.isClosed && m.caches == map[]
      ensures forall c :: c in held ==> c.isClosed
    {
      var toClose := ms;
      while toClose != {}
        invariant toClose <= ms
        invariant managers == old(managers)
        invariant forall m :: m in toClose ==> m.Valid() && m.caches == old(m.caches)
        invariant forall m :: m in ms && m !in toClose ==> m.isClosed && m.caches == map[]
        invariant forall c :: c in held && c.manager !in toClose ==> c.isClosed
        decreases |toClose|
      {
        var m :| m in toClose;
        m.Close();
        toClose := toClose - {m};
      }
    }

    /** Every manager a valid provider holds is registered where it sits. */
    lemma ManagersRegistered()
      requires Valid()
      ensures forall s, u :: s in managers && u in managers[s] ==> Registered(managers[s][u], s, u)
    {
      forall s, u | s in managers && u in managers[s]
        ensures Registered(managers[s][u], s, u)
      {
        assert ValidScope(s, managers[s]);
      }
    }

    /** Every manager a valid provider holds refers to it and carries the scope and locator it sits under. */
    lemma ManagersPlaced()
      requires Valid()
      ensures forall s, u :: s in managers && u in managers[s] ==>
                managers[s][u].provider == this && managers[s][u].scope == s && managers[s][u].uri == u
    {
      ManagersRegistered();
    }

    /** The managers of a scope can be closed: each is registered and valid. */
    lemma ScopeClosable(s: Scope)
      requires Valid() && s in managers
      ensures forall m :: m in managers[s].Values ==>
                m in Managers() && m.scope == s && m.provider == this && m.Valid()
    {
      forall m | m in managers[s].Values
        ensures m in Managers() && m.scope == s && m.provider == this && m.Valid()
      {
        var u :| u in managers[s] && managers[s][u] == m;
        assert ValidScope(s, managers[s]);
        assert Registered(m, s, u);
      }
    }

    /**
     * The provider stays valid when it keeps only managers it held before,
     * under the same scope and locator and none of them in `gone`, keeps no
     * scope empty, and only the managers of `gone` changed.
     */
    twostate lemma StaysValid(gone: set<SpyCacheManager>)
      requires old(Valid())
      requires forall s :: s in managers ==> s in old(managers) && |managers[s]| > 0
      requires forall s, u :: s in managers && u in managers[s] ==>
                 u in old(managers)[s] && managers[s][u] == old(managers)[s][u]
      requires forall s, u :: s in managers && u in managers[s] ==> managers[s][u] !in gone
      requires forall m: SpyCacheManager :: old(allocated(m)) && m !in gone ==> unchanged(m`caches, m`isClosed)
      ensures Valid()
    {
      forall s | s in managers
        ensures ValidScope(s, managers[s])
      {
        forall u | u in managers[s]
          ensures Registered(managers[s][u], s, u)
        {
          assert old(ValidScope(s, managers[s]));
          assert old(Registered(managers[s][u], s, u));
        }
      }
    }

    /** Every manager a valid provider held in the previous state carries its scope and locator. */
    twostate lemma PlacedBefore()
      requires old(Valid())
      ensures forall s, u :: s in old(managers) && u in old(managers)[s] ==>
                old(managers)[s][u].scope == s && old(managers)[s][u].uri == u && |old(managers)[s]| > 0
    {
      forall s, u | s in old(managers) && u in old(managers)[s]
        ensures old(managers)[s][u].scope == s && old(managers)[s][u].uri == u && |old(managers)[s]| > 0
      {
        assert old(ValidScope(s, managers[s]));
        assert old(Registered(managers[s][u], s, u));
      }
    }

    /** A release that touched only the released manager keeps the provider valid. */
    twostate lemma ReleaseKeepsValid(at: (Uri, Scope))
      requires old(Valid())
      requires managers == Released(old(managers), at.0, at.1)
      requires forall m: SpyCacheManager :: old(allocated(m)) && m !in Gone(old(managers), at.0, at.1) ==> unchanged(m`caches, m`isClosed)
      ensures Valid()
    {
      PlacedBefore();
      ReleasedKeepsScopesNonEmpty(old(managers), at.0, at.1);
      NoneGone(old(managers), at.0, at.1);
      StaysValid(Gone(old(managers), at.0, at.1));
    }

    /** `close()`: forgets every manager and closes each of them. */
    method Close()
      requires Valid()
      modifies this`managers, Managers()`caches, Managers()`isClosed, CachesOf(Managers())`isClosed,
               ConfigurationsOf(Managers())`isStatisticsEnabled, ConfigurationsOf(Managers())`isManagementEnabled
      ensures managers == map[]
      ensures forall m :: m in old(Managers()) ==> m.isClosed && m.caches == map[]
      ensures forall c :: c in old(CachesOf(Managers())) ==> c.isClosed
    {
      ManagersRegistered();
      var all := Managers();
      ghost var held, configured := CachesOf(all), ConfigurationsOf(all);
      CachesOfContains(all);
      CachesOfOwned(all);
      managers := map[];
      CloseAll(all, held, configured);
    }

    /** The managers `close(classLoader)` closes: those of the scope. */
    function ScopeManagers(scope: Option<Scope>): set<SpyCacheManager>
      reads this`managers
    {
      InScope(managers, ManagerScope(scope)).Values
    }

    /**
     * `close(classLoader)`: forgets the scope's managers and closes each of
     * them and their caches; every other manager, cache and configuration
     * is left as it was.
     */
    method CloseScope(scope: Option<Scope>)
      requires Valid()
      modifies this`managers, ScopeManagers(scope)`caches, ScopeManagers(scope)`isClosed,
               CachesOf(ScopeManagers(scope))`isClosed,
               ConfigurationsOf(ScopeManagers(scope))`isStatisticsEnabled,
               ConfigurationsOf(ScopeManagers(scope))`isManagementEnabled
      ensures Valid()
      ensures managers == old(managers) - {ManagerScope(scope)}
      ensures forall m :: m in old(ScopeManagers(scope)) ==> m.isClosed && m.caches == map[]
      ensures forall c :: c in old(CachesOf(ScopeManagers(scope))) ==> c.isClosed
      ensures forall m: SpyCacheManager :: old(allocated(m)) && m !in old(ScopeManagers(scope)) ==>
                m.caches == old(m.caches) && m.isClosed == old(m.isClosed)
      ensures forall c: SpyCache :: old(allocated(c)) && c.manager !in old(ScopeManagers(scope)) ==>
                c.isClosed == old(c.isClosed)
    {
      var s := ManagerScope(scope);
      if s in managers {
        var closing := managers[s].Values;
        assert closing == ScopeManagers(scope);
        ManagersPlaced();
        CloseScopeOf(s, closing);
        StaysValid(closing);
      }
    }

    /** The body of `close(classLoader)` once the scope is known to be held. */
    method CloseScopeOf(s: Scope, closing: set<SpyCacheManager>)
      requires Valid() && s in managers && closing == managers[s].Values
      modifies this`managers, closing`caches, closing`isClosed, CachesOf(closing)`isClosed,
               ConfigurationsOf(closing)`isStatisticsEnabled, ConfigurationsOf(closing)`isManagementEnabled
      ensures managers == old(managers) - {s}
      ensures forall m :: m in closing ==> m.isClosed && m.caches == map[]
      ensures forall c :: c in old(CachesOf(closing)) ==> c.isClosed
    {
      ScopeClosable(s);
      ghost var held, configured := CachesOf(closing), ConfigurationsOf(closing);
      CachesOfContains(closing);
      CachesOfOwned(closing);
      managers := managers - {s};
      CloseAll(closing, held, configured);
    }

    /** The manager `close(uri, classLoader)` closes, if the registry holds one there. */
    ghost function Target(uri: Option<Uri>, scope: Option<Scope>): set<SpyCacheManager>
      reads this`managers
    {
      Gone(managers, ManagerUri(uri), ManagerScope(scope))
    }

    /**
     * `close(uri, classLoader)`: forgets one manager and closes it and its
     * caches; every other manager and cache is left as it was.
     */
    method CloseManager(uri: Option<Uri>, scope: Option<Scope>)
      requires Valid()
      modifies this`managers, Target(uri, scope)`caches, Target(uri, scope)`isClosed,
               CachesOf(Target(uri, scope))`isClosed,
               ConfigurationsOf(Target(uri, scope))`isStatisticsEnabled,
               ConfigurationsOf(Target(uri, scope))`isManagementEnabled
      ensures Valid()
      ensures managers == Released(old(managers), ManagerUri(uri), ManagerScope(scope))
      ensures var u, s := ManagerUri(uri), ManagerScope(scope);
        s in old(managers) && u in old(managers)[s] ==>
          var m := old(managers)[s][u];
          m.isClosed && m.caches == map[] && forall c :: c in old(m.caches.Values) ==> c.isClosed
      ensures forall m: SpyCacheManager :: old(allocated(m)) && m !in old(Target(uri, scope)) ==>
                m.caches == old(m.caches) && m.isClosed == old(m.isClosed)
      ensures forall c: SpyCache :: old(allocated(c)) && c.manager !in old(Target(uri, scope)) ==>
                c.isClosed == old(c.isClosed)
    {
      var u, s := ManagerUri(uri), ManagerScope(scope);
      if s in managers {
        assert ValidScope(s, managers[s]);
        if u in managers[s] {
          assert managers[s][u] in Managers();
        }
        CloseInScope(u, s);
        ReleaseKeepsValid((u, s));
      } else {
        ReleasedAbsent(managers, u, s);
      }
    }

    /** Closes one manager; its own release call reaches this provider. */
    method CloseOne(m: SpyCacheManager)
      requires m.provider == this && m.Valid()
      modifies this`managers, m`caches, m`isClosed, m.caches.Values`isClosed,
               m.Configurations()`isStatisticsEnabled, m.Configurations()`isManagementEnabled
      ensures m.isClosed && m.caches == map[]
      ensures !old(m.isClosed) ==> managers == Released(old(managers), m.uri, m.scope)
      ensures old(m.isClosed) ==> managers == old(managers)
      ensures !old(m.isClosed) ==> forall c :: c in old(m.caches.Values) ==> c.isClosed
      ensures forall o: SpyCacheManager :: old(allocated(o)) && o != m ==> o.caches == old(o.caches) && o.isClosed == old(o.isClosed)
      ensures forall c: SpyCache :: old(allocated(c)) && c.manager != m ==> c.isClosed == old(c.isClosed)
    {
      m.Close();
    }

    /** The body of `close(uri, classLoader)` once the scope is known. */
    method CloseInScope(u: Uri, s: Scope)
      requires s in managers && |managers[s]| > 0
      requires u in managers[s] ==> Registered(managers[s][u], s, u)
      modifies this`managers, Gone(managers, u, s)`caches, Gone(managers, u, s)`isClosed,
               CachesOf(Gone(managers, u, s))`isClosed,
               ConfigurationsOf(Gone(managers, u, s))`isStatisticsEnabled,
               ConfigurationsOf(Gone(managers, u, s))`isManagementEnabled
      ensures managers == Released(old(managers), u, s)
      ensures u in old(managers)[s] ==>
        var m := old(managers)[s][u];
        m.isClosed && m.caches == map[] && forall c :: c in old(m.caches.Values) ==> c.isClosed
      ensures forall m: SpyCacheManager :: old(allocated(m)) && m !in Gone(old(managers), u, s) ==>
                m.caches == old(m.caches) && m.isClosed == old(m.isClosed)
      ensures forall c: SpyCache :: old(allocated(c)) && c.manager !in Gone(old(managers), u, s) ==> c.isClosed == old(c.isClosed)
    {
      ghost var target, gone := Released(managers, u, s), Gone(managers, u, s);
      var byUri := managers[s];
      if u in byUri {
        CachesOfContains(gone);
      }
      var rest := byUri - {u};
      managers := managers[s := rest];
      if u in byUri {
        var m := byUri[u];
        assert gone == {m};
        ReleaseAfterRemoval(old(managers), u, s);
        CloseOne(m);
      } else {
        assert gone == {};
        MapUpdateUnchanged(old(managers), u, s);
      }
      assert managers == target;
      if |rest| == 0 {
        MapRemoveAbsent(managers, s);
        managers := managers - {s};
      }
    }

    /** `isSupported(feature)`: store-by-reference only. */
    function IsSupported(f: OptionalFeature): (b: bool)
      ensures b <==> f == StoreByReference
    {
      f.StoreByReference?
    }

    /** `releaseCacheManager(uri, classLoader)`: forgets without closing. */
    method ReleaseCacheManager(uri: Option<Uri>, scope: Option<Scope>)
      modifies this`managers
      ensures managers == Released(old(managers), ManagerUri(uri), ManagerScope(scope))
    {
      var u, s := ManagerUri(uri), ManagerScope(scope);
      if s in managers {
        var byUri := managers[s] - {u};
        if |byUri| == 0 {
          managers := managers - {s};
        } else {
          managers := managers[s := byUri];
        }
      }
    }
  }
}
