/**
 * SpyMutableConfiguration: the cache's own copy of the caller's
 * configuration, with the loader, writer and expiry policy materialised
 * from their factories, and the read-/write-through predicates that ask
 * for both the flag and an instance.
 */
module Configuration {
  import opened Java
  import opened Expiry

  /**
   * What a batch `loadAll` call yields: the loaded entries in the order
   * the returned map iterates them, or `LoadFailed` when the loader throws
   * or returns null (the adapter then hits a NullPointerException).
   */
  datatype LoadAllOutcome = Loaded(entries: seq<(Obj, Obj)>) | LoadFailed

  /** A user-supplied cache loader, as the answers it gives. */
  datatype Loader = Loader(load: Obj -> Option<Obj>, loadAll: seq<Obj> -> LoadAllOutcome)

  /** A user-supplied cache writer; its calls are logged by the cache. */
  datatype Writer = Writer(id: nat)

  /** A listener configuration; registrations are equal when these are. */
  datatype ListenerConfig = ListenerConfig(id: nat)

  /** A `Factory<T>`: `create()` yields `product`. */
  datatype Factory<T> = Factory(product: T)

  /** The caller's `CompleteConfiguration`, a value the cache copies. */
  datatype CompleteConfiguration = CompleteConfiguration(
    keyType: Option<JClass>,
    valueType: Option<JClass>,
    storeByValue: bool,
    readThrough: bool,
    writeThrough: bool,
    statisticsEnabled: bool,
    managementEnabled: bool,
    listenerConfigs: seq<ListenerConfig>,
    loaderFactory: Option<Factory<Loader>>,
    writerFactory: Option<Factory<Writer>>,
    expiryFactory: Factory<ExpiryPolicy>)

  /**
   * `new MutableConfiguration()`: Object keys and values, store by value,
   * no loader or writer, eternal expiry, everything else off.
   */
  function DefaultConfiguration(): (c: CompleteConfiguration)
    ensures !c.readThrough && !c.writeThrough && !c.statisticsEnabled
    ensures c.loaderFactory.None? && c.writerFactory.None? && c.listenerConfigs == []
    ensures c.expiryFactory.product.forCreation.Eternal?
  {
    CompleteConfiguration(Some(ObjectClass), Some(ObjectClass), true, false, false, false, false, [],
                          None, None, Factory(ExpiryPolicy(Eternal)))
  }

  /** `MutableConfiguration.setTypes(keyType, valueType)`. */
  function WithTypes(c: CompleteConfiguration, keyType: JClass, valueType: JClass): (r: CompleteConfiguration)
    ensures r.keyType == Some(keyType) && r.valueType == Some(valueType)
    ensures r.(keyType := c.keyType, valueType := c.valueType) == c
  {
    c.(keyType := Some(keyType), valueType := Some(valueType))
  }

  /**
   * What the configuration holds for an optional factory: its product when
   * one is given, otherwise nothing (the loader and the writer alike).
   */
  function ProductOf<T>(f: Option<Factory<T>>): (r: Option<T>)
    ensures r.Some? <==> f.Some?
    ensures f.Some? ==> r.value == f.value.product
  {
    if f.Some? then Some(f.value.product) else None
  }

  /** `s` with the first occurrence of `x` taken out (`List.remove`). */
  function RemoveFirst<T(==)>(s: seq<T>, x: T): (r: seq<T>)
    ensures x !in s ==> r == s
  {
    if s == [] then []
    else if s[0] == x then s[1..] else [s[0]] + RemoveFirst(s[1..], x)
  }

  /** `List.remove` takes out one copy of `x`, when there is one, and nothing else. */
  lemma {:induction false} RemoveFirstCount<T>(s: seq<T>, x: T)
    ensures multiset(RemoveFirst(s, x)) == multiset(s) - multiset{x}
  {
    if s != [] {
      assert s == [s[0]] + s[1..];
      if s[0] != x {
        RemoveFirstCount(s[1..], x);
      }
    }
  }

  /** How often `x` occurs in `s`, counted from the back. */
  function Occurrences<T(==)>(s: seq<T>, x: T): nat
  {
    if s == [] then 0 else Occurrences(s[..|s| - 1], x) + if s[|s| - 1] == x then 1 else 0
  }

  /** `Occurrences` counts what the multiset of `s` holds. */
  lemma {:induction false} OccurrencesCount<T>(s: seq<T>, x: T)
    ensures Occurrences(s, x) == multiset(s)[x]
  {
    if s != [] {
      assert s == s[..|s| - 1] + [s[|s| - 1]];
      OccurrencesCount(s[..|s| - 1], x);
    }
  }

  /** `s` after `n` successive `List.remove(x)` calls. */
  function RemoveTimes<T(==)>(s: seq<T>, x: T, n: nat): seq<T>
  {
    if n == 0 then s else RemoveFirst(RemoveTimes(s, x, n - 1), x)
  }

  /** `n` removals take out `n` copies of `x`, or all of them when there are fewer, and nothing else. */
  lemma {:induction false} RemoveTimesCount<T>(s: seq<T>, x: T, n: nat)
    ensures multiset(RemoveTimes(s, x, n))[x] == if n <= multiset(s)[x] then multiset(s)[x] - n else 0
    ensures forall y :: y != x ==> multiset(RemoveTimes(s, x, n))[y] == multiset(s)[y]
  {
    if n > 0 {
      RemoveTimesCount(s, x, n - 1);
      RemoveFirstCount(RemoveTimes(s, x, n - 1), x);
      var c := multiset(s)[x];
      var before := multiset(RemoveTimes(s, x, n - 1));
      var after := multiset(RemoveTimes(s, x, n));
      assert after == before - multiset{x};
      assert before[x] == if n - 1 <= c then c - (n - 1) else 0;
      assert after[x] == if before[x] >= 1 then before[x] - 1 else 0;
      forall y | y != x
        ensures after[y] == multiset(s)[y]
      {
        assert after[y] == before[y];
      }
    }
  }

  /** Removing every occurrence leaves none and keeps everything else. */
  lemma RemoveAllOccurrences<T>(s: seq<T>, x: T)
    ensures x !in RemoveTimes(s, x, Occurrences(s, x))
    ensures forall y :: y != x ==> multiset(RemoveTimes(s, x, Occurrences(s, x)))[y] == multiset(s)[y]
  {
    OccurrencesCount(s, x);
    RemoveTimesCount(s, x, Occurrences(s, x));
  }

  /** Removing what was just appended, and was not there before, restores the list. */
  lemma {:induction false} RemoveFirstAppended<T>(s: seq<T>, x: T)
    requires x !in s
    ensures RemoveFirst(s + [x], x) == s
    decreases |s|
  {
    if s != [] {
      assert (s + [x])[1..] == s[1..] + [x];
      RemoveFirstAppended(s[1..], x);
    }
  }

  class SpyMutableConfiguration {
    var keyType: Option<JClass>
    var valueType: Option<JClass>
    var storeByValue: bool
    var isReadThrough: bool
    var isWriteThrough: bool
    var isStatisticsEnabled: bool
    var isManagementEnabled: bool
    var listenerConfigs: seq<ListenerConfig>
    var loaderFactory: Option<Factory<Loader>>
    var writerFactory: Option<Factory<Writer>>
    var expiryFactory: Factory<ExpiryPolicy>
    /** The instances created from the factories. */
    var cacheLoader: Option<Loader>
    var cacheWriter: Option<Writer>
    var expiryPolicy: ExpiryPolicy

    /**
     * Copies the caller's configuration, then creates a loader exactly when
     * a loader factory is given, a writer exactly when a writer factory is
     * given, and the expiry policy from its factory.
     */
    constructor (c: CompleteConfiguration)
      ensures keyType == c.keyType && valueType == c.valueType && storeByValue == c.storeByValue
      ensures isReadThrough == c.readThrough && isWriteThrough == c.writeThrough
      ensures isStatisticsEnabled == c.statisticsEnabled && isManagementEnabled == c.managementEnabled
      ensures listenerConfigs == c.listenerConfigs
      ensures loaderFactory == c.loaderFactory && writerFactory == c.writerFactory && expiryFactory == c.expiryFactory
      ensures cacheLoader.Some? <==> c.loaderFactory.Some?
      ensures c.loaderFactory.Some? ==> cacheLoader == Some(c.loaderFactory.value.product)
      ensures cacheWriter.Some? <==> c.writerFactory.Some?
      ensures c.writerFactory.Some? ==> cacheWriter == Some(c.writerFactory.value.product)
      ensures expiryPolicy == c.expiryFactory.product
    {
      keyType, valueType, storeByValue := c.keyType, c.valueType, c.storeByValue;
      isReadThrough, isWriteThrough := c.readThrough, c.writeThrough;
      isStatisticsEnabled, isManagementEnabled := c.statisticsEnabled, c.managementEnabled;
      listenerConfigs := c.listenerConfigs;
      loaderFactory, writerFactory, expiryFactory := c.loaderFactory, c.writerFactory, c.expiryFactory;
      cacheLoader := None;
      if c.loaderFactory.Some? {
        cacheLoader := Some(c.loaderFactory.value.product);
      }
      cacheWriter := None;
      if c.writerFactory.Some? {
        cacheWriter := Some(c.writerFactory.value.product);
      }
      expiryPolicy := c.expiryFactory.product;
    }

    /** Read-through is in force only with the flag set and a loader created. */
    predicate IsReadThroughSupport()
      reads this`isReadThrough, this`cacheLoader
      ensures IsReadThroughSupport() ==> cacheLoader.Some?
      ensures !isReadThrough ==> !IsReadThroughSupport()
    {
      isReadThrough && cacheLoader.Some?
    }

    /** Write-through is in force only with the flag set and a writer created. */
    predicate IsWriteThroughSupport()
      reads this`isWriteThrough, this`cacheWriter
      ensures IsWriteThroughSupport() ==> cacheWriter.Some?
      ensures !isWriteThrough ==> !IsWriteThroughSupport()
    {
      isWriteThrough && cacheWriter.Some?
    }

    /** Replaces the loader with a fresh one from the new factory. */
    method SetCacheLoaderFactory(f: Factory<Loader>)
      modifies this`cacheLoader, this`loaderFactory
      ensures cacheLoader == Some(f.product) && loaderFactory == Some(f)
    {
      cacheLoader := Some(f.product);
      loaderFactory := Some(f);
    }

    /** Replaces the writer with a fresh one from the new factory. */
    method SetCacheWriterFactory(f: Factory<Writer>)
      modifies this`cacheWriter, this`writerFactory
      ensures cacheWriter == Some(f.product) && writerFactory == Some(f)
    {
      cacheWriter := Some(f.product);
      writerFactory := Some(f);
    }

    method SetStatisticsEnabled(enabled: bool)
      modifies this`isStatisticsEnabled
      ensures isStatisticsEnabled == enabled
    {
      isStatisticsEnabled := enabled;
    }

    method SetManagementEnabled(enabled: bool)
      modifies this`isManagementEnabled
      ensures isManagementEnabled == enabled
    {
      isManagementEnabled := enabled;
    }

    /**
     * `addCacheEntryListenerConfiguration`: a configuration can be added
     * only once; a second add is refused with IllegalArgument.
     */
    method AddListenerConfig(l: ListenerConfig) returns (s: Status)
      modifies this`listenerConfigs
      ensures l in old(listenerConfigs) ==> s == Thrown(IllegalArgument) && listenerConfigs == old(listenerConfigs)
      ensures l !in old(listenerConfigs) ==> s == Normal && listenerConfigs == old(listenerConfigs) + [l]
    {
      if l in listenerConfigs {
        s := Thrown(IllegalArgument);
      } else {
        listenerConfigs := listenerConfigs + [l];
        s := Normal;
      }
    }

    /** `removeCacheEntryListenerConfiguration`: drops it if present. */
    method RemoveListenerConfig(l: ListenerConfig)
      modifies this`listenerConfigs
      ensures listenerConfigs == RemoveFirst(old(listenerConfigs), l)
    {
      listenerConfigs := RemoveFirst(listenerConfigs, l);
    }
  }
}
