# spymemcached-jcache in Dafny

This project models the core of spymemcached-jcache. That library is a JCache (JSR-107) adapter over a flat memcached store. The store offers get, set with an expiry stamp, delete and an atomic replace-if-present, and nothing else. In particular it cannot enumerate its keys.

The parts, module by module:

- `Java` holds the pieces of the Java platform the adapter depends on:
  - nullable results (`Option`), exceptions (`Result`, `Status`);
  - keys and values as boxed integers or strings, with `toString` and `hashCode`;
  - class tokens for the `isAssignableFrom` checks;
  - the `long` and `int` arithmetic that computes the expiry stamp.
- `Memcached` is the store one manager's caches share (the `Backend` class, a map from wire key to value and stamp).
- `Expiry` is `getExpiredTimeStamp`: 0 for an eternal duration, otherwise `(int) ((now + duration) / 1000)`, with the `long` overflow and the `int` cast written out.
- `Configuration` is `SpyMutableConfiguration`:
  - the copy of the caller's configuration;
  - the loader, writer and expiry policy it creates from their factories;
  - read-through and write-through, each in force only when its flag is set and an instance exists.
- `Naming` covers:
  - the `\w+` cache-name check;
  - the wire key `name + separator + key.toString()`;
  - the separator choice, `$` unless the locator's query has a `seperator` parameter;
  - the meaning of `parseQuery`.
- `CacheSpec` gives every cache operation as a pure function. It takes the cache's observable state to the state after the call and the value returned. That state is the store, the hit, miss, put and removal counters, and the logs of dispatched events, writer calls and loader calls. Lemmas state what each operation does.
- `JCache` holds the classes. They refer to one another, so they share one module:
  - `SpyCache`;
  - `RIEntry`, the entry an entry processor works on;
  - `CacheMap`, the degraded `Map` view;
  - `SpyCacheManager`;
  - `SpyCachingProvider`, with its registry from class loader (a `Scope` token) to URI to manager.

Every data method of `SpyCache` is proved to move the cache from `old(State())` to the state the matching `CacheSpec` function computes, and to return that function's value. The lemmas of `CacheSpec` then state the promised behaviour: which wire key changes, which counter moves, which event is raised, what is returned.

The model follows the code as written, including behaviour the method names do not suggest:

- With read-through in force, `get` asks the loader on every call, hit or miss. It returns the loader's answer and stores a non-null answer through `put`, which counts a put and raises UPDATED.
- `containsKey` is a full `get`, with its statistics and its read-through.
- `put` raises only UPDATED. `putIfAbsent` raises UPDATED (through `put`) and then CREATED, and it hands the CREATED event to the removed-listener interface.
- `remove(key)` deletes unconditionally and always answers true.
- When the backend's future completes, `replace(key, value)` calls the writer and raises UPDATED even if the key was absent and the answer is false. Only a failure while waiting skips them. In the `finally` block, a true answer counts a put and a hit, and a false one a miss.
- `removeAll()`, `clear()` and `iterator()` always throw UnsupportedOperation.
- The `Map` view's `size()` is `Integer.MAX_VALUE`, and its `isEmpty()` is false.
- `ensureOpen` is never called, so a closed cache still serves every operation. The model does the same.
- `enableManagement` on an unknown name dereferences null. `enableStatistics` ignores an unknown name.
- `RIEntry.equals` dereferences null when this entry's value is null, or when its old value is null and the other's is not.
- The expiry stamp is cast to `int`. Past January 2038 it wraps to a negative number (`Expiry.StampWrapsAfter2038`).
- The query parameter is spelled `seperator`. A separator made of word characters lets two caches share wire keys (`Naming.WordSeparatorAllowsCollision`).
- `getCache(name, keyType, valueType)` on an existing cache fails as written; see Findings.

Inputs the code takes from its environment are parameters of the model:

- The clock is the parameter `now` (milliseconds).
- A failure while waiting on the store's future is the parameter `fault`.
- The loader is a pair of functions.
- An entry processor is two functions: the `remove` and `setValue` calls it makes on its entry, and the value it returns.

## Model

| member | source | states |
|---|---|---|
| `Java.WrapLong` | src/main/java/net/spy/memcached/jcache/SpyCache.java:389 | `long` addition: the exact sum when it fits, otherwise the value congruent to it modulo 2^64 inside the `long` range |
| `Java.ToInt32` | src/main/java/net/spy/memcached/jcache/SpyCache.java:389 | the `(int)` cast: the value itself inside the `int` range, otherwise the `int` congruent to it modulo 2^32 |
| `Java.JavaDiv` | src/main/java/net/spy/memcached/jcache/SpyCache.java:389 | Java's `/` truncates toward zero: Euclidean division for non-negative operands, negated division of the magnitude for negative ones |
| `Java.NatToString` | src/main/java/net/spy/memcached/jcache/SpyCache.java:381 | `Integer.toString` of a natural number is non-empty and made of decimal digits only |
| `Java.Supertypes` | src/main/java/net/spy/memcached/jcache/SpyCache.java:308 | each class is assignable to itself and to `Object` |
| `Memcached.Lookup` | src/main/java/net/spy/memcached/jcache/SpyCache.java:95 | the client's get is null exactly when the wire key is absent, otherwise the stored value |
| `Memcached.Backend.constructor` | src/main/java/net/spy/memcached/jcache/SpyCacheManager.java:51 | a new client starts from an empty store |
| `Memcached.Backend.Get` | src/main/java/net/spy/memcached/jcache/SpyCache.java:95 | reads the store without changing it |
| `Memcached.Backend.Set` | src/main/java/net/spy/memcached/jcache/SpyCache.java:165 | stores value and stamp under the wire key whether or not it was present; every other key keeps its entry |
| `Memcached.Backend.Delete` | src/main/java/net/spy/memcached/jcache/SpyCache.java:211 | removes the wire key if present and nothing else |
| `Memcached.Backend.Replace` | src/main/java/net/spy/memcached/jcache/SpyCache.java:257-260 | replace-if-present: a failure leaves the store alone; otherwise it answers whether the key was present and stores only then |
| `Expiry.StampInRange` | src/main/java/net/spy/memcached/jcache/SpyCache.java:384-391 | until 2^31 seconds after the epoch, the stamp of a finite duration is exactly `(now + duration) / 1000` and not negative |
| `Expiry.EternalStamp` | src/main/java/net/spy/memcached/jcache/SpyCache.java:386-387 | an eternal creation duration always yields the never-expire stamp 0 |
| `Expiry.StampWrapsAfter2038` | src/main/java/net/spy/memcached/jcache/SpyCache.java:389 | one hour past 2^31 seconds the `(int)` cast makes the stamp negative |
| `Configuration.DefaultConfiguration` | src/main/java/net/spy/memcached/jcache/SpyCacheManager.java:101 | a fresh `MutableConfiguration` has no read-/write-through, statistics, loader, writer or listeners, and eternal expiry |
| `Configuration.WithTypes` | src/main/java/net/spy/memcached/jcache/SpyCacheManager.java:102-104 | `setTypes` sets both types and changes nothing else |
| `Configuration.ProductOf` | src/main/java/net/spy/memcached/jcache/SpyMutableConfiguration.java:22-27 | a loader (or writer) exists exactly when its factory is given, and it is that factory's product |
| `Configuration.RemoveFirst` | src/main/java/net/spy/memcached/jcache/SpyCache.java:412 | `List.remove` of an element the list does not hold leaves the list unchanged |
| `Configuration.RemoveFirstCount` | src/main/java/net/spy/memcached/jcache/SpyCache.java:412 | `List.remove` takes out one copy of the element when there is one, and nothing else (as multisets) |
| `Configuration.OccurrencesCount` | src/main/java/net/spy/memcached/jcache/SpyCache.java:410-415 | the number of matching registrations is the element's multiplicity in the list |
| `Configuration.RemoveTimesCount` | src/main/java/net/spy/memcached/jcache/SpyCache.java:410-415 | n removals take out n copies of the element (or every copy when there are fewer) and leave every other element's count alone |
| `Configuration.RemoveAllOccurrences` | src/main/java/net/spy/memcached/jcache/SpyCache.java:406-416 | removing once per match leaves no copy of the deregistered configuration and keeps every other one |
| `Configuration.RemoveFirstAppended` | src/main/java/net/spy/memcached/jcache/SpyCache.java:400-403 | removing an element just appended, and not present before, gives back the earlier list |
| `Configuration.SpyMutableConfiguration.constructor` | src/main/java/net/spy/memcached/jcache/SpyMutableConfiguration.java:20-29 | copies every setting; creates a loader iff a loader factory exists and a writer iff a writer factory exists; creates the expiry policy once from its factory |
| `Configuration.SpyMutableConfiguration.IsReadThroughSupport` | src/main/java/net/spy/memcached/jcache/SpyMutableConfiguration.java:35-37 | read-through is in force only with a loader, and never without the flag |
| `Configuration.SpyMutableConfiguration.IsWriteThroughSupport` | src/main/java/net/spy/memcached/jcache/SpyMutableConfiguration.java:43-45 | write-through is in force only with a writer, and never without the flag |
| `Configuration.SpyMutableConfiguration.SetCacheLoaderFactory` | src/main/java/net/spy/memcached/jcache/SpyMutableConfiguration.java:51-55 | the held loader becomes the new factory's product and the factory is recorded |
| `Configuration.SpyMutableConfiguration.SetCacheWriterFactory` | src/main/java/net/spy/memcached/jcache/SpyMutableConfiguration.java:57-61 | the held writer becomes the new factory's product and the factory is recorded |
| `Configuration.SpyMutableConfiguration.SetStatisticsEnabled` | src/main/java/net/spy/memcached/jcache/SpyCache.java:82 | the statistics flag takes the new value |
| `Configuration.SpyMutableConfiguration.SetManagementEnabled` | src/main/java/net/spy/memcached/jcache/SpyCache.java:73 | the management flag takes the new value |
| `Configuration.SpyMutableConfiguration.AddListenerConfig` | src/main/java/net/spy/memcached/jcache/SpyCache.java:368 | a listener configuration already held is refused with IllegalArgument and nothing changes; a new one is appended |
| `Configuration.SpyMutableConfiguration.RemoveListenerConfig` | src/main/java/net/spy/memcached/jcache/SpyCache.java:413 | drops the first copy of the configuration, if any |
| `Naming.ValidateCacheName` | src/main/java/net/spy/memcached/jcache/SpyCacheManager.java:218-220 | a name is valid iff it is non-empty and every character is in [A-Za-z0-9_] |
| `Naming.CompositeKeyParts` | src/main/java/net/spy/memcached/jcache/SpyCache.java:380-382 | a wire key splits back into exactly the cache name, the separator and the key's `toString` |
| `Naming.SeparatorFor` | src/main/java/net/spy/memcached/jcache/SpyCacheManager.java:48-50 | the separator is the `seperator` query parameter when present, otherwise "$" |
| `Naming.DollarIsNotWordChar` | src/main/java/net/spy/memcached/jcache/SpyCacheManager.java:29 | the default separator does not start with a word character |
| `Naming.DistinctNamesNeverCollide` | src/main/java/net/spy/memcached/jcache/SpyCache.java:380-382 | with a separator that starts with a non-word character, two different valid cache names never produce the same wire key, whatever the keys |
| `Naming.DistinctKeyTextsNeverCollide` | src/main/java/net/spy/memcached/jcache/SpyCache.java:380-382 | within one cache, keys with different `toString` get different wire keys |
| `Naming.UserKeyExample` | src/test/java/net/spy/memcached/jcache/SpyCacheTest.java:49-53 | cache "user" with separator "$" stores key 1 under "user$1" |
| `Naming.IntegerAndStringKeysShareWireKey` | src/main/java/net/spy/memcached/jcache/SpyCache.java:381 | only the key's text reaches the store: the integer 1 and the string "1" share a wire key |
| `Naming.WordSeparatorAllowsCollision` | src/main/java/net/spy/memcached/jcache/SpyCacheManager.java:48-50 | with a separator made of word characters, two valid, different cache names can produce the same wire key |
| `Naming.IndexOf` | src/main/java/net/spy/memcached/jcache/SpyCacheManager.java:204 | finds the first occurrence of the character, or the length when there is none |
| `Naming.SplitAll` | src/main/java/net/spy/memcached/jcache/SpyCacheManager.java:201 | splitting yields at least one piece, and no piece contains the delimiter |
| `Naming.JoinSplitAll` | src/main/java/net/spy/memcached/jcache/SpyCacheManager.java:201 | joining the pieces with the delimiter gives back the original text |
| `Naming.TrimTrailingEmpty` | src/main/java/net/spy/memcached/jcache/SpyCacheManager.java:201 | `String.split` drops exactly the trailing empty pieces: a prefix of the pieces, ending in a non-empty one |
| `Naming.ParameterNames` | src/main/java/net/spy/memcached/jcache/SpyCacheManager.java:202-207 | a name is a parameter iff some part containing "=" has that name before its first "=" |
| `Naming.LastParameterWins` | src/main/java/net/spy/memcached/jcache/SpyCacheManager.java:205 | a part not overridden by a later part with the same name gives its parameter the text after its first "=" |
| `Naming.NoEqualsNoParameters` | src/main/java/net/spy/memcached/jcache/SpyCacheManager.java:200 | a null query, or one without "=", yields no parameters |
| `Naming.SeparatorOverride` | src/main/java/net/spy/memcached/jcache/SpyCacheManager.java:39-50 | the query `seperator=<sep>` (no "&" in `<sep>`) makes `<sep>` the manager's separator |
| `CacheSpec.GetWithoutReadThrough` | src/main/java/net/spy/memcached/jcache/SpyCache.java:93-103 | without read-through, get returns what the store holds and changes only the counters: exactly one hit (value present) or one miss (absent) with statistics on |
| `CacheSpec.GetWithReadThrough` | src/main/java/net/spy/memcached/jcache/SpyCache.java:104-111 | with read-through, the loader is asked on every get; its answer is returned; a non-null answer is stored with the policy's stamp, written through, raised as UPDATED and counted as a put; a null answer leaves store, writer and events alone |
| `CacheSpec.GetCountsOneHitOrMiss` | src/main/java/net/spy/memcached/jcache/SpyCache.java:96-103 | with statistics on, a get counts one hit or one miss in total, and the hit iff the store held the key |
| `CacheSpec.NeverWrittenKeyMisses` | src/main/java/net/spy/memcached/jcache/SpyCache.java:93-112 | a key never written reads as null and counts one miss with statistics on |
| `CacheSpec.PutEffect` | src/main/java/net/spy/memcached/jcache/SpyCache.java:162-180 | put sets the wire key to value and stamp and leaves every other key alone; one put counted with statistics on; writer called only with write-through; exactly one UPDATED event with a listener and never a CREATED one |
| `CacheSpec.GetAfterPut` | src/main/java/net/spy/memcached/jcache/SpyCache.java:162-180 | without read-through, get right after put returns the value put |
| `CacheSpec.ReadThroughStoresLoadedValue` | src/main/java/net/spy/memcached/jcache/SpyCache.java:105-110 | with a loader that answers v for every key, get of any key returns v and the store then holds v under its wire key |
| `CacheSpec.GetAndPutEffect` | src/main/java/net/spy/memcached/jcache/SpyCache.java:182-186 | getAndPut returns what get returned, and the new value is then stored |
| `CacheSpec.PutIfAbsentEffect` | src/main/java/net/spy/memcached/jcache/SpyCache.java:194-207 | putIfAbsent answers true iff containsKey was false; then it stores the value and raises UPDATED then CREATED; otherwise the state is exactly the one the check left |
| `CacheSpec.PutIfAbsentWithoutReadThrough` | src/main/java/net/spy/memcached/jcache/SpyCache.java:194-207 | without read-through: true iff the key was absent from the store, then stored and UPDATED, CREATED raised; on a present key no set, write or event |
| `CacheSpec.RemoveEffect` | src/main/java/net/spy/memcached/jcache/SpyCache.java:209-227 | remove deletes the wire key whether or not present and keeps all others; one removal counted with statistics on; writer's delete only with write-through; one REMOVED event with a listener |
| `CacheSpec.GetAndRemoveAbsent` | src/main/java/net/spy/memcached/jcache/SpyCache.java:239-247 | when get yields null, getAndRemove returns null and issues no delete |
| `CacheSpec.GetAndRemovePresent` | src/main/java/net/spy/memcached/jcache/SpyCache.java:239-247 | when get yields a value, getAndRemove removes the key and returns that value |
| `CacheSpec.RemoveIfEqualsEffect` | src/main/java/net/spy/memcached/jcache/SpyCache.java:229-237 | remove(key, old) answers true iff the value read equals old; it removes exactly then and otherwise leaves the get's state |
| `CacheSpec.ReplaceEffect` | src/main/java/net/spy/memcached/jcache/SpyCache.java:254-285 | replace answers true iff no failure and the key was present, storing only then; with the future completed the writer and UPDATED run even on false; a failure skips both; a put and a hit on true, a miss on false |
| `CacheSpec.ReplaceIfEqualsMismatch` | src/main/java/net/spy/memcached/jcache/SpyCache.java:249-252 | replace(key, old, new) with a null or different value answers false and does no backend replace |
| `CacheSpec.ReplaceIfEqualsWithoutReadThrough` | src/main/java/net/spy/memcached/jcache/SpyCache.java:249-252 | without read-through and without a failure, replace(key, old, new) answers true iff the stored value equals old, and a get then returns new |
| `CacheSpec.GetAndReplaceReturnsPrior` | src/main/java/net/spy/memcached/jcache/SpyCache.java:287-291 | getAndReplace returns the value read before, whether or not the replace applied |
| `CacheSpec.GetAllWithoutReadThrough` | src/main/java/net/spy/memcached/jcache/SpyCache.java:114-123 | without read-through, getAll returns exactly the requested keys present in the store with their values, changes nothing but the counters, and counts one hit or miss per key |
| `CacheSpec.PutAllCounts` | src/main/java/net/spy/memcached/jcache/SpyCache.java:188-192 | putAll is one put per entry: puts, UPDATED events and writer calls each grow by the number of entries (when enabled); no key is lost |
| `CacheSpec.PutAllLastWins` | src/main/java/net/spy/memcached/jcache/SpyCache.java:188-192 | an entry that no later entry overrides is stored with its value |
| `CacheSpec.RemoveAllEffect` | src/main/java/net/spy/memcached/jcache/SpyCache.java:293-297 | removeAll(keys) deletes every given key and keeps every other; one removal and one event per key |
| `CacheSpec.LoadAllWithoutLoader` | src/main/java/net/spy/memcached/jcache/SpyCache.java:130-133 | with no loader, loadAll touches nothing and only signals completion (when a listener is given) |
| `CacheSpec.ReplacingLoadsEveryKey` | src/main/java/net/spy/memcached/jcache/SpyCache.java:141-146 | when replacing, every key goes to the loader and no key is checked |
| `CacheSpec.KeysToLoadAbsent` | src/main/java/net/spy/memcached/jcache/SpyCache.java:141-146 | without replacing or read-through, the loader gets exactly the keys absent from the store, and the checks change only the counters |
| `CacheSpec.LoadAllLoads` | src/main/java/net/spy/memcached/jcache/SpyCache.java:140-153 | a successful batch load is called once with the chosen keys; each returned entry is put; completion is signalled |
| `CacheSpec.LoadAllFailure` | src/main/java/net/spy/memcached/jcache/SpyCache.java:154-158 | a failing batch load stores nothing and signals the exception to the listener |
| `CacheSpec.InvokeSeesFreshEntry` | src/main/java/net/spy/memcached/jcache/SpyCache.java:314-318 | the processor sees the get's value in an entry whose `exists()` is false, and its result is returned; a processor making no calls leaves the get's state |
| `CacheSpec.ApplyOpsCounts` | src/main/java/net/spy/memcached/jcache/SpyCache.java:314-318 | each `setValue` of the processor is one counted put and each `remove` one counted removal, with no hit, miss or load |
| `CacheSpec.InvokeAllResults` | src/main/java/net/spy/memcached/jcache/SpyCache.java:320-334 | invokeAll keeps results only for requested keys; a result for every key when the processor never returns null, none when it always does |
| `JCache.SpyCache.Env` | src/main/java/net/spy/memcached/jcache/SpyCache.java:105-106 | a cache's read-through is only ever in force with a loader; events are dispatched iff a registration exists |
| `JCache.SpyCache.constructor` | src/main/java/net/spy/memcached/jcache/SpyCache.java:51-65 | a new cache copies the configuration, registers one listener per listener configuration, starts with zero counters and empty logs, and is open |
| `JCache.SpyCache.SetManagementEnabled` | src/main/java/net/spy/memcached/jcache/SpyCache.java:67-74 | records the management flag |
| `JCache.SpyCache.SetStatisticsEnabled` | src/main/java/net/spy/memcached/jcache/SpyCache.java:76-83 | switches the counters on or off and changes nothing else the operations read |
| `JCache.SpyCache.Get` | src/main/java/net/spy/memcached/jcache/SpyCache.java:93-112 | store, counters, logs and result are those of `CacheSpec.Get` (see its lemmas) |
| `JCache.SpyCache.GetAll` | src/main/java/net/spy/memcached/jcache/SpyCache.java:114-123 | the loop equals one get per key, keeping non-null values (`CacheSpec.GetAll`) |
| `JCache.SpyCache.ContainsKey` | src/main/java/net/spy/memcached/jcache/SpyCache.java:125-127 | a full get, answering whether it was non-null |
| `JCache.SpyCache.LoadAll` | src/main/java/net/spy/memcached/jcache/SpyCache.java:129-160 | the key-choosing loop, the batch load, the loop of puts and the callback equal `CacheSpec.LoadAllKeys` |
| `JCache.SpyCache.Put` | src/main/java/net/spy/memcached/jcache/SpyCache.java:162-180 | the set, the count, the write-through and the UPDATED dispatch equal `CacheSpec.Put` |
| `JCache.SpyCache.GetAndPut` | src/main/java/net/spy/memcached/jcache/SpyCache.java:182-186 | get then put, returning the get's value (`CacheSpec.GetAndPut`) |
| `JCache.SpyCache.PutAll` | src/main/java/net/spy/memcached/jcache/SpyCache.java:188-192 | the loop equals one put per entry in iteration order (`CacheSpec.PutAll`) |
| `JCache.SpyCache.PutIfAbsent` | src/main/java/net/spy/memcached/jcache/SpyCache.java:194-207 | containsKey, then put and CREATED only when absent (`CacheSpec.PutIfAbsent`) |
| `JCache.SpyCache.Remove` | src/main/java/net/spy/memcached/jcache/SpyCache.java:209-227 | always answers true; delete, count, writer delete and REMOVED as `CacheSpec.Remove` |
| `JCache.SpyCache.RemoveIfEquals` | src/main/java/net/spy/memcached/jcache/SpyCache.java:229-237 | get, then remove only on an equal value (`CacheSpec.RemoveIfEquals`) |
| `JCache.SpyCache.GetAndRemove` | src/main/java/net/spy/memcached/jcache/SpyCache.java:239-247 | get, then remove only on a non-null value (`CacheSpec.GetAndRemove`) |
| `JCache.SpyCache.ReplaceIfEquals` | src/main/java/net/spy/memcached/jcache/SpyCache.java:249-252 | get, then replace only on an equal value (`CacheSpec.ReplaceIfEquals`) |
| `JCache.SpyCache.Replace` | src/main/java/net/spy/memcached/jcache/SpyCache.java:254-285 | the backend replace, the writer and event when the future completes, and the `finally` counters equal `CacheSpec.Replace` |
| `JCache.SpyCache.GetAndReplace` | src/main/java/net/spy/memcached/jcache/SpyCache.java:287-291 | get then replace, returning the get's value (`CacheSpec.GetAndReplace`) |
| `JCache.SpyCache.RemoveAllKeys` | src/main/java/net/spy/memcached/jcache/SpyCache.java:293-297 | the loop equals one remove per key (`CacheSpec.RemoveAll`) |
| `JCache.SpyCache.RemoveAll` | src/main/java/net/spy/memcached/jcache/SpyCache.java:299-301 | always throws UnsupportedOperation and changes nothing |
| `JCache.SpyCache.Clear` | src/main/java/net/spy/memcached/jcache/SpyCache.java:303-305 | always throws UnsupportedOperation and changes nothing |
| `JCache.SpyCache.Iterator` | src/main/java/net/spy/memcached/jcache/SpyCache.java:376-378 | always throws UnsupportedOperation and changes nothing |
| `JCache.SpyCache.GetConfigurationAsWritten` | src/main/java/net/spy/memcached/jcache/SpyCache.java:307-312 | as written: the configuration is returned iff the requested class is a supertype of the cache's own class |
| `JCache.SpyCache.GetConfiguration` | src/main/java/net/spy/memcached/jcache/SpyCache.java:307-312 | corrected: the configuration is returned iff the requested class is a supertype of the configuration's class |
| `JCache.SpyCache.Invoke` | src/main/java/net/spy/memcached/jcache/SpyCache.java:314-318 | get, a fresh entry, and the processor's calls routed through remove and put (`CacheSpec.Invoke`) |
| `JCache.SpyCache.InvokeAll` | src/main/java/net/spy/memcached/jcache/SpyCache.java:320-334 | the loop equals one invoke per key, keeping non-null results (`CacheSpec.InvokeAll`) |
| `JCache.SpyCache.Close` | src/main/java/net/spy/memcached/jcache/SpyCache.java:344-350 | the manager forgets the name; statistics and management are switched off; the cache is closed |
| `JCache.SpyCache.Unwrap` | src/main/java/net/spy/memcached/jcache/SpyCache.java:356-365 | a supertype of the cache gets the cache; `Map` gets a fresh view over this cache; `MemcachedClient` gets the shared client; anything else IllegalArgument |
| `JCache.SpyCache.RegisterListener` | src/main/java/net/spy/memcached/jcache/SpyCache.java:367-370 | a configuration already held is refused and nothing changes; a new one is appended to both the configuration and the registrations |
| `JCache.SpyCache.DeregisterListener` | src/main/java/net/spy/memcached/jcache/SpyCache.java:406-416 | null throws NullPointer and changes nothing; otherwise one removal from the registrations and one from the configuration per matching registration |
| `JCache.DeregisterUndoesRegister` | src/main/java/net/spy/memcached/jcache/SpyCache.java:367-374 | deregistering a configuration just registered, and not held before, restores the registrations |
| `JCache.ExistingCacheLookup` | src/main/java/net/spy/memcached/jcache/SpyCacheManager.java:88-99 | the getCache type check: a null configuration throws NullPointer; the cache is returned iff both declared types are non-null and equal to those asked; any other mismatch is ClassCast |
| `JCache.ExistingCacheLookupAsWrittenFails` | src/main/java/net/spy/memcached/jcache/SpyCacheManager.java:90-91 | as written, the lookup of an existing cache always throws NullPointer, whatever types are asked |
| `JCache.ExistingCacheLookupMatchesTypes` | src/main/java/net/spy/memcached/jcache/SpyCacheManager.java:91-93 | with the corrected getConfiguration, the lookup returns the cache exactly when the types asked are the configured ones, otherwise ClassCast |
| `JCache.UntypedLookupOfExistingCacheFails` | src/main/java/net/spy/memcached/jcache/SpyCacheManager.java:108-110 | getCache(name) passes null types, so an existing cache is never returned |
| `JCache.RIEntry.constructor` | src/main/java/net/spy/memcached/jcache/RIEntry.java:26-31 | the three-argument entry holds the given cache, key and value, and no old value |
| `JCache.RIEntry.WithOldValue` | src/main/java/net/spy/memcached/jcache/RIEntry.java:33-38 | the four-argument entry holds exactly the given cache, key, value and old value |
| `JCache.RIEntry.Exists` | src/main/java/net/spy/memcached/jcache/RIEntry.java:40-42 | `exists()` iff the old value is non-null |
| `JCache.RIEntry.Remove` | src/main/java/net/spy/memcached/jcache/RIEntry.java:44-46 | exactly one remove of the entry's key through its cache |
| `JCache.RIEntry.SetValue` | src/main/java/net/spy/memcached/jcache/RIEntry.java:48-50 | exactly one put of the key and new value through the cache; the entry's own fields do not change |
| `JCache.RIEntry.Unwrap` | src/main/java/net/spy/memcached/jcache/RIEntry.java:80-86 | succeeds with the entry itself iff the class is a supertype of `RIEntry`, otherwise IllegalArgument |
| `JCache.RIEntry.Equals` | src/main/java/net/spy/memcached/jcache/RIEntry.java:92-100 | the same entry is equal and null is not; true only for equal key, value and old value; a null value of this entry with equal keys dereferences null |
| `JCache.RIEntry.HashCode` | src/main/java/net/spy/memcached/jcache/RIEntry.java:106-108 | the hash code is the key's |
| `JCache.EqualEntriesHashAlike` | src/main/java/net/spy/memcached/jcache/RIEntry.java:92-108 | equal entries have equal hash codes |
| `JCache.EntryEqualsSymmetric` | src/main/java/net/spy/memcached/jcache/RIEntry.java:92-100 | with non-null values and old values, equality never throws and is symmetric |
| `JCache.CacheMap.constructor` | src/main/java/net/spy/memcached/jcache/CacheMap.java:17-19 | the view wraps the given cache |
| `JCache.CacheMap.Size` | src/main/java/net/spy/memcached/jcache/CacheMap.java:21-23 | always `Integer.MAX_VALUE` |
| `JCache.CacheMap.IsEmpty` | src/main/java/net/spy/memcached/jcache/CacheMap.java:25-27 | never empty |
| `JCache.CacheMap.ContainsKey` | src/main/java/net/spy/memcached/jcache/CacheMap.java:29-31 | exactly the cache's containsKey, side effects included |
| `JCache.CacheMap.ContainsValue` | src/main/java/net/spy/memcached/jcache/CacheMap.java:33-35 | always throws UnsupportedOperation |
| `JCache.CacheMap.Get` | src/main/java/net/spy/memcached/jcache/CacheMap.java:37-39 | exactly the cache's get, side effects included |
| `JCache.CacheMap.Put` | src/main/java/net/spy/memcached/jcache/CacheMap.java:41-44 | one put through the cache, answering the new value rather than the previous one |
| `JCache.CacheMap.Remove` | src/main/java/net/spy/memcached/jcache/CacheMap.java:46-48 | the cache's getAndRemove: the prior value, or null with no delete |
| `JCache.CacheMap.PutAll` | src/main/java/net/spy/memcached/jcache/CacheMap.java:50-54 | one put through the cache per entry |
| `JCache.CacheMap.Clear` | src/main/java/net/spy/memcached/jcache/CacheMap.java:56-58 | the cache's clear, which throws UnsupportedOperation |
| `JCache.CacheMap.KeySet` | src/main/java/net/spy/memcached/jcache/CacheMap.java:60-62 | always throws UnsupportedOperation |
| `JCache.CacheMap.Values` | src/main/java/net/spy/memcached/jcache/CacheMap.java:64-66 | always throws UnsupportedOperation |
| `JCache.CacheMap.EntrySet` | src/main/java/net/spy/memcached/jcache/CacheMap.java:68-70 | always throws UnsupportedOperation |
| `JCache.DefaultUri` | src/main/java/net/spy/memcached/jcache/spi/SpyCachingProvider.java:29 | the default locator is opaque and has no query component |
| `JCache.SpyCacheManager.constructor` | src/main/java/net/spy/memcached/jcache/SpyCacheManager.java:33-54 | a new manager has a fresh, empty client; no caches; is open; its separator comes from its locator's query parameters |
| `JCache.SpyCacheManager.ParseQuery` | src/main/java/net/spy/memcached/jcache/SpyCacheManager.java:198-210 | the loop builds exactly `Naming.QueryParameters` of the query (see the `Naming` lemmas) |
| `JCache.SpyCacheManager.CreateCache` | src/main/java/net/spy/memcached/jcache/SpyCacheManager.java:72-85 | closed: IllegalState; invalid name: IllegalArgument; existing name: that cache, the new configuration ignored; otherwise a fresh open cache with the given configuration, kept under the name |
| `JCache.SpyCacheManager.GetCache` | src/main/java/net/spy/memcached/jcache/SpyCacheManager.java:87-106 | an existing name answers the type check (with the corrected `getConfiguration`; see Findings) and changes nothing; an absent one creates a cache whose types are the given ones when both are non-null, else `Object` |
| `JCache.SpyCacheManager.CacheNames` | src/main/java/net/spy/memcached/jcache/SpyCacheManager.java:112-114 | exactly the names of the caches held |
| `JCache.SpyCacheManager.DestroyCache` | src/main/java/net/spy/memcached/jcache/SpyCacheManager.java:116-123 | the name is forgotten and its cache, if any, closed; no other cache or configuration changes, and an unknown name changes nothing |
| `JCache.SpyCacheManager.EnableManagement` | src/main/java/net/spy/memcached/jcache/SpyCacheManager.java:125-130 | closed: IllegalState; unknown name: NullPointer; otherwise that cache's management flag is set, and no other cache's flag changes |
| `JCache.SpyCacheManager.EnableStatistics` | src/main/java/net/spy/memcached/jcache/SpyCacheManager.java:132-139 | closed: IllegalState; an unknown name changes nothing; otherwise only that cache's statistics switch changes |
| `JCache.SpyCacheManager.ReleaseCache` | src/main/java/net/spy/memcached/jcache/SpyCacheManager.java:184-190 | the name is forgotten without closing its cache |
| `JCache.SpyCacheManager.Close` | src/main/java/net/spy/memcached/jcache/SpyCacheManager.java:141-162 | idempotent: the first call releases this manager from the provider, forgets and closes every cache, and marks it closed; a later call leaves the provider alone; caches of other managers keep their closed state |
| `JCache.SpyCacheManager.CloseCaches` | src/main/java/net/spy/memcached/jcache/SpyCacheManager.java:146-156 | every cache held is closed and the map is left empty; caches of other managers keep their closed state |
| `JCache.SpyCacheManager.Unwrap` | src/main/java/net/spy/memcached/jcache/SpyCacheManager.java:168-176 | a supertype of the manager gets the manager, `MemcachedClient` the client, anything else IllegalArgument |
| `JCache.Released` | src/main/java/net/spy/memcached/jcache/spi/SpyCachingProvider.java:135-145 | the release keeps every other scope and locator with its manager, adds nothing, and no longer holds the released pair |
| `JCache.ReleasedKeepsScopesNonEmpty` | src/main/java/net/spy/memcached/jcache/spi/SpyCachingProvider.java:141-143 | a release drops a scope once its map is empty, so no empty scope is kept |
| `JCache.ReleasedAbsent` | src/main/java/net/spy/memcached/jcache/spi/SpyCachingProvider.java:135-145 | releasing an untracked pair changes nothing |
| `JCache.ReleaseAfterRemoval` | src/main/java/net/spy/memcached/jcache/spi/SpyCachingProvider.java:100-113 | removing the locator and then letting the closing manager release itself amounts to a single release |
| `JCache.SpyCachingProvider.constructor` | src/main/java/net/spy/memcached/jcache/spi/SpyCachingProvider.java:27-35 | a new provider tracks no manager |
| `JCache.SpyCachingProvider.GetCacheManager` | src/main/java/net/spy/memcached/jcache/spi/SpyCachingProvider.java:37-58 | null arguments take the defaults; a tracked pair returns the identical manager and changes nothing; otherwise a fresh open manager for that locator and scope is registered and returned |
| `JCache.SpyCachingProvider.CloseAll` | src/main/java/net/spy/memcached/jcache/spi/SpyCachingProvider.java:94-96 | closes each of a set of managers already dropped from the registry, which stays as it is, and every cache they held; only those managers, caches and their configurations may change |
| `JCache.SpyCachingProvider.Close` | src/main/java/net/spy/memcached/jcache/spi/SpyCachingProvider.java:80-88 | the registry ends empty, every manager it held is closed with no caches, and every cache those managers held is closed |
| `JCache.SpyCachingProvider.CloseScope` | src/main/java/net/spy/memcached/jcache/spi/SpyCachingProvider.java:90-98 | the scope is dropped and each of its managers closed, with every cache it held; other scopes are kept, and every other manager keeps its caches and closed state and every other manager's cache its closed state; only the scope's managers, caches and configurations may change |
| `JCache.SpyCachingProvider.CloseManager` | src/main/java/net/spy/memcached/jcache/spi/SpyCachingProvider.java:100-113 | only that manager is released and closed, with every cache it held; the others of its scope stay tracked; an emptied scope is dropped; every other manager keeps its caches and closed state and every other manager's cache its closed state |
| `JCache.SpyCachingProvider.IsSupported` | src/main/java/net/spy/memcached/jcache/spi/SpyCachingProvider.java:115-122 | true exactly for store-by-reference |
| `JCache.SpyCachingProvider.ReleaseCacheManager` | src/main/java/net/spy/memcached/jcache/spi/SpyCachingProvider.java:135-145 | the pair is forgotten without closing its manager (so the next getCacheManager makes a new one); an untracked pair changes nothing |

## Left out

- The memcached client itself is not modelled: the wire protocol, connecting, `shutdown`, and the host, port and `peer` server list the manager's constructor reads. The store is an abstract map that offers get, set, delete and replace-if-present.
- Entry expiry inside the store is not modelled: the stamp is stored with the value, but entries are never expired. A get therefore never observes an expired entry.
- Asynchrony is not modelled. The future `replace` returns is an immediate outcome, and a failure while waiting on it is the `fault` parameter. A failed wait (interruption, time-out, cancellation) does not tell whether the server applied the replace; the model assumes it did not, so after a fault the store is unchanged (`Memcached.Backend.Replace`). `CacheSpec.ReplaceEffect`'s "stores only on a completed, true replace" rests on that assumption.
- Concurrency is not modelled: `synchronized` blocks, the copy-on-write listener list and races between read-then-act operations. The model is sequential.
- Wall-clock and nanosecond time are not modelled. The millisecond clock is the `now` parameter of each operation, and the per-operation timings the statistics bean accumulates are omitted. The counters are kept.
- MBean registration (`setManagementEnabled`, `setStatisticsEnabled`) is not modelled; only the configuration flags are recorded.
- Garbage collection of class loaders is not modelled. `WeakHashMap` and `WeakReference` become an explicit `Scope` token, and the default class loader is a constant.
- The `Properties` argument of the provider and the manager does not affect behaviour and is not modelled.
- Java reflection is not modelled. `isAssignableFrom`, `equals` on classes and the key and value types are a closed set of class tokens, `JClass`. There are no tokens for `java.io.Closeable` or `AutoCloseable` (which `Cache` and `CacheManager` extend) nor for `Serializable` (which the configurations implement), and a `UserClass(_)` is assignable only to itself and `Object`; so `unwrap(Closeable.class)` on a cache or manager, which Java answers with the object itself, is not modelled: the model answers `IllegalArgument`.
- Null keys and values are not modelled, apart from the nulls the code itself produces or checks for (absent values, old values, a null listener configuration, a null completion listener). Hence the null-key check of `loadAll` and the NullPointerException of `key.toString()` are omitted.
- Exceptions thrown by user code are not modelled, except a failing batch load in `loadAll`, which reaches the completion listener. The loader, writer, expiry policy, entry processor and listeners are abstract functions and logs.
- An entry processor's `getValue` sees the value it was given, even after its own `setValue`. The model gives each processor its calls as a function of that first view.
- Listener dispatch is recorded as one log entry per dispatch, when a registration exists. Listener filters and the dispatcher's per-listener delivery are not modelled.
- The plain getters are not modelled as separate members, because they are field reads: `getName`, `getCacheManager`, `isClosed`, `getURI`, `getCachingProvider`, `getProperties`, `getClassLoader`, the provider's defaults, and `RIEntry.getKey`/`getValue`/`getOldValue`. The constructors fix the fields the getters read.
- Iteration order of `Set`, `Map` and `HashMap` is not modelled. It is the order of the given sequence (`keys`, `entries`).
- The listener-configuration methods of `MutableConfiguration` are not part of this model. Adding follows the JSR-107 reference implementation: a duplicate is refused with IllegalArgument. Removing drops the first copy.
- URIs are not parsed. A locator is given with its query component, which is null for an opaque URI such as the default `cache:memcached:localhost:11211`.
- Failures while constructing a manager are not modelled, so the provider's wrapping `RuntimeException` never occurs. As written, the manager's constructor builds `new InetSocketAddress(uri.getHost(), uri.getPort())`. For an opaque locator the host is null and the port is -1, so that call throws `IllegalArgumentException`, and `getCacheManager` turns it into a `RuntimeException`. Every opaque locator therefore makes `getCacheManager` fail, the default `cache:memcached:localhost:11211` and every `cache:memcached:<host>:<port>` included. The model performs the construction anyway (`JCache.SpyCacheManager.constructor`, `JCache.SpyCachingProvider.GetCacheManager`).
- `Java.StringHash`: folds over Dafny characters, which are Unicode scalar values. `String.hashCode` folds over UTF-16 code units, so the two differ for a key string holding a character outside the Basic Multilingual Plane.
- `CacheSpec.InvokeAllResults`: states the result keys for processors that never, or always, answer null. For other processors the exact key set is what the definition of `CacheSpec.InvokeAll` gives it.

## Findings

| source | as written | input that shows it | evidently intended | confidence | as-written member | corrected member |
|---|---|---|---|---|---|---|
| src/main/java/net/spy/memcached/jcache/SpyCache.java:307-312 | `getConfiguration(clazz)` tests `clazz.isAssignableFrom(this.getClass())` against the cache's own class. `getConfiguration(Configuration.class)` is therefore null, and `getCache(name, keyType, valueType)` dereferences it (SpyCacheManager.java:90-91). | `createCache("user", c)` followed by `getCache("user", Object.class, Object.class)` throws NullPointerException, whatever the types | test the configuration's class, so that an existing cache is returned when its types match and ClassCastException is thrown otherwise | not executed | `JCache.SpyCache.GetConfigurationAsWritten`, `JCache.ExistingCacheLookupAsWrittenFails` | `JCache.SpyCache.GetConfiguration`, `JCache.ExistingCacheLookupMatchesTypes` |
