/**
 * The flat memcached-style store behind every cache of one manager, as the
 * adapter sees it through its client: get, set with an expiry stamp,
 * delete, and the atomic replace-if-present.
 */
module Memcached {
  import opened Java

  /** What the store keeps under a wire key: the value and its expiry stamp. */
  datatype Stored = Stored(value: Obj, expiry: int)

  /**
   * The completion of the future that `replace` returns: `Completed(applied)`
   * when `future.get()` returns, `Failed` when it throws.
   */
  datatype ReplaceOutcome = Completed(applied: bool) | Failed

  /** The value under a wire key, or null when the key is absent. */
  function Lookup(store: map<string, Stored>, wire: string): (r: Option<Obj>)
    ensures r.Some? <==> wire in store
    ensures r.Some? ==> r.value == store[wire].value
  {
    if wire in store then Some(store[wire].value) else None
  }

  class Backend {
    var store: map<string, Stored>

    constructor ()
      ensures store == map[]
    {
      store := map[];
    }

    /** `client.get(wire)`. */
    function Get(wire: string): (r: Option<Obj>)
      reads this
      ensures r == Lookup(store, wire)
    {
      Lookup(store, wire)
    }

    /** `client.set(wire, expiry, value)`: stores unconditionally. */
    method Set(wire: string, expiry: int, value: Obj)
      modifies this
      ensures store == old(store)[wire := Stored(value, expiry)]
    {
      store := store[wire := Stored(value, expiry)];
    }

    /** `client.delete(wire)`: removes the key if present. */
    method Delete(wire: string)
      modifies this
      ensures store == old(store) - {wire}
    {
      store := store - {wire};
    }

    /**
     * `client.replace(wire, expiry, value).get()`: stores only when the key
     * is present, and reports whether it did. `fault` stands for the
     * connection failing while the future is awaited; then the store is
     * left as it was.
     */
    method Replace(wire: string, expiry: int, value: Obj, fault: bool) returns (r: ReplaceOutcome)
      modifies this
      ensures fault ==> r == Failed && store == old(store)
      ensures !fault ==> r == Completed(wire in old(store))
      ensures !fault && wire in old(store) ==> store == old(store)[wire := Stored(value, expiry)]
      ensures !fault && wire !in old(store) ==> store == old(store)
    {
      if fault {
        r := Failed;
      } else if wire in store {
        store := store[wire := Stored(value, expiry)];
        r := Completed(true);
      } else {
        r := Completed(false);
      }
    }
  }
}
