/** The collection pools of both lineages (`CollectionPool<T>`, and the older `ListPool`,
    `DictionaryPool` and `HashSetPool`), the `PoolTracker` counters and the `Pooled*`
    wrappers that take a collection from a pool and give it back once. */
module Pooling {
  /** A pooled collection (a list, set or dictionary): only its entries matter here. */
  class Container<E> {
    var entries: seq<E>

    /** `new T()`: an empty collection. */
    constructor ()
      ensures entries == []
    {
      entries := [];
    }

    /** `Clear()`. */
    method Clear()
      modifies this`entries
      ensures entries == []
    {
      entries := [];
    }
  }

  /** One pool of collections, a FIFO queue of released ones. `clears` says whether the
      collection type has a public `Clear` (`clearAction` is set); the older pools always
      clear. */
  class CollectionPool<E> {
    var pool: seq<Container<E>>
    const clears: bool

    constructor (clears: bool)
      ensures pool == [] && this.clears == clears
    {
      pool := [];
      this.clears := clears;
    }

    /** `Get()`: the oldest released collection, cleared, when there is one; a new empty
        one otherwise. */
    method Get() returns (item: Container<E>)
      modifies this, pool
      ensures old(pool) != [] ==> item == old(pool[0]) && pool == old(pool[1..])
      ensures old(pool) != [] && clears ==> item.entries == []
      ensures old(pool) != [] && !clears ==> item.entries == old(item.entries)
      ensures old(pool) == [] ==> fresh(item) && item.entries == [] && pool == []
      ensures forall c :: c in old(pool) && c != item ==> c.entries == old(c.entries)
    {
      if |pool| > 0 {
        item := pool[0];
        pool := pool[1..];
        if clears {
          item.Clear();
        }
        return;
      }
      item := new Container();
    }

    /** `Release(item)`: nothing for null; otherwise the collection is cleared (when the
        type can be) and queued at the back. */
    method Release(item: Container?<E>)
      modifies this`pool, {item}`entries
      ensures item == null ==> pool == old(pool)
      ensures item != null ==> pool == old(pool) + [item]
      ensures item != null && clears ==> item.entries == []
      ensures item != null && !clears ==> item.entries == old(item.entries)
    {
      if item == null {
        return;
      }
      if clears {
        item.Clear();
      }
      pool := pool + [item];
    }
  }

  /** A counter dictionary read with 0 for a missing name. */
  function Lookup(m: map<string, int>, name: string): int
  {
    if name in m then m[name] else 0
  }

  /** The dictionary after `if (!m.ContainsKey(name)) m[name] = 0; m[name]++;`. */
  function Bump(m: map<string, int>, name: string): (r: map<string, int>)
    ensures r.Keys == m.Keys + {name}
    ensures Lookup(r, name) == Lookup(m, name) + 1
    ensures forall n :: n != name ==> Lookup(r, n) == Lookup(m, n)
  {
    m[name := Lookup(m, name) + 1]
  }

  /** `PoolTracker`: per pool name, how many collections are out, and how many gets and
      releases there have been. */
  class PoolTracker {
    var activeCounts: map<string, int>
    var totalGets: map<string, int>
    var totalReleases: map<string, int>

    /** For every name the active count is never negative, never above the gets, and at
        least the gets minus the releases. */
    ghost predicate Valid()
      reads this
    {
      forall n :: 0 <= Lookup(activeCounts, n) <= Lookup(totalGets, n) &&
                  Lookup(totalGets, n) - Lookup(totalReleases, n) <= Lookup(activeCounts, n)
    }

    constructor ()
      ensures Valid() && activeCounts == map[] && totalGets == map[] && totalReleases == map[]
    {
      activeCounts := map[];
      totalGets := map[];
      totalReleases := map[];
    }

    /** `TrackGet(poolName)`: one more out and one more get. */
    method TrackGet(poolName: string)
      requires Valid()
      modifies this
      ensures Valid()
      ensures activeCounts == Bump(old(activeCounts), poolName)
      ensures totalGets == Bump(old(totalGets), poolName)
      ensures totalReleases == old(totalReleases)
    {
      activeCounts := Bump(activeCounts, poolName);
      totalGets := Bump(totalGets, poolName);
      forall n
        ensures 0 <= Lookup(activeCounts, n) <= Lookup(totalGets, n) &&
                Lookup(totalGets, n) - Lookup(totalReleases, n) <= Lookup(activeCounts, n)
      {
        assert 0 <= Lookup(old(activeCounts), n) <= Lookup(old(totalGets), n) &&
               Lookup(old(totalGets), n) - Lookup(totalReleases, n) <= Lookup(old(activeCounts), n);
      }
    }

    /** `TrackRelease(poolName)`: one fewer out, but never below zero; always one more
        release. */
    method TrackRelease(poolName: string)
      requires Valid()
      modifies this
      ensures Valid()
      ensures activeCounts ==
                if Lookup(old(activeCounts), poolName) > 0 then old(activeCounts)[poolName := old(activeCounts)[poolName] - 1]
                else old(activeCounts)
      ensures totalGets == old(totalGets)
      ensures totalReleases == Bump(old(totalReleases), poolName)
    {
      if poolName in activeCounts && activeCounts[poolName] > 0 {
        activeCounts := activeCounts[poolName := activeCounts[poolName] - 1];
      }
      totalReleases := Bump(totalReleases, poolName);
      forall n
        ensures 0 <= Lookup(activeCounts, n) <= Lookup(totalGets, n) &&
                Lookup(totalGets, n) - Lookup(totalReleases, n) <= Lookup(activeCounts, n)
      {
        assert 0 <= Lookup(old(activeCounts), n) <= Lookup(totalGets, n) &&
               Lookup(totalGets, n) - Lookup(old(totalReleases), n) <= Lookup(old(activeCounts), n);
      }
    }

    /** `GetActiveCount(poolName)`: 0 for a name never seen, and otherwise a count between
        the gets not yet matched by releases and all the gets. */
    function GetActiveCount(poolName: string): (r: int)
      requires Valid()
      reads this
      ensures poolName !in activeCounts ==> r == 0
      ensures 0 <= r <= Lookup(totalGets, poolName)
      ensures Lookup(totalGets, poolName) - Lookup(totalReleases, poolName) <= r
    {
      assert 0 <= Lookup(activeCounts, poolName) <= Lookup(totalGets, poolName);
      if poolName in activeCounts then activeCounts[poolName] else 0
    }

    /** `GetStats`: copies of the three dictionaries. */
    method GetStats() returns (active: map<string, int>, gets: map<string, int>, releases: map<string, int>)
      ensures active == activeCounts && gets == totalGets && releases == totalReleases
    {
      active, gets, releases := activeCounts, totalGets, totalReleases;
    }

    /** `Clear()`: all three dictionaries emptied. */
    method Clear()
      modifies this
      ensures Valid() && activeCounts == map[] && totalGets == map[] && totalReleases == map[]
    {
      activeCounts := map[];
      totalGets := map[];
      totalReleases := map[];
    }
  }

  /** `PooledList<T>`, `PooledHashSet<T>` and `PooledDictionary<K, V>`: a collection on loan
      from `pool`, tracked under `name`, returned at most once. */
  class Pooled<E> {
    var value: Container?<E>
    var disposed: bool
    const pool: CollectionPool<E>
    const tracker: PoolTracker
    const name: string

    /** `PooledList(list)` and its kin. */
    constructor (value: Container?<E>, pool: CollectionPool<E>, tracker: PoolTracker, name: string)
      ensures this.value == value && !disposed && this.pool == pool && this.tracker == tracker && this.name == name
    {
      this.value := value;
      disposed := false;
      this.pool := pool;
      this.tracker := tracker;
      this.name := name;
    }

    /** The `Value` property and the implicit conversion: the wrapped collection. */
    function Value(): Container?<E>
      reads this
    {
      value
    }

    /** `Dispose()`: the first call on a wrapper that still holds its collection tracks one
        release, gives the collection back to the pool and forgets it; any other call
        changes nothing. */
    method Dispose()
      requires tracker.Valid()
      modifies this`value, this`disposed, tracker, pool`pool, {value}`entries
      ensures tracker.Valid()
      ensures if old(!disposed && value != null) then
                disposed && value == null &&
                pool.pool == old(pool.pool) + [old(value)] &&
                (pool.clears ==> old(value).entries == []) &&
                (!pool.clears ==> old(value).entries == old(value.entries)) &&
                tracker.activeCounts ==
                  (if Lookup(old(tracker.activeCounts), name) > 0
                   then old(tracker.activeCounts)[name := old(tracker.activeCounts)[name] - 1]
                   else old(tracker.activeCounts)) &&
                tracker.totalReleases == Bump(old(tracker.totalReleases), name) &&
                tracker.totalGets == old(tracker.totalGets)
              else
                disposed == old(disposed) && value == old(value) && pool.pool == old(pool.pool) &&
                tracker.activeCounts == old(tracker.activeCounts) && tracker.totalGets == old(tracker.totalGets) &&
                tracker.totalReleases == old(tracker.totalReleases)
    {
      if !disposed && value != null {
        tracker.TrackRelease(name);
        pool.Release(value);
        value := null;
        disposed := true;
      }
    }
  }

  /** `PooledList<T>.Get()` and its kin: one tracked get, and a wrapper around a collection
      from the pool, empty whenever the pool clears. */
  method GetPooled<E>(pool: CollectionPool<E>, tracker: PoolTracker, name: string) returns (w: Pooled<E>)
    requires tracker.Valid()
    modifies pool, pool.pool, tracker
    ensures tracker.Valid()
    ensures fresh(w) && w.pool == pool && w.tracker == tracker && w.name == name && !w.disposed
    ensures w.value != null && (pool.clears || old(pool.pool) == [] ==> w.value.entries == [])
    ensures old(pool.pool) != [] ==> w.value == old(pool.pool[0]) && pool.pool == old(pool.pool[1..])
    ensures old(pool.pool) == [] ==> fresh(w.value) && pool.pool == []
    ensures tracker.activeCounts == Bump(old(tracker.activeCounts), name)
    ensures tracker.totalGets == Bump(old(tracker.totalGets), name)
    ensures tracker.totalReleases == old(tracker.totalReleases)
  {
    tracker.TrackGet(name);
    var item := pool.Get();
    w := new Pooled(item, pool, tracker, name);
  }
}
