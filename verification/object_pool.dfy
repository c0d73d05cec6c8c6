/** `GenericObjectPool<T>`: scene objects kept per prefab, reused in the order they came
    back, with the set of objects currently handed out. */
module ObjectPools {
  /** A Unity component: a prefab, or an instance made from one. Only its identity
      matters here. */
  class Component {
    constructor ()
    {
    }
  }

  type Queues = map<Component, seq<Component>>

  /** The queue kept for `prefab`, empty when there is none yet. */
  function QueueOf(m: Queues, prefab: Component): seq<Component>
  {
    if prefab in m then m[prefab] else []
  }

  /** The number of queued objects, over all prefabs. */
  ghost function Total(m: Queues): nat
    decreases m.Keys
  {
    if m.Keys == {} then 0
    else
      var k :| k in m;
      |m[k]| + Total(m - {k})
  }

  /** `Total` can be split at any prefab, not only at the one it picks. */
  lemma {:induction false} TotalRemove(m: Queues, k: Component)
    requires k in m
    ensures Total(m) == |m[k]| + Total(m - {k})
    decreases m.Keys
  {
    var j :| j in m && Total(m) == |m[j]| + Total(m - {j});
    if j != k {
      TotalRemove(m - {j}, k);
      TotalRemove(m - {k}, j);
      assert m - {j} - {k} == m - {k} - {j};
    }
  }

  /** Replacing one queue changes the total by the difference in lengths. */
  lemma TotalUpdate(m: Queues, k: Component, q: seq<Component>)
    ensures Total(m[k := q]) == Total(m) - |QueueOf(m, k)| + |q|
  {
    TotalRemove(m[k := q], k);
    assert m[k := q] - {k} == m - {k};
    if k in m {
      TotalRemove(m, k);
    } else {
      assert m - {k} == m;
    }
  }

  /** The queue lengths added up in the order `keys` lists the prefabs. */
  function SumInOrder(m: Queues, keys: seq<Component>): nat
  {
    if keys == [] then 0
    else SumInOrder(m, keys[..|keys| - 1]) + |QueueOf(m, keys[|keys| - 1])|
  }

  /** Sums over two maps with the same queues for the listed prefabs agree. */
  lemma {:induction false} SumAgrees(m1: Queues, m2: Queues, keys: seq<Component>)
    requires forall i :: 0 <= i < |keys| ==> QueueOf(m1, keys[i]) == QueueOf(m2, keys[i])
    ensures SumInOrder(m1, keys) == SumInOrder(m2, keys)
  {
    if keys != [] {
      SumAgrees(m1, m2, keys[..|keys| - 1]);
    }
  }

  /** A listing of the prefabs, each once, in any order. */
  ghost predicate Enumerates(m: Queues, keys: seq<Component>)
  {
    (forall i, j :: 0 <= i < j < |keys| ==> keys[i] != keys[j]) &&
    m.Keys == set k | k in keys
  }

  /** Whatever order the dictionary enumerates its prefabs in, the sum is the total. */
  lemma {:induction false} SumIsTotal(m: Queues, keys: seq<Component>)
    requires Enumerates(m, keys)
    ensures SumInOrder(m, keys) == Total(m)
  {
    if keys == [] {
      assert m.Keys == {};
    } else {
      var k := keys[|keys| - 1];
      var rest := keys[..|keys| - 1];
      assert k in m;
      forall i | 0 <= i < |rest|
        ensures QueueOf(m, rest[i]) == QueueOf(m - {k}, rest[i])
      {
        assert rest[i] == keys[i];
      }
      SumAgrees(m, m - {k}, rest);
      assert Enumerates(m - {k}, rest) by {
        forall x
          ensures x in m - {k} <==> x in rest
        {
          if x in m - {k} {
            var i :| 0 <= i < |keys| && keys[i] == x;
            assert i != |keys| - 1;
            assert rest[i] == x;
          }
        }
      }
      SumIsTotal(m - {k}, rest);
      TotalRemove(m, k);
    }
  }

  class GenericObjectPool {
    var available: Queues
    var prefabOf: map<Component, Component>
    var active: set<Component>

    /** Every queued object was made from the prefab whose queue holds it, is not handed
        out, and is queued once. */
    ghost predicate Valid()
      reads this
    {
      (forall p, i :: p in available && 0 <= i < |available[p]| ==>
         available[p][i] in prefabOf && prefabOf[available[p][i]] == p && available[p][i] !in active) &&
      (forall p, i, j :: p in available && 0 <= i < j < |available[p]| ==> available[p][i] != available[p][j])
    }

    constructor ()
      ensures Valid() && available == map[] && prefabOf == map[] && active == {}
    {
      available := map[];
      prefabOf := map[];
      active := {};
    }

    /** `AvailableCount`: the queue lengths summed over the dictionary's values, which
        `keys` lists in its enumeration order; the result is the number of queued
        objects. */
    method AvailableCount(keys: seq<Component>) returns (count: int)
      requires Enumerates(available, keys)
      ensures count == Total(available)
    {
      count := 0;
      var i := 0;
      while i < |keys|
        invariant 0 <= i <= |keys|
        invariant count == SumInOrder(available, keys[..i])
      {
        assert keys[..i + 1][..i] == keys[..i];
        count := count + |QueueOf(available, keys[i])|;
        i := i + 1;
      }
      assert keys[..i] == keys;
      SumIsTotal(available, keys);
    }

    /** `ActiveCount`. */
    function ActiveCount(): nat
      reads this
    {
      |active|
    }

    /** `Get(prefab)`: the object that has waited longest in the prefab's queue when
        there is one, otherwise a new instance remembered as made from the prefab; either
        way it joins the handed-out set, which had not held it. */
    method Get(prefab: Component) returns (instance: Component)
      requires Valid()
      modifies this
      ensures Valid()
      ensures instance !in old(active) && active == old(active) + {instance}
      ensures old(|QueueOf(available, prefab)|) > 0 ==>
                instance == old(available[prefab][0]) &&
                available == old(available)[prefab := old(available[prefab][1..])] &&
                prefabOf == old(prefabOf) && Total(available) == old(Total(available)) - 1
      ensures old(|QueueOf(available, prefab)|) == 0 ==>
                fresh(instance) && available == old(available)[prefab := []] &&
                prefabOf == old(prefabOf)[instance := prefab] && Total(available) == old(Total(available))
    {
      TotalUpdate(available, prefab, []);
      if prefab !in available {
        available := available[prefab := []];
      }
      var prefabPool := available[prefab];
      if |prefabPool| > 0 {
        instance := prefabPool[0];
        assert instance == old(available[prefab][0]);
        TotalUpdate(old(available), prefab, prefabPool[1..]);
        available := available[prefab := prefabPool[1..]];
        forall p, i | p in available && 0 <= i < |available[p]|
          ensures available[p][i] != instance
        {
          if p == prefab {
            assert available[p][i] == prefabPool[i + 1];
          }
        }
      } else {
        instance := new Component();
        prefabOf := prefabOf[instance := prefab];
      }
      active := active + {instance};
    }

    /** `Return(item)`: nothing for null or for an object not handed out; otherwise the
        object leaves the handed-out set and, when the pool made it, joins the back of its
        prefab's queue. */
    method Return(item: Component?)
      requires Valid()
      modifies this
      ensures Valid()
      ensures item == null || item !in old(active) ==>
                active == old(active) && available == old(available) && prefabOf == old(prefabOf)
      ensures item != null && item in old(active) ==>
                active == old(active) - {item} && prefabOf == old(prefabOf)
      ensures item != null && item in old(active) && item in prefabOf ==>
                available == old(available)[prefabOf[item] := old(QueueOf(available, prefabOf[item])) + [item]] &&
                Total(available) == old(Total(available)) + 1
      ensures item != null && item in old(active) && item !in prefabOf ==> available == old(available)
    {
      if item == null {
        return;
      }
      if item !in active {
        return;
      }
      active := active - {item};
      if item in prefabOf {
        var prefab := prefabOf[item];
        var q := QueueOf(available, prefab);
        TotalUpdate(available, prefab, q + [item]);
        available := available[prefab := q + [item]];
      }
    }

    /** `Clear()`: every queue, the handed-out set and the prefab map emptied. */
    method Clear()
      modifies this
      ensures Valid() && available == map[] && prefabOf == map[] && active == {}
    {
      available := map[];
      active := {};
      prefabOf := map[];
    }
  }
}
