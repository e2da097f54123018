/**
 * A keyed registry of callback lists (Shared/Scripts/SparseEventMap.cs).
 * Callbacks are opaque identities; triggering a key returns the trace of
 * the invocations it made, so that order and "nothing fired" can be stated.
 */
module SparseEvents {
  import opened Lists

  /** A subscriber, known only by its identity (delegate equality in the source). */
  datatype Callback = Callback(id: nat)

  /** One invocation of a callback with its argument. */
  datatype Fired<P> = Fired(callback: Callback, payload: P)

  /** The invocations made by calling each of `cbs`, in order, with the same `p`. */
  function Fan<P>(cbs: seq<Callback>, p: P): (r: seq<Fired<P>>)
    ensures |r| == |cbs|
    ensures forall i :: 0 <= i < |cbs| ==> r[i] == Fired(cbs[i], p)
  {
    seq(|cbs|, i requires 0 <= i < |cbs| => Fired(cbs[i], p))
  }

  lemma FanAppend<P>(a: seq<Callback>, b: seq<Callback>, p: P)
    ensures Fan(a + b, p) == Fan(a, p) + Fan(b, p)
  {
  }

  /** The registry invariant: no key is mapped to an empty list. */
  ghost predicate NoEmptyLists<K>(m: map<K, seq<Callback>>)
  {
    forall k :: k in m ==> m[k] != []
  }

  /** The callbacks registered under `k`; an absent key has none. */
  function Lookup<K>(m: map<K, seq<Callback>>, k: K): seq<Callback>
  {
    if k in m then m[k] else []
  }

  /** The registry after registering `cb` under `k`. */
  function Register<K>(m: map<K, seq<Callback>>, k: K, cb: Callback): (r: map<K, seq<Callback>>)
    ensures r.Keys == m.Keys + {k}
    ensures Lookup(r, k) == Lookup(m, k) + [cb]
    ensures forall k' :: k' in m && k' != k ==> r[k'] == m[k']
  {
    m[k := Lookup(m, k) + [cb]]
  }

  /** The registry and the result of removing `cb` from `k`'s list. */
  function Unregister<K>(m: map<K, seq<Callback>>, k: K, cb: Callback): (r: (map<K, seq<Callback>>, bool))
    ensures r.1 <==> cb in Lookup(m, k)
    ensures !r.1 ==> r.0 == m
    ensures r.0.Keys <= m.Keys
    ensures forall k' :: k' in m && k' != k ==> k' in r.0 && r.0[k'] == m[k']
    ensures r.1 ==> Lookup(r.0, k) == RemoveFirst(m[k], cb)
  {
    if k !in m || cb !in m[k] then (m, false)
    else
      var rest := RemoveFirst(m[k], cb);
      (if rest == [] then m - {k} else m[k := rest], true)
  }

  lemma RegisterKeepsInvariant<K>(m: map<K, seq<Callback>>, k: K, cb: Callback)
    requires NoEmptyLists(m)
    ensures NoEmptyLists(Register(m, k, cb))
  {
  }

  lemma UnregisterKeepsInvariant<K>(m: map<K, seq<Callback>>, k: K, cb: Callback)
    requires NoEmptyLists(m)
    ensures NoEmptyLists(Unregister(m, k, cb).0)
  {
  }

  /**
   * Removal fails exactly when the key is absent or the callback is not in its
   * list, and then nothing changes; on success only `k`'s list changes, by
   * losing one copy of `cb`.
   */
  lemma UnregisterEffect<K>(m: map<K, seq<Callback>>, k: K, cb: Callback)
    requires NoEmptyLists(m)
    ensures Unregister(m, k, cb).1 <==> cb in Lookup(m, k)
    ensures !Unregister(m, k, cb).1 ==> Unregister(m, k, cb).0 == m
    ensures Unregister(m, k, cb).1 ==>
      Lookup(Unregister(m, k, cb).0, k) == RemoveFirst(Lookup(m, k), cb)
    ensures forall k' :: k' != k ==> Lookup(Unregister(m, k, cb).0, k') == Lookup(m, k')
  {
  }

  /**
   * Register followed by remove of the same pair restores the registry,
   * including the absence of `k`, when `cb` was not already under `k`.
   */
  lemma RegisterThenUnregister<K>(m: map<K, seq<Callback>>, k: K, cb: Callback)
    requires NoEmptyLists(m)
    requires cb !in Lookup(m, k)
    ensures Unregister(Register(m, k, cb), k, cb) == (m, true)
  {
    var s := Lookup(m, k);
    var reg := Register(m, k, cb);
    var back := if s == [] then reg - {k} else reg[k := s];
    assert back == m by {
      if s == [] {
        assert k !in m;
      } else {
        assert m[k] == s;
      }
    }
    assert Unregister(reg, k, cb) == (back, true) by {
      assert reg[k] == s + [cb];
      RemoveFirstOfAppended(s, cb);
    }
  }

  /**
   * When `cb` was already under `k`, register-then-remove deletes the EARLIER
   * copy: the same callbacks remain, but not necessarily in the same order.
   */
  lemma RegisterThenUnregisterKeepsMultiset<K>(m: map<K, seq<Callback>>, k: K, cb: Callback)
    requires NoEmptyLists(m)
    ensures Unregister(Register(m, k, cb), k, cb).1
    ensures forall k' :: multiset(Lookup(Unregister(Register(m, k, cb), k, cb).0, k')) == multiset(Lookup(m, k'))
  {
    var reg := Register(m, k, cb);
    RegisterKeepsInvariant(m, k, cb);
    UnregisterEffect(reg, k, cb);
    RemoveFirstMultiset(Lookup(reg, k), cb);
  }

  /**
   * When `a` already precedes `b` under `k`, registering `a` again and then
   * removing it leaves `[b, a]`: the earlier copy goes, so the order changes.
   */
  lemma RegisterThenUnregisterReorders<K>(k: K, a: Callback, b: Callback)
    requires a != b
    ensures Unregister(Register(map[k := [a, b]], k, a), k, a).0 == map[k := [b, a]]
  {
    var reg := Register(map[k := [a, b]], k, a);
    var s := [a, b, a];
    assert reg == map[k := s] by {
      assert [a, b] + [a] == s;
    }
    assert RemoveFirst(s, a) == [b, a] by {
      assert s[1..] == [b, a];
    }
  }

  /**
   * Registering appends one firing at the end of what the key fires; registering
   * the same callback twice makes it fire twice.
   */
  lemma {:induction false} RegisterFiresLast<K, P>(m: map<K, seq<Callback>>, k: K, cb: Callback, p: P)
    ensures Fan(Lookup(Register(m, k, cb), k), p) == Fan(Lookup(m, k), p) + [Fired(cb, p)]
    ensures var twice := Register(Register(m, k, cb), k, cb);
            Fan(Lookup(twice, k), p) == Fan(Lookup(m, k), p) + [Fired(cb, p), Fired(cb, p)]
  {
    FanAppend(Lookup(m, k), [cb], p);
    FanAppend(Lookup(m, k), [cb, cb], p);
    assert Lookup(Register(Register(m, k, cb), k, cb), k) == Lookup(m, k) + [cb, cb];
  }

  /** The source's `SparseEventMap<TKey, TCallback>`. */
  class SparseEventMap<K(==), P> {
    var callbacks: map<K, seq<Callback>>

    ghost predicate Valid()
      reads this
    {
      NoEmptyLists(callbacks)
    }

    constructor ()
      ensures Valid() && callbacks == map[]
    {
      callbacks := map[];
    }

    method RegisterCallback(key: K, callback: Callback)
      requires Valid()
      modifies this
      ensures Valid()
      ensures callbacks == Register(old(callbacks), key, callback)
    {
      if key in callbacks {
        callbacks := callbacks[key := callbacks[key] + [callback]];
      } else {
        assert Lookup(callbacks, key) + [callback] == [callback];
        callbacks := callbacks[key := [callback]];
      }
    }

    /**
     * Calls every callback of `key` once, in registration order, with the same
     * argument; an absent key calls nothing. Nothing in the registry changes.
     */
    method TriggerEvent(key: K, argument: P) returns (fired: seq<Fired<P>>)
      ensures fired == Fan(Lookup(callbacks, key), argument)
      ensures key !in callbacks ==> fired == []
    {
      fired := [];
      if key !in callbacks {
        return;
      }
      var list := callbacks[key];
      for i := 0 to |list|
        invariant fired == Fan(list[..i], argument)
      {
        assert list[..i + 1] == list[..i] + [list[i]];
        FanAppend(list[..i], [list[i]], argument);
        fired := fired + [Fired(list[i], argument)];
      }
      assert list[..|list|] == list;
    }

    method RemoveCallback(key: K, callback: Callback) returns (removed: bool)
      requires Valid()
      modifies this
      ensures Valid()
      ensures (callbacks, removed) == Unregister(old(callbacks), key, callback)
    {
      if key !in callbacks {
        return false;
      }
      var callables := callbacks[key];
      if callback !in callables {
        return false;
      }
      callables := RemoveFirst(callables, callback);
      if callables == [] {
        callbacks := callbacks - {key};
      } else {
        callbacks := callbacks[key := callables];
      }
      return true;
    }

    /** The keys that currently have at least one callback. */
    function GetMappedEvents(): (keys: set<K>)
      requires Valid()
      reads this
      ensures keys <= callbacks.Keys
      ensures forall k :: k in callbacks ==> (k in keys <==> callbacks[k] != [])
    {
      callbacks.Keys
    }
  }
}
