/**
 * One logical input device (Game/Input/InputDevice.cs): a cache of the last
 * raw value of every physical input it has seen, and three registries of
 * callbacks keyed by action, for pressed, released and changed events.
 */
module InputDevices {
  import opened SparseEvents
  import opened InputTypes
  import opened InputAccumulators
  import opened InputActions

  /** The cached value of `input`, 0 for an input never seen (`GetValueOrDefault`). */
  function ValueOrZero(values: map<InputVariant, real>, input: InputVariant): real
  {
    if input in values then values[input] else 0.0
  }

  /** The sum over `accs` of each accumulator's mapping of its cached value. */
  function SumContributions(accs: seq<InputAccumulator>, values: map<InputVariant, real>): (r: real)
    ensures (forall i :: 0 <= i < |accs| ==> -1.0 <= ValueOrZero(values, accs[i].input) <= 1.0) ==>
              -(|accs| as real) <= r <= |accs| as real
  {
    if accs == [] then 0.0
    else Map(accs[0], ValueOrZero(values, accs[0].input)) + SumContributions(accs[1..], values)
  }

  /** The sum splits over concatenated accumulator lists (order does not matter to it). */
  lemma {:induction false} SumAppend(a: seq<InputAccumulator>, b: seq<InputAccumulator>, values: map<InputVariant, real>)
    ensures SumContributions(a + b, values) == SumContributions(a, values) + SumContributions(b, values)
  {
    if a == [] {
      assert a + b == b;
    } else {
      assert (a + b)[0] == a[0] && (a + b)[1..] == a[1..] + b;
      SumAppend(a[1..], b, values);
    }
  }

  /** An action none of whose inputs has been seen accumulates to 0 (so does one with no accumulators). */
  lemma {:induction false} SumOfUnseenIsZero(accs: seq<InputAccumulator>, values: map<InputVariant, real>)
    requires forall i :: 0 <= i < |accs| ==> accs[i].input !in values
    ensures SumContributions(accs, values) == 0.0
  {
    if accs != [] {
      SumOfUnseenIsZero(accs[1..], values);
    }
  }

  /**
   * Overwriting the cached value of an input that no accumulator reads leaves
   * the sum unchanged: the action value depends only on its own inputs.
   */
  lemma {:induction false} SumIgnoresOtherInputs(accs: seq<InputAccumulator>, values: map<InputVariant, real>, input: InputVariant, v: real)
    requires forall i :: 0 <= i < |accs| ==> accs[i].input != input
    ensures SumContributions(accs, values[input := v]) == SumContributions(accs, values)
  {
    if accs != [] {
      SumIgnoresOtherInputs(accs[1..], values, input, v);
    }
  }

  /**
   * A two-way action made of one Positive and one Negative accumulator is the
   * positive input's value minus the negative input's value; for digital inputs
   * (values 0 or 1) it lies in {-1, 0, 1}.
   */
  lemma TwoWayAction(pos: InputVariant, neg: InputVariant, values: map<InputVariant, real>)
    requires pos != neg
    ensures var accs := [InputAccumulator(pos, Positive), InputAccumulator(neg, Negative)];
            SumContributions(accs, values) == ValueOrZero(values, pos) - ValueOrZero(values, neg)
    ensures var accs := [InputAccumulator(pos, Positive), InputAccumulator(neg, Negative)];
            (ValueOrZero(values, pos) == 0.0 || ValueOrZero(values, pos) == 1.0) &&
            (ValueOrZero(values, neg) == 0.0 || ValueOrZero(values, neg) == 1.0) ==>
            SumContributions(accs, values) in {-1.0, 0.0, 1.0}
  {
    var accs := [InputAccumulator(pos, Positive), InputAccumulator(neg, Negative)];
    assert accs[1..] == [InputAccumulator(neg, Negative)] && accs[1..][1..] == [];
    assert SumContributions(accs[1..], values) == -ValueOrZero(values, neg);
  }

  class InputDevice {
    var deviceValues: map<InputVariant, real>
    const keyPressedEventMap: SparseEventMap<InputAction, real>
    const keyReleasedEventMap: SparseEventMap<InputAction, real>
    const keyChangedEventMap: SparseEventMap<InputAction, real>

    ghost predicate Valid()
      reads this, keyPressedEventMap, keyReleasedEventMap, keyChangedEventMap
    {
      && keyPressedEventMap != keyReleasedEventMap
      && keyPressedEventMap != keyChangedEventMap
      && keyReleasedEventMap != keyChangedEventMap
      && keyPressedEventMap.Valid() && keyReleasedEventMap.Valid() && keyChangedEventMap.Valid()
    }

    constructor ()
      ensures Valid() && deviceValues == map[]
      ensures fresh(keyPressedEventMap) && fresh(keyReleasedEventMap) && fresh(keyChangedEventMap)
      ensures keyPressedEventMap.callbacks == keyReleasedEventMap.callbacks == keyChangedEventMap.callbacks == map[]
    {
      deviceValues := map[];
      keyPressedEventMap := new SparseEventMap();
      keyReleasedEventMap := new SparseEventMap();
      keyChangedEventMap := new SparseEventMap();
    }

    /** The registry an event type selects; None selects none (null). */
    function GetMapForKeyType(t: InputEventType): (m: SparseEventMap?<InputAction, real>)
      reads this
      ensures m == null <==> t == InputEventType.None
    {
      match t
      case Pressed => keyPressedEventMap
      case Released => keyReleasedEventMap
      case Changed => keyChangedEventMap
      case None => null
    }

    /** The callbacks of `action` in the registry `t` selects; None selects nothing. */
    function Subscribers(t: InputEventType, action: InputAction): seq<Callback>
      reads this, keyPressedEventMap, keyReleasedEventMap, keyChangedEventMap
    {
      var m := GetMapForKeyType(t);
      if m == null then [] else Lookup(m.callbacks, action)
    }

    /** The action's value: the sum of its accumulators over this device's cache. */
    function Accumulate(action: InputAction): (r: real)
      reads this, action
      ensures (forall x :: x in deviceValues ==> -1.0 <= deviceValues[x] <= 1.0) ==>
                -(|action.accumulators| as real) <= r <= |action.accumulators| as real
    {
      SumContributions(action.accumulators, deviceValues)
    }

    /**
     * Subscribes `callback` to `action` in the registry selected by `t`. The
     * source dereferences the selected registry, so None throws there.
     */
    method RegisterCallback(action: InputAction, t: InputEventType, callback: Callback)
      requires Valid() && t != InputEventType.None
      modifies GetMapForKeyType(t)
      ensures Valid()
      ensures GetMapForKeyType(t).callbacks == Register(old(GetMapForKeyType(t).callbacks), action, callback)
    {
      var registry := GetMapForKeyType(t);
      registry.RegisterCallback(action, callback);
    }

    /** The owner-exit hook installed by `RegisterCallback`: the same pair leaves the same registry. */
    method OwnerExited(action: InputAction, t: InputEventType, callback: Callback) returns (removed: bool)
      requires Valid() && t != InputEventType.None
      modifies GetMapForKeyType(t)
      ensures Valid()
      ensures (GetMapForKeyType(t).callbacks, removed) == Unregister(old(GetMapForKeyType(t).callbacks), action, callback)
    {
      var registry := GetMapForKeyType(t);
      removed := registry.RemoveCallback(action, callback);
    }

    /**
     * Caches `strength` for `input` (and nothing else), then fires, with the
     * action's new accumulated value: the Changed callbacks first if `t` is an
     * edge, then the callbacks of `t`'s own registry (none for None).
     */
    method HandleInput(input: InputVariant, t: InputEventType, action: InputAction, strength: real)
      returns (fired: seq<Fired<real>>)
      requires Valid()
      modifies this
      ensures Valid()
      ensures deviceValues == old(deviceValues)[input := strength]
      ensures fired == (if IsEdge(t) then Fan(Subscribers(Changed, action), Accumulate(action)) else [])
                       + Fan(Subscribers(t, action), Accumulate(action))
    {
      deviceValues := deviceValues[input := strength];
      var newStrength := Accumulate(action);
      fired := [];
      if t == Pressed || t == Released {
        fired := keyChangedEventMap.TriggerEvent(action, newStrength);
      }
      var registry := GetMapForKeyType(t);
      if registry != null {
        var more := registry.TriggerEvent(action, newStrength);
        fired := fired + more;
      }
    }
  }

  /**
   * What an event of type `t` fires on a device whose changed and own registries
   * hold `changedSubs` and `ownSubs` for the action: Changed alone fires its
   * registry exactly once, an edge fires Changed then its own, None fires nothing;
   * every payload is the accumulated value `v`.
   */
  lemma DispatchShapes(t: InputEventType, changedSubs: seq<Callback>, ownSubs: seq<Callback>, v: real)
    requires t == Changed ==> ownSubs == changedSubs
    requires t == InputEventType.None ==> ownSubs == []
    ensures var fired := (if IsEdge(t) then Fan(changedSubs, v) else []) + Fan(ownSubs, v);
            && (t == InputEventType.None ==> fired == [])
            && (t == Changed ==> fired == Fan(changedSubs, v))
            && (IsEdge(t) ==> fired[..|changedSubs|] == Fan(changedSubs, v) && fired[|changedSubs|..] == Fan(ownSubs, v))
            && (forall i :: 0 <= i < |fired| ==> fired[i].payload == v)
  {
  }
}
