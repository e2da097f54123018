/**
 * One status effect's stack on a character (Game/Effects/StatusEntry.cs): a
 * base value plus a list of applied instances, folded into a single value by
 * the effect's accumulator kind.
 *
 * `StatusEffect` and `StatusEffectInstance` are resources defined elsewhere;
 * here an effect is an identity with its accumulator kind, and an instance an
 * identity with its (possibly null) effect and its strength.
 */
module StatusEntries {
  import opened Lists
  import opened SparseEvents
  import W = Wrappers

  datatype EffectAccumulator = None | BaseValueOnly | Additive | Maximum | Minimum | Multiplicative

  datatype StatusEffect = StatusEffect(id: nat, accumulator: EffectAccumulator)

  datatype StatusEffectInstance = StatusEffectInstance(id: nat, effect: W.Option<StatusEffect>, strength: real)

  /** The state of an entry as a value: its instances in order and its base value. */
  datatype EntryState = EntryState(instances: seq<StatusEffectInstance>, baseValue: real)

  /** `HasExpired`: no base value and no instances left. */
  predicate Expired(s: EntryState)
  {
    s.baseValue == 0.0 && |s.instances| == 0
  }

  function Max(a: real, b: real): real
  {
    if a >= b then a else b
  }

  function Min(a: real, b: real): real
  {
    if a <= b then a else b
  }

  /** The sum of the strengths, folded from the left. */
  function SumStrengths(s: seq<StatusEffectInstance>): real
  {
    if s == [] then 0.0 else SumStrengths(s[..|s| - 1]) + s[|s| - 1].strength
  }

  /** The product of the strengths, folded from the left starting at 1 (`Aggregate(1.0f, ...)`). */
  function ProductStrengths(s: seq<StatusEffectInstance>): real
  {
    if s == [] then 1.0 else ProductStrengths(s[..|s| - 1]) * s[|s| - 1].strength
  }

  /** The largest strength of a non-empty list. */
  function MaxStrength(s: seq<StatusEffectInstance>): real
    requires s != []
  {
    if |s| == 1 then s[0].strength else Max(MaxStrength(s[..|s| - 1]), s[|s| - 1].strength)
  }

  /** The smallest strength of a non-empty list. */
  function MinStrength(s: seq<StatusEffectInstance>): real
    requires s != []
  {
    if |s| == 1 then s[0].strength else Min(MinStrength(s[..|s| - 1]), s[|s| - 1].strength)
  }

  /** `MaxStrength` is an upper bound of the strengths that is attained. */
  lemma {:induction false} MaxStrengthIsMaximum(s: seq<StatusEffectInstance>)
    requires s != []
    ensures forall i :: 0 <= i < |s| ==> s[i].strength <= MaxStrength(s)
    ensures exists i :: 0 <= i < |s| && s[i].strength == MaxStrength(s)
  {
    if |s| > 1 {
      var n := |s| - 1;
      MaxStrengthIsMaximum(s[..n]);
      assert forall i :: 0 <= i < n ==> s[..n][i] == s[i];
      var j :| 0 <= j < n && s[..n][j].strength == MaxStrength(s[..n]);
      assert MaxStrength(s) == Max(MaxStrength(s[..n]), s[n].strength);
      if MaxStrength(s) == s[n].strength {
        assert s[n].strength == MaxStrength(s);
      } else {
        assert s[j].strength == MaxStrength(s);
      }
    } else {
      assert s[0].strength == MaxStrength(s);
    }
  }

  /** `MinStrength` is a lower bound of the strengths that is attained. */
  lemma {:induction false} MinStrengthIsMinimum(s: seq<StatusEffectInstance>)
    requires s != []
    ensures forall i :: 0 <= i < |s| ==> MinStrength(s) <= s[i].strength
    ensures exists i :: 0 <= i < |s| && s[i].strength == MinStrength(s)
  {
    if |s| > 1 {
      var n := |s| - 1;
      MinStrengthIsMinimum(s[..n]);
      assert forall i :: 0 <= i < n ==> s[..n][i] == s[i];
      var j :| 0 <= j < n && s[..n][j].strength == MinStrength(s[..n]);
      assert MinStrength(s) == Min(MinStrength(s[..n]), s[n].strength);
      if MinStrength(s) == s[n].strength {
        assert s[n].strength == MinStrength(s);
      } else {
        assert s[j].strength == MinStrength(s);
      }
    } else {
      assert s[0].strength == MinStrength(s);
    }
  }

  /** `Accumulate`: with no instances the base value, whatever the kind; otherwise the kind's fold. */
  function AccumulateValue(kind: EffectAccumulator, baseValue: real, s: seq<StatusEffectInstance>): (r: real)
    ensures s == [] ==> r == baseValue
    ensures s != [] && kind == None ==> r == 0.0
    ensures s != [] && kind == BaseValueOnly ==> r == baseValue
    ensures s != [] && kind == Maximum ==> r >= baseValue
    ensures s != [] && kind == Minimum ==> r <= baseValue
  {
    if s == [] then baseValue
    else
      match kind
      case None => 0.0
      case BaseValueOnly => baseValue
      case Additive => baseValue + SumStrengths(s)
      case Maximum => Max(baseValue, MaxStrength(s))
      case Minimum => Min(baseValue, MinStrength(s))
      case Multiplicative => baseValue * ProductStrengths(s)
  }

  /** The value of an entry of `effect` in state `s`. */
  function Value(effect: StatusEffect, s: EntryState): real
  {
    AccumulateValue(effect.accumulator, s.baseValue, s.instances)
  }

  /** How one more instance of strength `x` combines into an accumulated value. */
  function Combine(kind: EffectAccumulator, acc: real, x: real): real
  {
    match kind
    case Additive => acc + x
    case Maximum => Max(acc, x)
    case Minimum => Min(acc, x)
    case Multiplicative => acc * x
    case _ => acc
  }

  /** Every kind gives the base value for an empty stack, None included. */
  lemma EmptyStackIsBaseValue(kind: EffectAccumulator, baseValue: real)
    ensures AccumulateValue(kind, baseValue, []) == baseValue
  {
  }

  /**
   * With instances: None gives 0, BaseValueOnly the base, Maximum is at least
   * the base and every strength and equals one of them, Minimum dually.
   */
  lemma NonEmptyStackValues(baseValue: real, s: seq<StatusEffectInstance>)
    requires s != []
    ensures AccumulateValue(None, baseValue, s) == 0.0
    ensures AccumulateValue(BaseValueOnly, baseValue, s) == baseValue
    ensures var m := AccumulateValue(Maximum, baseValue, s);
            m >= baseValue && (forall i :: 0 <= i < |s| ==> m >= s[i].strength) &&
            (m == baseValue || exists i :: 0 <= i < |s| && m == s[i].strength)
    ensures var m := AccumulateValue(Minimum, baseValue, s);
            m <= baseValue && (forall i :: 0 <= i < |s| ==> m <= s[i].strength) &&
            (m == baseValue || exists i :: 0 <= i < |s| && m == s[i].strength)
  {
    MaxStrengthIsMaximum(s);
    MinStrengthIsMinimum(s);
  }

  /**
   * For the four folding kinds, stacking one more instance combines its strength
   * into the previous value, starting from the base value on an empty stack.
   */
  lemma StackingCombines(kind: EffectAccumulator, baseValue: real, s: seq<StatusEffectInstance>, x: StatusEffectInstance)
    requires kind in {Additive, Maximum, Minimum, Multiplicative}
    ensures AccumulateValue(kind, baseValue, s + [x]) == Combine(kind, AccumulateValue(kind, baseValue, s), x.strength)
  {
    var t := s + [x];
    assert t[..|t| - 1] == s;
    if s == [] {
      assert t == [x] && t[..0] == [];
      match kind
      case Additive =>
        assert SumStrengths(t) == x.strength;
      case Multiplicative =>
        assert ProductStrengths(t) == x.strength;
      case Maximum =>
      case Minimum =>
    } else {
      match kind
      case Additive =>
      case Multiplicative =>
      case Maximum =>
      case Minimum =>
    }
  }

  /** An Additive stack is the base plus the strengths: instances of strength 0 change nothing. */
  lemma {:induction false} ZeroStrengthsAddNothing(s: seq<StatusEffectInstance>)
    requires forall i :: 0 <= i < |s| ==> s[i].strength == 0.0
    ensures SumStrengths(s) == 0.0
  {
    if s != [] {
      assert forall i :: 0 <= i < |s| - 1 ==> s[..|s| - 1][i] == s[i];
      ZeroStrengthsAddNothing(s[..|s| - 1]);
    }
  }

  /** The instances the expiry check keeps, in their original order (`RemoveAll`'s survivors). */
  function Survivors(s: seq<StatusEffectInstance>, expired: StatusEffectInstance -> bool): (r: seq<StatusEffectInstance>)
    ensures |r| <= |s|
  {
    if s == [] then []
    else
      var n := |s| - 1;
      var prefix := Survivors(s[..n], expired);
      if expired(s[n]) then prefix else prefix + [s[n]]
  }

  /** The survivors are exactly the unexpired instances. */
  lemma {:induction false} SurvivorsAreUnexpired(s: seq<StatusEffectInstance>, expired: StatusEffectInstance -> bool)
    ensures forall x :: x in Survivors(s, expired) <==> x in s && !expired(x)
  {
    if s != [] {
      var n := |s| - 1;
      SurvivorsAreUnexpired(s[..n], expired);
      assert s == s[..n] + [s[n]];
    }
  }

  /** How many instances the expiry check drops. */
  function CountExpired(s: seq<StatusEffectInstance>, expired: StatusEffectInstance -> bool): (n: nat)
    ensures n == |s| - |Survivors(s, expired)|
  {
    if s == [] then 0
    else
      var rest := CountExpired(s[..|s| - 1], expired);
      if expired(s[|s| - 1]) then rest + 1 else rest
  }

  /** Nothing is dropped, and the list is unchanged, exactly when no instance is expired. */
  lemma {:induction false} NothingExpiredKeepsAll(s: seq<StatusEffectInstance>, expired: StatusEffectInstance -> bool)
    ensures CountExpired(s, expired) == 0 <==> forall i :: 0 <= i < |s| ==> !expired(s[i])
    ensures CountExpired(s, expired) == 0 <==> Survivors(s, expired) == s
  {
    if s != [] {
      var n := |s| - 1;
      NothingExpiredKeepsAll(s[..n], expired);
      assert forall i :: 0 <= i < n ==> s[..n][i] == s[i];
      assert s[..n] + [s[n]] == s;
    }
  }

  class StatusEntry {
    var instances: seq<StatusEffectInstance>
    var baseValue: real
    /** Set at construction; the container keys each entry by this effect. */
    const statusEffect: StatusEffect

    constructor (effect: StatusEffect, baseValue: real)
      ensures statusEffect == effect && this.baseValue == baseValue && instances == []
    {
      statusEffect := effect;
      this.baseValue := baseValue;
      instances := [];
    }

    function State(): EntryState
      reads this
    {
      EntryState(instances, baseValue)
    }

    /** `HasExpired`. */
    predicate HasExpired(): (r: bool)
      reads this
      ensures r <==> instances == [] && baseValue == 0.0
      ensures r ==> Value(statusEffect, State()) == 0.0
    {
      Expired(State())
    }

    /** `count`. */
    function Count(): (n: nat)
      reads this
      ensures n == |State().instances|
      ensures n == 0 <==> instances == []
    {
      |instances|
    }

    /** `Accumulate`: the entry's value under its effect's accumulator kind. */
    function Accumulate(): (r: real)
      reads this
      ensures instances == [] ==> r == baseValue
      ensures instances != [] && statusEffect.accumulator == None ==> r == 0.0
      ensures instances != [] && statusEffect.accumulator == Maximum ==> r >= baseValue
      ensures instances != [] && statusEffect.accumulator == Minimum ==> r <= baseValue
    {
      Value(statusEffect, State())
    }

    /** Appends the instance: the count grows by one and the base value is kept. */
    method Add(instance: StatusEffectInstance)
      modifies this
      ensures instances == old(instances) + [instance]
      ensures Count() == old(Count()) + 1 && baseValue == old(baseValue)
    {
      instances := instances + [instance];
    }

    /** Deletes the first equal instance, reporting whether there was one; the base value is kept. */
    method Remove(instance: StatusEffectInstance) returns (found: bool)
      modifies this
      ensures found <==> instance in old(instances)
      ensures instances == RemoveFirst(old(instances), instance)
      ensures !found ==> instances == old(instances)
      ensures baseValue == old(baseValue)
    {
      found := instance in instances;
      instances := RemoveFirst(instances, instance);
    }

    /**
     * Drops exactly the instances the expiry check reports, keeping the others
     * in order, and returns how many it dropped. The check stands for each
     * instance's `UpdateCheckExpiration`.
     */
    method RemoveExpired(expired: StatusEffectInstance -> bool) returns (removed: nat)
      modifies this
      ensures instances == Survivors(old(instances), expired)
      ensures removed == CountExpired(old(instances), expired)
      ensures removed == |old(instances)| - |instances|
      ensures baseValue == old(baseValue)
    {
      var kept := [];
      removed := 0;
      for i := 0 to |instances|
        invariant kept == Survivors(instances[..i], expired)
        invariant removed == CountExpired(instances[..i], expired)
      {
        assert instances[..i + 1][..i] == instances[..i];
        if expired(instances[i]) {
          removed := removed + 1;
        } else {
          kept := kept + [instances[i]];
        }
      }
      assert instances[..|instances|] == instances;
      instances := kept;
    }
  }
}
