/**
 * A character's status effects (Game/Effects/StatusEffectContainer.cs): a
 * dictionary from effect to its stack entry, plus three registries notified
 * when an effect is applied, when it is removed and when its stack changes.
 *
 * Each operation is specified against a function on the value-level state
 * `Model` (effect to entry state), and returns the notifications it fired.
 */
module StatusEffectContainers {
  import opened Lists
  import opened SparseEvents
  import opened StatusEntries
  import W = Wrappers
  import opened CraterMath

  /** `SetBaseValue` ignores a new base value closer than this to the current one. */
  const BaseValueEpsilon: real := 0.001

  /** What a notification carries: nothing (applied, removed) or the stack's count and value. */
  datatype EffectPayload = NoArgs | Stacks(count: int, value: real)

  /** The three registries of the container. */
  datatype ContainerEvent = EffectApplied | EffectRemoved | StacksChanged

  type Model = map<StatusEffect, EntryState>

  /** The stacks-changed payload of an entry of `effect` in state `s`. */
  function StacksOf(effect: StatusEffect, s: EntryState): EffectPayload
  {
    Stacks(|s.instances|, Value(effect, s))
  }

  /** The state the sweep leaves an entry in: its unexpired instances, same base. */
  function SweepState(s: EntryState, expired: StatusEffectInstance -> bool): EntryState
  {
    EntryState(Survivors(s.instances, expired), s.baseValue)
  }

  /** No entry is expired. */
  ghost predicate NoneExpired(m: Model)
  {
    forall e :: e in m ==> !Expired(m[e])
  }

  /** `ApplyStatusEffectInstance` on the model: appends to the entry, creating one with base 0. */
  function ApplyModel(m: Model, instance: StatusEffectInstance): (r: Model)
    requires instance.effect.Some?
    ensures r.Keys == m.Keys + {instance.effect.value}
    ensures forall e :: e in m && e != instance.effect.value ==> r[e] == m[e]
  {
    var e := instance.effect.value;
    if e in m then m[e := EntryState(m[e].instances + [instance], m[e].baseValue)]
    else m[e := EntryState([instance], 0.0)]
  }

  /** `SetBaseValue` on the model: creates the entry if absent, ignores a change below 0.001. */
  function SetBaseModel(m: Model, effect: StatusEffect, newBaseValue: real): (r: Model)
    ensures r.Keys == m.Keys + {effect}
    ensures r[effect].instances == (if effect in m then m[effect].instances else [])
    ensures forall e :: e in m && e != effect ==> r[e] == m[e]
  {
    if effect !in m then m[effect := EntryState([], newBaseValue)]
    else if Abs(m[effect].baseValue - newBaseValue) < BaseValueEpsilon then m
    else m[effect := m[effect].(baseValue := newBaseValue)]
  }

  /**
   * `RemoveStatusEffectInstance` on the model: removes the first equal instance
   * and deletes the entry if it is then expired; unknown effects and instances
   * change nothing.
   */
  function RemoveModel(m: Model, instance: StatusEffectInstance): (r: Model)
    requires instance.effect.Some?
    ensures r.Keys <= m.Keys
    ensures forall e :: e in m && e != instance.effect.value ==> e in r && r[e] == m[e]
  {
    var e := instance.effect.value;
    if e !in m || instance !in m[e].instances then m
    else
      var s := EntryState(RemoveFirst(m[e].instances, instance), m[e].baseValue);
      if Expired(s) then m - {e} else m[e := s]
  }

  /** `Update` on the model: every entry loses its expired instances; those left expired are deleted. */
  function SweepModel(m: Model, expired: StatusEffectInstance -> bool): (r: Model)
    ensures NoneExpired(r)
  {
    map e | e in m && !Expired(SweepState(m[e], expired)) :: SweepState(m[e], expired)
  }

  /** `AddBaseValue` on the model: adds to an existing base, else sets the base as `SetBaseValue` does. */
  function AddBaseModel(m: Model, effect: StatusEffect, delta: real): (r: Model)
    ensures r.Keys == m.Keys + {effect}
    ensures r[effect].instances == (if effect in m then m[effect].instances else [])
    ensures r[effect].baseValue == (if effect in m then m[effect].baseValue + delta else delta)
    ensures forall e :: e in m && e != effect ==> r[e] == m[e]
  {
    if effect in m then m[effect := m[effect].(baseValue := m[effect].baseValue + delta)]
    else SetBaseModel(m, effect, delta)
  }

  /** `GetValue` on the model: the entry's accumulated value, 0 for an absent effect. */
  function GetValueModel(m: Model, effect: StatusEffect): (r: real)
    ensures effect !in m ==> r == 0.0
    ensures effect in m && m[effect].instances == [] ==> r == m[effect].baseValue
  {
    if effect in m then Value(effect, m[effect]) else 0.0
  }

  /** The effects of `order` the sweep deletes, in order. */
  function Doomed(order: seq<StatusEffect>, m: Model, expired: StatusEffectInstance -> bool): seq<StatusEffect>
    requires forall e :: e in order ==> e in m
  {
    if order == [] then []
    else
      var n := |order| - 1;
      var e := order[n];
      Doomed(order[..n], m, expired) + (if Expired(SweepState(m[e], expired)) then [e] else [])
  }

  /** The doomed effects are exactly those of `order` that the sweep leaves expired. */
  lemma {:induction false} DoomedMembers(order: seq<StatusEffect>, m: Model, expired: StatusEffectInstance -> bool)
    requires forall e :: e in order ==> e in m
    ensures forall e :: e in Doomed(order, m, expired) <==> e in order && Expired(SweepState(m[e], expired))
  {
    if order != [] {
      var n := |order| - 1;
      assert order == order[..n] + [order[n]];
      DoomedMembers(order[..n], m, expired);
    }
  }

  /** The model part-way through the sweep's first pass: the effects of `done` have been swept. */
  ghost function PartlySwept(m: Model, done: seq<StatusEffect>, expired: StatusEffectInstance -> bool): Model
  {
    map e | e in m :: if e in done then SweepState(m[e], expired) else m[e]
  }

  /** Sweeping one more entry of the first pass. */
  lemma PartlySweptStep(m: Model, done: seq<StatusEffect>, e: StatusEffect, expired: StatusEffectInstance -> bool)
    requires e in m && e !in done
    ensures PartlySwept(m, done + [e], expired) == PartlySwept(m, done, expired)[e := SweepState(m[e], expired)]
  {
  }

  /** No effect appears twice. */
  predicate Distinct(s: seq<StatusEffect>)
  {
    forall i, j :: 0 <= i < j < |s| ==> s[i] != s[j]
  }

  lemma DistinctAppend(s: seq<StatusEffect>, e: StatusEffect)
    requires Distinct(s) && e !in s
    ensures Distinct(s + [e])
  {
  }

  /** The stacks-changed notifications of the sweep: one fan for each entry that lost an instance. */
  function SweepNotices(order: seq<StatusEffect>, m: Model, expired: StatusEffectInstance -> bool,
                        stacks: map<StatusEffect, seq<Callback>>): seq<Fired<EffectPayload>>
    requires forall e :: e in order ==> e in m
  {
    if order == [] then []
    else
      var n := |order| - 1;
      var e := order[n];
      SweepNotices(order[..n], m, expired, stacks) +
        (if CountExpired(m[e].instances, expired) > 0 then Fan(Lookup(stacks, e), StacksOf(e, SweepState(m[e], expired))) else [])
  }

  /** Sweeping one more entry extends the notices and the doomed list by that entry's part. */
  lemma SweepStep(order: seq<StatusEffect>, e: StatusEffect, m: Model, expired: StatusEffectInstance -> bool,
                  stacks: map<StatusEffect, seq<Callback>>)
    requires forall k :: k in order ==> k in m
    requires e in m
    ensures SweepNotices(order + [e], m, expired, stacks) == SweepNotices(order, m, expired, stacks) +
              (if CountExpired(m[e].instances, expired) > 0 then Fan(Lookup(stacks, e), StacksOf(e, SweepState(m[e], expired))) else [])
    ensures Doomed(order + [e], m, expired) == Doomed(order, m, expired) + (if Expired(SweepState(m[e], expired)) then [e] else [])
  {
    assert (order + [e])[..|order|] == order;
  }

  /**
   * The two passes of the sweep make `SweepModel`: every entry swept, then the
   * doomed ones (those left expired) deleted.
   */
  lemma SweepPassesCompose(m: Model, order: seq<StatusEffect>, expired: StatusEffectInstance -> bool, r: Model)
    requires forall e :: e in order <==> e in m
    requires forall e :: e in r <==> e in m && e !in Doomed(order, m, expired)
    requires forall e :: e in r ==> r[e] == SweepState(m[e], expired)
    ensures r == SweepModel(m, expired)
  {
    DoomedMembers(order, m, expired);
  }

  /** The removed notifications for `effects`, in order. */
  function RemovedNotices(effects: seq<StatusEffect>, removed: map<StatusEffect, seq<Callback>>): seq<Fired<EffectPayload>>
  {
    if effects == [] then []
    else RemovedNotices(effects[..|effects| - 1], removed) + Fan(Lookup(removed, effects[|effects| - 1]), NoArgs)
  }

  /**
   * Applying an instance whose effect was absent, or not already holding that
   * instance, and then removing it restores the model, provided the entry was
   * not already expired (an expired entry left by `SetBaseValue(e, 0)` is
   * deleted by the removal instead).
   */
  lemma ApplyThenRemove(m: Model, instance: StatusEffectInstance)
    requires instance.effect.Some?
    requires var e := instance.effect.value; e in m ==> !Expired(m[e]) && instance !in m[e].instances
    ensures RemoveModel(ApplyModel(m, instance), instance) == m
  {
    var e := instance.effect.value;
    var a := ApplyModel(m, instance);
    if e in m {
      RemoveFirstOfAppended(m[e].instances, instance);
      assert a[e := m[e]] == m;
    } else {
      assert RemoveFirst([instance], instance) == [];
      assert a - {e} == m;
    }
  }

  /**
   * For the four folding kinds, applying an instance combines its strength into
   * the effect's previous value (an absent effect counting as base 0, no instances).
   */
  lemma ApplyCombines(m: Model, instance: StatusEffectInstance)
    requires instance.effect.Some?
    requires instance.effect.value.accumulator in {Additive, Maximum, Minimum, Multiplicative}
    ensures var e := instance.effect.value;
            var before := if e in m then m[e] else EntryState([], 0.0);
            GetValueModel(ApplyModel(m, instance), e) ==
            Combine(e.accumulator, Value(e, before), instance.strength)
  {
    var e := instance.effect.value;
    var before := if e in m then m[e] else EntryState([], 0.0);
    StackingCombines(e.accumulator, before.baseValue, before.instances, instance);
    assert before.instances + [instance] == ApplyModel(m, instance)[e].instances;
  }

  /** Applying twice stacks twice: the count grows by two and both instances are kept in order. */
  lemma ApplyTwiceStacks(m: Model, a: StatusEffectInstance, b: StatusEffectInstance)
    requires a.effect.Some? && a.effect == b.effect
    ensures var e := a.effect.value;
            var r := ApplyModel(ApplyModel(m, a), b);
            var before := if e in m then m[e].instances else [];
            r[e].instances == before + [a, b]
  {
    var e := a.effect.value;
    var before := if e in m then m[e].instances else [];
    assert before + [a] + [b] == before + [a, b];
  }

  /** Setting the same base value again changes nothing. */
  lemma SetBaseIdempotent(m: Model, effect: StatusEffect, v: real)
    ensures SetBaseModel(SetBaseModel(m, effect, v), effect, v) == SetBaseModel(m, effect, v)
  {
  }

  /**
   * `AddBaseValue` returns the effect's new value in both branches: the new
   * accumulated value of an existing entry, and `delta`, which is the value of
   * the instance-free entry created for an absent effect.
   */
  lemma AddBaseReturnsNewValue(m: Model, effect: StatusEffect, delta: real)
    ensures GetValueModel(AddBaseModel(m, effect, delta), effect) ==
            (if effect in m then Value(effect, EntryState(m[effect].instances, m[effect].baseValue + delta)) else delta)
  {
  }

  /** A sweep that finds nothing expired, over entries none of which is expired, changes nothing. */
  lemma QuietSweepKeepsModel(m: Model, expired: StatusEffectInstance -> bool)
    requires NoneExpired(m)
    requires forall e :: e in m ==> forall x :: x in m[e].instances ==> !expired(x)
    ensures SweepModel(m, expired) == m
  {
    forall e | e in m
      ensures SweepState(m[e], expired) == m[e]
    {
      NothingExpiredKeepsAll(m[e].instances, expired);
    }
  }

  class StatusEffectContainer {
    var statusEffects: map<StatusEffect, StatusEntry>
    /** The dictionary as values: each effect's entry state. */
    ghost var model: Model
    /** The entry objects (and possibly entries deleted since). */
    ghost var Repr: set<StatusEntry>
    const appliedMap: SparseEventMap<StatusEffect, EffectPayload>
    const removedMap: SparseEventMap<StatusEffect, EffectPayload>
    const stacksChangedMap: SparseEventMap<StatusEffect, EffectPayload>

    /** Every entry is the one for its own effect, so distinct effects have distinct entries. */
    ghost predicate Keyed()
      reads this
    {
      forall e :: e in statusEffects ==> statusEffects[e].statusEffect == e
    }

    /** `model` holds exactly the dictionary's effects and their entries' states. */
    ghost predicate Coupled()
      reads this, Repr
    {
      && (forall e :: e in statusEffects ==> statusEffects[e] in Repr)
      && statusEffects.Keys == model.Keys
      && forall e :: e in statusEffects ==>
           statusEffects[e].instances == model[e].instances && statusEffects[e].baseValue == model[e].baseValue
    }

    /** The three registries are distinct and each keeps no empty list. */
    ghost predicate RegistriesValid()
      reads appliedMap, removedMap, stacksChangedMap
    {
      && appliedMap != removedMap && appliedMap != stacksChangedMap && removedMap != stacksChangedMap
      && appliedMap.Valid() && removedMap.Valid() && stacksChangedMap.Valid()
    }

    /** The dictionary's invariant; the registries keep their own (`RegistriesValid`). */
    ghost predicate Valid()
      reads this, Repr
    {
      Keyed() && Coupled()
    }

    constructor ()
      ensures Valid() && RegistriesValid() && model == map[]
      ensures appliedMap.callbacks == removedMap.callbacks == stacksChangedMap.callbacks == map[]
      ensures fresh(appliedMap) && fresh(removedMap) && fresh(stacksChangedMap)
    {
      statusEffects := map[];
      model := map[];
      Repr := {};
      appliedMap := new SparseEventMap();
      removedMap := new SparseEventMap();
      stacksChangedMap := new SparseEventMap();
    }

    /** The registry of a container event. */
    function Registry(kind: ContainerEvent): SparseEventMap<StatusEffect, EffectPayload>
      reads this
    {
      match kind
      case EffectApplied => appliedMap
      case EffectRemoved => removedMap
      case StacksChanged => stacksChangedMap
    }

    /** Adds an entry for the absent `e`, with this base and no instances; nothing fires. */
    method AddEntry(e: StatusEffect, baseValue: real)
      requires Valid() && e !in statusEffects
      modifies this`statusEffects, this`model, this`Repr
      ensures statusEffects.Keys == old(statusEffects.Keys) + {e}
      ensures Valid() && fresh(statusEffects[e])
      ensures model == old(model)[e := EntryState([], baseValue)]
    {
      var entry := new StatusEntry(e, baseValue);
      statusEffects := statusEffects[e := entry];
      Repr := Repr + {entry};
      model := model[e := EntryState([], baseValue)];
    }

    /** A new entry (base 0) holding just this instance, for its absent effect; nothing fires. */
    method StartEntry(instance: StatusEffectInstance) returns (stacks: EffectPayload)
      requires Valid() && instance.effect.Some? && instance.effect.value !in statusEffects
      modifies this`statusEffects, this`model, this`Repr
      ensures Valid() && statusEffects.Keys == old(statusEffects.Keys) + {instance.effect.value}
      ensures model == ApplyModel(old(model), instance)
      ensures stacks == StacksOf(instance.effect.value, model[instance.effect.value])
    {
      var e := instance.effect.value;
      var entry := new StatusEntry(e, 0.0);
      entry.Add(instance);
      assert entry.instances == [instance];
      statusEffects := statusEffects[e := entry];
      Repr := Repr + {entry};
      model := model[e := entry.State()];
      stacks := Stacks(entry.Count(), entry.Accumulate());
    }

    /** Appends the instance to its effect's existing entry, keeping the model in step. */
    method StackOn(instance: StatusEffectInstance) returns (stacks: EffectPayload)
      requires Valid() && instance.effect.Some? && instance.effect.value in statusEffects
      modifies this`model, statusEffects[instance.effect.value]
      ensures Valid() && statusEffects == old(statusEffects)
      ensures model == ApplyModel(old(model), instance)
      ensures stacks == StacksOf(instance.effect.value, model[instance.effect.value])
    {
      var e := instance.effect.value;
      var entry := statusEffects[e];
      assert forall k :: k in statusEffects && k != e ==> statusEffects[k] != entry;
      entry.Add(instance);
      model := model[e := entry.State()];
      forall k | k in statusEffects && k != e
        ensures statusEffects[k].instances == model[k].instances && statusEffects[k].baseValue == model[k].baseValue
      {
        assert statusEffects[k] != entry;
      }
      stacks := Stacks(entry.Count(), entry.Accumulate());
    }

    /** Removes the first equal instance from `e`'s entry, if any, keeping the model in step. */
    method TakeFrom(e: StatusEffect, instance: StatusEffectInstance) returns (found: bool, stacks: EffectPayload, expiredNow: bool)
      requires Valid() && e in statusEffects
      modifies this`model, statusEffects[e]
      ensures Valid() && statusEffects == old(statusEffects)
      ensures found <==> instance in old(model)[e].instances
      ensures found ==> model == old(model)[e := EntryState(RemoveFirst(old(model)[e].instances, instance), old(model)[e].baseValue)]
      ensures !found ==> model == old(model)
      ensures stacks == StacksOf(e, model[e]) && expiredNow == Expired(model[e])
    {
      var entry := statusEffects[e];
      assert forall k :: k in statusEffects && k != e ==> statusEffects[k] != entry;
      found := entry.Remove(instance);
      if found {
        model := model[e := entry.State()];
      }
      assert entry.State() == model[e] && entry.statusEffect == e;
      forall k | k in statusEffects && k != e
        ensures statusEffects[k].instances == model[k].instances && statusEffects[k].baseValue == model[k].baseValue
      {
        assert statusEffects[k] != entry;
      }
      stacks := Stacks(entry.Count(), entry.Accumulate());
      expiredNow := entry.HasExpired();
    }

    /** Sets the base value of `e`'s entry, keeping the model in step. */
    method SetEntryBase(e: StatusEffect, baseValue: real) returns (stacks: EffectPayload)
      requires Valid() && e in statusEffects
      modifies this`model, statusEffects[e]
      ensures Valid() && statusEffects == old(statusEffects)
      ensures model == old(model)[e := old(model)[e].(baseValue := baseValue)]
      ensures stacks == StacksOf(e, model[e])
    {
      var entry := statusEffects[e];
      assert forall k :: k in statusEffects && k != e ==> statusEffects[k] != entry;
      entry.baseValue := baseValue;
      model := model[e := entry.State()];
      forall k | k in statusEffects && k != e
        ensures statusEffects[k].instances == model[k].instances && statusEffects[k].baseValue == model[k].baseValue
      {
        assert statusEffects[k] != entry;
      }
      stacks := Stacks(entry.Count(), entry.Accumulate());
    }

    /** Deletes `e`'s entry from the dictionary and the model. */
    method DropEntry(e: StatusEffect)
      requires Valid()
      modifies this`statusEffects, this`model
      ensures Valid()
      ensures statusEffects.Keys == old(statusEffects.Keys) - {e}
      ensures model == old(model) - {e}
    {
      statusEffects := statusEffects - {e};
      model := model - {e};
    }

    /**
     * An instance without an effect changes nothing. Otherwise it is appended to
     * its effect's entry; a new entry (base 0) first fires the applied
     * notifications, and then the stacks-changed ones fire with the new count
     * and value.
     */
    method ApplyStatusEffectInstance(instance: StatusEffectInstance) returns (fired: seq<Fired<EffectPayload>>)
      requires Valid()
      modifies this, Repr
      ensures Valid()
      ensures instance.effect.None? ==> model == old(model) && fired == []
      ensures instance.effect.Some? ==>
                var e := instance.effect.value;
                && model == ApplyModel(old(model), instance)
                && fired == (if e in old(model) then [] else Fan(Lookup(appliedMap.callbacks, e), NoArgs))
                            + Fan(Lookup(stacksChangedMap.callbacks, e), StacksOf(e, model[e]))
    {
      fired := [];
      if instance.effect.None? {
        return;
      }
      var e := instance.effect.value;
      var stacks;
      if e in statusEffects {
        stacks := StackOn(instance);
      } else {
        stacks := StartEntry(instance);
        fired := appliedMap.TriggerEvent(e, NoArgs);
      }
      var more := stacksChangedMap.TriggerEvent(e, stacks);
      fired := fired + more;
    }

    /**
     * An absent effect gets an entry with this base silently. An existing
     * entry whose base is within 0.001 is left alone; otherwise its base is set
     * and the stacks-changed notifications fire.
     */
    method SetBaseValue(effect: StatusEffect, newBaseValue: real) returns (fired: seq<Fired<EffectPayload>>)
      requires Valid()
      modifies this, Repr
      ensures Valid()
      ensures model == SetBaseModel(old(model), effect, newBaseValue)
      ensures fired == (if effect in old(model) && model != old(model)
                        then Fan(Lookup(stacksChangedMap.callbacks, effect), StacksOf(effect, model[effect]))
                        else [])
    {
      fired := [];
      if effect !in statusEffects {
        AddEntry(effect, newBaseValue);
      } else if Abs(statusEffects[effect].baseValue - newBaseValue) >= BaseValueEpsilon {
        var stacks := SetEntryBase(effect, newBaseValue);
        assert model[effect].baseValue != old(model)[effect].baseValue;
        fired := stacksChangedMap.TriggerEvent(effect, stacks);
      }
    }

    /**
     * An unknown effect or instance changes nothing. Otherwise the first equal
     * instance leaves the entry and the stacks-changed notifications fire; if
     * the entry is then expired it is deleted and the removed ones fire.
     * The source looks the instance's effect up as a key, so it needs one.
     */
    method RemoveStatusEffectInstance(instance: StatusEffectInstance) returns (fired: seq<Fired<EffectPayload>>)
      requires Valid() && instance.effect.Some?
      modifies this, Repr
      ensures Valid()
      ensures model == RemoveModel(old(model), instance)
      ensures var e := instance.effect.value;
              if e !in old(model) || instance !in old(model)[e].instances then fired == []
              else
                var s := EntryState(RemoveFirst(old(model)[e].instances, instance), old(model)[e].baseValue);
                fired == Fan(Lookup(stacksChangedMap.callbacks, e), StacksOf(e, s))
                         + (if Expired(s) then Fan(Lookup(removedMap.callbacks, e), NoArgs) else [])
    {
      var e := instance.effect.value;
      fired := [];
      if e in statusEffects {
        var found, stacks, expiredNow := TakeFrom(e, instance);
        if found {
          fired := stacksChangedMap.TriggerEvent(e, stacks);
          if expiredNow {
            DropEntry(e);
            assert model == old(model) - {e};
            var more := removedMap.TriggerEvent(e, NoArgs);
            fired := fired + more;
          }
        }
      }
    }

    /**
     * One entry's part of the sweep: it drops its expired instances, fires
     * stacks-changed if it lost any, and reports whether it is left expired.
     */
    method SweepEntry(e: StatusEffect, expired: StatusEffectInstance -> bool)
      returns (more: seq<Fired<EffectPayload>>, doomed: bool)
      requires Valid() && e in statusEffects
      modifies this`model, statusEffects[e]
      ensures Valid() && statusEffects == old(statusEffects)
      ensures var s0 := old(model)[e];
              && model == old(model)[e := SweepState(s0, expired)]
              && doomed == Expired(SweepState(s0, expired))
              && more == (if CountExpired(s0.instances, expired) > 0
                          then Fan(Lookup(stacksChangedMap.callbacks, e), StacksOf(e, SweepState(s0, expired)))
                          else [])
    {
      var entry := statusEffects[e];
      assert forall k :: k in statusEffects && k != e ==> statusEffects[k] != entry;
      var numRemoved := entry.RemoveExpired(expired);
      model := model[e := entry.State()];
      forall k | k in statusEffects && k != e
        ensures statusEffects[k].instances == model[k].instances && statusEffects[k].baseValue == model[k].baseValue
      {
        assert statusEffects[k] != entry;
      }
      more := [];
      if numRemoved > 0 {
        more := stacksChangedMap.TriggerEvent(e, Stacks(entry.Count(), entry.Accumulate()));
      }
      doomed := entry.HasExpired();
    }

    /**
     * The first pass of the sweep: every entry, in the dictionary's
     * (unspecified) order `order`, drops its expired instances and fires
     * stacks-changed if it lost any; the effects left expired are collected.
     */
    method SweepEntries(expired: StatusEffectInstance -> bool)
      returns (order: seq<StatusEffect>, effectsToRemove: seq<StatusEffect>, fired: seq<Fired<EffectPayload>>)
      requires Valid()
      modifies this`model, Repr
      ensures Valid() && statusEffects == old(statusEffects)
      ensures forall e :: e in order <==> e in old(model)
      ensures Distinct(order)
      ensures model.Keys == old(model).Keys
      ensures forall e :: e in model ==> model[e] == SweepState(old(model)[e], expired)
      ensures fired == SweepNotices(order, old(model), expired, stacksChangedMap.callbacks)
      ensures effectsToRemove == Doomed(order, old(model), expired)
    {
      ghost var m0 := model;
      var remaining := statusEffects.Keys;
      order := [];
      effectsToRemove := [];
      fired := [];
      while remaining != {}
        invariant Valid() && statusEffects == old(statusEffects)
        invariant remaining <= m0.Keys
        invariant forall e :: e in order ==> e in m0 && e !in remaining
        invariant forall e :: e in m0 ==> e in order || e in remaining
        invariant Distinct(order)
        invariant model == PartlySwept(m0, order, expired)
        invariant fired == SweepNotices(order, m0, expired, stacksChangedMap.callbacks)
        invariant effectsToRemove == Doomed(order, m0, expired)
        decreases remaining
      {
        var e :| e in remaining;
        var more, doomed := SweepEntry(e, expired);
        PartlySweptStep(m0, order, e, expired);
        DistinctAppend(order, e);
        SweepStep(order, e, m0, expired, stacksChangedMap.callbacks);
        var order' := order + [e];
        fired := fired + more;
        if doomed {
          effectsToRemove := effectsToRemove + [e];
        }
        order := order';
        remaining := remaining - {e};
      }
    }

    /** The second pass of the sweep: each listed effect fires removed and loses its entry, in order. */
    method RemoveEntries(effects: seq<StatusEffect>) returns (fired: seq<Fired<EffectPayload>>)
      requires Valid()
      modifies this`statusEffects, this`model
      ensures Valid()
      ensures forall e :: e in model <==> e in old(model) && e !in effects
      ensures forall e :: e in model ==> model[e] == old(model)[e]
      ensures fired == RemovedNotices(effects, removedMap.callbacks)
    {
      fired := [];
      for j := 0 to |effects|
        invariant Valid()
        invariant forall e :: e in model <==> e in old(model) && e !in effects[..j]
        invariant forall e :: e in model ==> model[e] == old(model)[e]
        invariant fired == RemovedNotices(effects[..j], removedMap.callbacks)
      {
        var e := effects[j];
        assert effects[..j + 1] == effects[..j] + [e];
        var more := removedMap.TriggerEvent(e, NoArgs);
        fired := fired + more;
        DropEntry(e);
      }
      assert effects[..|effects|] == effects;
    }

    /**
     * The per-frame sweep. Every entry, in the dictionary's (unspecified) order
     * `order`, drops the instances the expiry check reports and fires
     * stacks-changed if it lost any; then every entry left expired fires removed
     * and is deleted. The check stands for each instance's
     * `UpdateCheckExpiration` with this frame's time step.
     */
    method Update(expired: StatusEffectInstance -> bool) returns (order: seq<StatusEffect>, fired: seq<Fired<EffectPayload>>)
      requires Valid()
      modifies this, Repr
      ensures Valid()
      ensures forall e :: e in order <==> e in old(model)
      ensures Distinct(order)
      ensures model == SweepModel(old(model), expired)
      ensures fired == SweepNotices(order, old(model), expired, stacksChangedMap.callbacks)
                       + RemovedNotices(Doomed(order, old(model), expired), removedMap.callbacks)
    {
      var effectsToRemove, swept;
      order, effectsToRemove, swept := SweepEntries(expired);
      var removed := RemoveEntries(effectsToRemove);
      fired := swept + removed;
      SweepPassesCompose(old(model), order, expired, model);
    }

    /** `GetValue`: the effect's accumulated value, 0 for an absent effect. */
    function GetValue(effect: StatusEffect): (v: real)
      requires Valid()
      reads this, Repr
      ensures v == GetValueModel(model, effect)
    {
      if effect in statusEffects then statusEffects[effect].Accumulate() else 0.0
    }

    /**
     * An existing entry's base grows by `delta`, the stacks-changed
     * notifications fire and the new value is returned; an absent effect is set
     * up through `SetBaseValue` and `delta` is returned.
     */
    method AddBaseValue(effect: StatusEffect, delta: real) returns (newValue: real, fired: seq<Fired<EffectPayload>>)
      requires Valid()
      modifies this, Repr
      ensures Valid()
      ensures model == AddBaseModel(old(model), effect, delta)
      ensures newValue == GetValueModel(model, effect)
      ensures fired == (if effect in old(model)
                        then Fan(Lookup(stacksChangedMap.callbacks, effect), Stacks(|model[effect].instances|, newValue))
                        else [])
    {
      if effect in statusEffects {
        var stacks := SetEntryBase(effect, statusEffects[effect].baseValue + delta);
        newValue := stacks.value;
        fired := stacksChangedMap.TriggerEvent(effect, stacks);
      } else {
        fired := SetBaseValue(effect, delta);
        newValue := delta;
      }
    }

    /** `HasEffect`: a non-null effect with an entry. */
    function HasEffect(effect: W.Option<StatusEffect>): (b: bool)
      requires Valid()
      reads this, Repr
      ensures b <==> effect.Some? && effect.value in model
    {
      effect.Some? && effect.value in statusEffects
    }

    /** `RegisterEffectAppliedCallback`, `RegisterEffectRemovedCallback` and `RegisterStatusEffectChangedEvent`. */
    method RegisterCallback(kind: ContainerEvent, effect: StatusEffect, callback: Callback)
      requires RegistriesValid()
      modifies Registry(kind)
      ensures RegistriesValid()
      ensures Registry(kind).callbacks == Register(old(Registry(kind).callbacks), effect, callback)
    {
      Registry(kind).RegisterCallback(effect, callback);
    }

    /** The owner-exit hook of the registration methods: the pair leaves the same registry. */
    method OwnerExited(kind: ContainerEvent, effect: StatusEffect, callback: Callback) returns (removed: bool)
      requires RegistriesValid()
      modifies Registry(kind)
      ensures RegistriesValid()
      ensures (Registry(kind).callbacks, removed) == Unregister(old(Registry(kind).callbacks), effect, callback)
    {
      removed := Registry(kind).RemoveCallback(effect, callback);
    }
  }
}
