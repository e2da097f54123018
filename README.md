# CraterSprite core, modelled in Dafny

CraterSprite is a two-player Godot game written in C#. This project models
the game-logic core that does not need the engine, and proves properties of
that model:

- **Event registries** (`SparseEventMap`). A dictionary from a key to a list
  of callbacks, with register, trigger, remove and list-keys operations.
  Callbacks are opaque identities. Every trigger returns the trace of
  (callback, payload) calls it made, in order.
- **Input.** This covers:
  - the three-way `Variant` holder used as a physical-input key;
  - the per-binding `InputAccumulator` mapping and `InputAction`;
  - the per-device value cache and dispatch of `InputDevice`;
  - the process-wide `InputManager`: it builds the binding tables, classifies
    events, drops repeated values and dispatches to per-(action, device) and
    two-action axis registries.
- **Status effects.** A `StatusEntry` is a stack of effect instances with a
  base value, folded by the effect's accumulator kind. A
  `StatusEffectContainer` keeps one entry per effect, plus applied, removed
  and stacks-changed registries. Each container operation is specified by a
  function on a value-level model (effect to entry state). The container's
  ghost `model` is tied to its entry objects, and every method states the
  new model and the notifications it fired.
- **Match-3 orbs.** A `Match3Recipe` of three match types, the player's orb
  list (`Match3Container`), the spawn scheduler (`Match3Spawner`) and the
  player's super-move charge (`PlayerState`).
- **Small arithmetic rules.** `CraterMath.MoveTo` and `ClampTowards`, and the
  team-filter bit test `TeamFunctions.TeamMatches`.

Floats are modelled as `real`. The thresholds 0.0001, 0.001 and 0.2 are exact
named constants. C# `uint` counters are `nat`. The team-filter shift is done
on `bv32`, with C#'s shift-count masking written out.

Some source code is not shown and is not part of this model. In its place the
model takes a parameter:
- `StatusEffectInstance.UpdateCheckExpiration` becomes an expiry verdict
  `expired`;
- `Match3RecipeTable.CanMake` becomes `canMake`;
- `EnemySpawner.CanSpawn` becomes `canSpawn`;
- the spawn tables' random entries become the `Scene` arguments of
  `Process`.

The random choice of a spawn point is a nondeterministic pick.

Each owner-exit hook (`owner.TreeExited += …`) is a method of its own:
`InputDevice.OwnerExited`, `InputManager.RemoveCallback`,
`InputManager.AxisOwnerExited`, `StatusEffectContainer.OwnerExited` and
`Match3Spawner.EnemyExited`. The environment calls these explicitly.

Where the code and its documented intent differ, the model follows the code:
- `InputManager._Ready` stores keyboard bindings by `PhysicalKeycode`
  (Game/Input/InputManager.cs:62), but `_Input` looks them up by `Keycode`
  (Game/Input/InputManager.cs:208). The model keeps both fields of a key event
  and does exactly that. `KeycodeLookupMissesPhysicalBinding` shows the effect:
  a bound physical key pressed under a layout that gives it another keycode
  finds no action, and `Input` ignores it.
- `_Ready` is not all-or-nothing. A duplicate button or key binding makes
  `Dictionary.Add` throw part-way, leaving the tables as they stood. The model
  returns those tables with `ok == false` and proves that nothing after the
  failure matters.
- `Match3Spawner.QueueEnemySpawn` uses a spawned-enemy return value
  (Game/Match3/Match3Spawner.cs:86), but `EnemySpawner.SpawnEnemy` returns
  nothing (Props/Scripts/EnemySpawner.cs:7). The model follows the scheduler.
  A spawn is reported as a `Spawned` placement, and the enemy's exit hook is
  the `EnemyExited` method.

## Model

| member | source | states |
|---|---|---|
| Lists.RemoveFirst | Shared/Scripts/SparseEventMap.cs:44 | `List.Remove`: a missing element leaves the list as it was; a present one shortens it by exactly one |
| Lists.RemoveFirstMultiset | Shared/Scripts/SparseEventMap.cs:44 | `List.Remove` takes exactly one copy of the element out of the list's multiset |
| SparseEvents.Fan | Shared/Scripts/SparseEventMap.cs:30-33 | triggering calls every registered callback once, in registration order, each with the same argument |
| SparseEvents.FanAppend | Shared/Scripts/SparseEventMap.cs:30-33 | the calls of a concatenated callback list are the calls of the first part followed by those of the second |
| SparseEvents.Register | Shared/Scripts/SparseEventMap.cs:11-21 | registering appends the callback to the key's list, creating the key if it was absent, and leaves every other key alone |
| SparseEvents.RegisterKeepsInvariant | Shared/Scripts/SparseEventMap.cs:11-21 | registering never leaves an empty list in the dictionary |
| SparseEvents.UnregisterKeepsInvariant | Shared/Scripts/SparseEventMap.cs:49-52 | removing deletes a key whose list becomes empty, so no empty list is ever stored |
| SparseEvents.Unregister | Shared/Scripts/SparseEventMap.cs:36-55 | removal reports true exactly when the callback is in the key's list; false leaves the registry as it was; true leaves the key's list without its first copy of the callback; no key is added and other keys are untouched |
| SparseEvents.UnregisterEffect | Shared/Scripts/SparseEventMap.cs:36-55 | removal reports true exactly when the callback was registered under the key; on false nothing changes; on true the first copy goes; other keys are untouched |
| SparseEvents.RegisterThenUnregister | Shared/Scripts/SparseEventMap.cs:11-55 | registering a callback that was not already under the key, then removing it, restores the dictionary exactly and reports true |
| SparseEvents.RegisterThenUnregisterKeepsMultiset | Shared/Scripts/SparseEventMap.cs:11-55 | for any callback, register-then-remove reports true and restores every key's callbacks as a multiset |
| SparseEvents.RegisterThenUnregisterReorders | Shared/Scripts/SparseEventMap.cs:11-55 | the exact restore needs the callback to be new: with [a, b], register a then remove a gives [b, a], because removal takes the first copy |
| SparseEvents.RegisterFiresLast | Shared/Scripts/SparseEventMap.cs:11-34 | a newly registered callback fires after all earlier ones; registering twice fires it twice |
| SparseEvents.SparseEventMap.constructor | Shared/Scripts/SparseEventMap.cs:9 | a new registry is empty |
| SparseEvents.SparseEventMap.RegisterCallback | Shared/Scripts/SparseEventMap.cs:11-21 | the dictionary becomes `Register` of the old one, with no empty lists |
| SparseEvents.SparseEventMap.TriggerEvent | Shared/Scripts/SparseEventMap.cs:23-34 | the calls made are the key's callbacks in order with the argument; an unknown key makes none; nothing changes |
| SparseEvents.SparseEventMap.RemoveCallback | Shared/Scripts/SparseEventMap.cs:36-55 | the new dictionary and the returned flag are `Unregister` of the old dictionary |
| SparseEvents.SparseEventMap.GetMappedEvents | Shared/Scripts/SparseEventMap.cs:57-60 | the mapped keys are exactly the keys with a non-empty callback list |
| Variants.Index | Shared/Scripts/Variant.cs:30-65 | the index is 0, 1 or 2 according to which of the three types the variant holds |
| Variants.Is | Shared/Scripts/Variant.cs:32 | `Is<T>` holds exactly when T's position among the three type parameters is the stored `index` |
| Variants.Get1 | Shared/Scripts/Variant.cs:34 | `Get<T1>` on a variant holding a T1 returns the payload it was built from |
| Variants.Get2 | Shared/Scripts/Variant.cs:34 | `Get<T2>` on a variant holding a T2 returns the payload it was built from |
| Variants.Get3 | Shared/Scripts/Variant.cs:34 | `Get<T3>` on a variant holding a T3 returns the payload it was built from |
| Variants.Equals | Shared/Scripts/Variant.cs:71-78 | a variant equals an object exactly when that object is a variant with the same index and payload; null and other objects are unequal |
| Variants.HashCode | Shared/Scripts/Variant.cs:80 | the hash is the stored payload's own hash, whichever type it has |
| Variants.ConstructorsSetIndex | Shared/Scripts/Variant.cs:39-69 | each constructor sets its index, and `Is<T>` holds for exactly the constructed type |
| Variants.IsMatchesIndex | Shared/Scripts/Variant.cs:16-32 | `Is<T>` holds exactly when T is the type at the variant's index |
| Variants.GetRoundTrip | Shared/Scripts/Variant.cs:34-69 | getting a stored item back with its own type returns it unchanged |
| Variants.EqualsIsStructural | Shared/Scripts/Variant.cs:71-78 | `Equals` on two variants holds iff they have the same index and equal items; it is reflexive and symmetric |
| Variants.EqualsRejectsNonVariants | Shared/Scripts/Variant.cs:73-76 | `Equals` is false for null and for objects that are not variants |
| Variants.EqualVariantsHashEqually | Shared/Scripts/Variant.cs:80 | variants that are `Equals` have the same hash code |
| InputAccumulators.Map | Game/Input/InputAccumulator.cs:20-30 | the mapped value is the raw value scaled by the mapping's polarity: 0 for None, +1 for Positive and Range, -1 for Negative |
| InputAccumulators.MapCases | Game/Input/InputAccumulator.cs:22-29 | each mapping type's result, case by case; mapping 0 gives 0; the result is never larger in size than the input |
| InputAccumulators.OppositeBindingsCancel | Game/Input/InputAccumulator.cs:25-26 | a Positive and a Negative binding that see the same value cancel out |
| InputActions.InputAction.constructor | Game/Input/InputAction.cs:6-11 | a new action has the given name and no accumulators |
| InputActions.InputAction.AddAccumulator | Game/Input/InputAction.cs:10 | adding to the accumulator list appends at its end |
| InputDevices.SumContributions | Game/Input/InputDevice.cs:41 | the LINQ `Sum` of the accumulators' mappings: with every read value in [-1, 1], the sum of n accumulators lies in [-n, n] |
| InputDevices.SumAppend | Game/Input/InputDevice.cs:41 | the accumulated sum splits over concatenated accumulator lists |
| InputDevices.SumOfUnseenIsZero | Game/Input/InputDevice.cs:41 | inputs never seen count as 0 (`GetValueOrDefault`), so an action with no seen inputs accumulates to 0 |
| InputDevices.SumIgnoresOtherInputs | Game/Input/InputDevice.cs:26-42 | storing a value for an input that none of an action's accumulators reads leaves the action's value unchanged |
| InputDevices.TwoWayAction | Game/Input/InputDevice.cs:41 | a Positive plus a Negative binding accumulate to positive minus negative, which for digital inputs is -1, 0 or 1 |
| InputDevices.InputDevice.constructor | Game/Input/InputDevice.cs:13-17 | a new device has an empty value cache and three fresh, empty registries |
| InputDevices.InputDevice.GetMapForKeyType | Game/Input/InputDevice.cs:44-53 | there is no registry exactly for the event type None |
| InputDevices.InputDevice.Accumulate | Game/Input/InputDevice.cs:39-42 | the action's value from this device's cache: with every cached value in [-1, 1], it lies within plus or minus the number of accumulators |
| InputDevices.InputDevice.RegisterCallback | Game/Input/InputDevice.cs:19-24 | the event type's registry becomes `Register` of the old one under the action |
| InputDevices.InputDevice.OwnerExited | Game/Input/InputDevice.cs:23 | the owner-exit hook unregisters the same (action, callback) pair from the same registry |
| InputDevices.InputDevice.HandleInput | Game/Input/InputDevice.cs:26-37 | caches the raw value; Pressed and Released fire the Changed registry first, then the event type's own registry, each with the re-accumulated action value |
| InputDevices.DispatchShapes | Game/Input/InputDevice.cs:31-36 | None fires nothing; Changed fires its registry once; an edge fires Changed then its own registry; every payload is the accumulated value |
| InputManagers.AddBindings | Game/Input/InputManager.cs:49-65 | one action's bindings are added in order; only a key or button binding can make the pass fail |
| InputManagers.BuildTables | Game/Input/InputManager.cs:42-66 | the `_Ready` fold over the action map; a map of "ui_" actions only leaves the tables as they were and succeeds |
| InputManagers.AddBindingsDomain | Game/Input/InputManager.cs:49-65 | a pass that gets through has gained exactly the keys, buttons and axes its bindings name |
| InputManagers.BuildDomain | Game/Input/InputManager.cs:42-66 | a successful `_Ready` has gained exactly the keys and buttons bound by the non-"ui_" actions |
| InputManagers.AddBindingsGrows | Game/Input/InputManager.cs:49-65 | one action's bindings only add entries: every key and button keeps its action and no axis is dropped |
| InputManagers.BuildGrows | Game/Input/InputManager.cs:42-66 | `_Ready` only adds entries to the tables it starts from: keys and buttons keep their actions, axes stay mapped |
| InputManagers.AddBindingsBinds | Game/Input/InputManager.cs:49-65 | after an action's bindings are added without a failure, each of its keys and buttons maps to that action |
| InputManagers.AddBindingsBindsOnlyListed | Game/Input/InputManager.cs:49-65 | any entry an action's bindings change is one of its own bindings, and it now maps to that action |
| InputManagers.AddBindingsRejectsBound | Game/Input/InputManager.cs:53-63 | binding a key or button that is already in its table fails (`Dictionary.Add` throws) |
| InputManagers.DuplicateWithinActionFails | Game/Input/InputManager.cs:49-65 | a key or button listed twice by one action makes its bindings fail |
| InputManagers.BuildBinds | Game/Input/InputManager.cs:42-66 | after a successful `_Ready`, every key and button bound by a non-"ui_" action maps to that action |
| InputManagers.BuildBindsOnlyConfigured | Game/Input/InputManager.cs:42-66 | every entry `_Ready` adds or changes comes from a non-"ui_" action that binds it, and maps to that action |
| InputManagers.DuplicateBindingFailsBuild | Game/Input/InputManager.cs:42-66 | a key or button bound by an earlier non-"ui_" action and again by a later one makes `_Ready` fail |
| InputManagers.AxisRebindingKeepsLast | Game/Input/InputManager.cs:57-59 | joypad axes are assigned with an indexer, so a later binding of an axis overwrites an earlier one and does not fail |
| InputManagers.BuildSkipsUiActions | Game/Input/InputManager.cs:44-47 | actions whose name starts with "ui_" never enter any table |
| InputManagers.AddBindingsKeepsNames | Game/Input/InputManager.cs:49-65 | binding a non-ui action adds no "ui_" names to the tables |
| InputManagers.BuildStopsAtFailure | Game/Input/InputManager.cs:42-66 | once `_Ready` has failed on a prefix of the action map, the remaining actions change nothing |
| InputManagers.AddBindingsStopsAtFailure | Game/Input/InputManager.cs:49-65 | once one action's bindings have failed, its remaining bindings change nothing |
| InputManagers.GetEventType | Game/Input/InputManager.cs:170-188 | echo events and events that are not action events are None; otherwise Pressed if pressed, else Released if released, else Changed |
| InputManagers.DeviceId | Game/Input/InputManager.cs:108-115 | joypad button and motion events go to device index + 1; other events keep their device |
| InputManagers.Deadzone | Game/Input/InputManager.cs:199-203 | axis values below 0.2, negative ones included, read as 0; values at or above 0.2 pass unchanged |
| InputManagers.Strength | Game/Input/InputManager.cs:192-213 | buttons and keys give 1 when pressed and 0 otherwise; axis motion gives the dead-zoned axis value; strength is never negative |
| InputManagers.DeadzoneIdempotent | Game/Input/InputManager.cs:199-203 | applying the dead zone twice equals applying it once, and every negative axis value reads 0 |
| InputManagers.InputManager.constructor | Game/Input/InputManager.cs:26-35 | a new manager has empty tables, an empty value cache and four fresh, empty registries |
| InputManagers.InputManager.Ready | Game/Input/InputManager.cs:37-67 | the tables become `BuildTables` of the action map (the "ok" flag says whether a duplicate stopped it); the value cache is untouched |
| InputManagers.InputManager.GetMapForKeyType | Game/Input/InputManager.cs:159-168 | there is no registry exactly for the event type None |
| InputManagers.InputManager.GetActionFromEvent | Game/Input/InputManager.cs:190-214 | a button, axis or key event finds the action its button, axis or layout keycode maps to in the tables, and no action when unmapped; other events find no action |
| InputManagers.KeycodeLookupMissesPhysicalBinding | Game/Input/InputManager.cs:206-208 | keys are bound by physical keycode (line 62) but looked up by layout keycode: with only physical key p bound, a key event on p whose layout keycode differs finds no action, while an event whose keycode is p finds the bound action |
| InputManagers.ButtonEventFindsBoundAction | Game/Input/InputManager.cs:194-196 | after a successful `_Ready`, a joypad button event finds the action that bound its button |
| InputManagers.InputManager.RegisterCallback | Game/Input/InputManager.cs:77-81 | the event type's registry becomes `Register` of the old one under exactly (action, device) |
| InputManagers.InputManager.RemoveCallback | Game/Input/InputManager.cs:153-157 | the owner-exit hook unregisters the same (action, device, callback) from the same registry |
| InputManagers.InputManager.RegisterAxisChangedCallback | Game/Input/InputManager.cs:91-98 | the axis registry becomes `Register` of the old one under ((positive, negative), device) |
| InputManagers.InputManager.AxisOwnerExited | Game/Input/InputManager.cs:97 | the axis owner-exit hook unregisters the same key and callback |
| InputManagers.InputManager.DispatchAxis | Game/Input/InputManager.cs:132-143 | when no registered axis mentions the action, nothing fires; otherwise one mentioning axis is triggered under (that axis, the event's device), which fires whatever callbacks are registered under exactly that key (possibly none), each with stored positive minus stored negative |
| InputManagers.InputManager.Input | Game/Input/InputManager.cs:100-151 | None events, unbound inputs and values within 0.0001 of the stored one change nothing and fire nothing; otherwise the value is stored, at most one axis fires, then Changed for an edge, then the type's own registry, keyed by (action, computed device) |
| StatusEntries.MaxStrengthIsMaximum | Game/Effects/StatusEntry.cs:65 | `instances.Max` is at least every instance's strength and equals one of them |
| StatusEntries.MinStrengthIsMinimum | Game/Effects/StatusEntry.cs:66 | `instances.Min` is at most every instance's strength and equals one of them |
| StatusEntries.AccumulateValue | Game/Effects/StatusEntry.cs:53-70 | with no instances the base value; with instances, None gives 0, BaseValueOnly the base, Maximum at least the base and Minimum at most the base |
| StatusEntries.EmptyStackIsBaseValue | Game/Effects/StatusEntry.cs:55-58 | an entry with no instances accumulates to its base value, whatever the accumulator kind |
| StatusEntries.NonEmptyStackValues | Game/Effects/StatusEntry.cs:60-69 | with instances: None gives 0, BaseValueOnly the base, Maximum/Minimum at least/at most the base and every strength |
| StatusEntries.StackingCombines | Game/Effects/StatusEntry.cs:64-67 | for Additive, Maximum, Minimum and Multiplicative, adding an instance combines its strength with the previous value (+, max, min, ×) |
| StatusEntries.ZeroStrengthsAddNothing | Game/Effects/StatusEntry.cs:64 | instances of strength 0 add nothing to an Additive sum |
| StatusEntries.Survivors | Game/Effects/StatusEntry.cs:43 | `RemoveAll` never lengthens the list |
| StatusEntries.SurvivorsAreUnexpired | Game/Effects/StatusEntry.cs:43 | after `RemoveAll`, an instance is in the list iff it was there and is not expired |
| StatusEntries.CountExpired | Game/Effects/StatusEntry.cs:43 | `RemoveAll` returns the number of instances it removed |
| StatusEntries.NothingExpiredKeepsAll | Game/Effects/StatusEntry.cs:43 | nothing is removed iff no instance is expired iff the list is unchanged |
| StatusEntries.StatusEntry.constructor | Game/Effects/StatusEntry.cs:14-19 | a new entry has the effect, the base value and no instances |
| StatusEntries.StatusEntry.Add | Game/Effects/StatusEntry.cs:26-29 | the instance is appended; the count grows by one; the base value is kept |
| StatusEntries.StatusEntry.Remove | Game/Effects/StatusEntry.cs:31-34 | reports whether the instance was present and removes its first copy; the base value is kept |
| StatusEntries.StatusEntry.RemoveExpired | Game/Effects/StatusEntry.cs:41-44 | keeps exactly the unexpired instances in order and returns how many were removed |
| StatusEntries.StatusEntry.HasExpired | Game/Effects/StatusEntry.cs:21-24 | expired exactly when there are no instances and the base value is 0, and an expired entry accumulates to 0 |
| StatusEntries.StatusEntry.Count | Game/Effects/StatusEntry.cs:51 | the number of instances, 0 exactly when there are none |
| StatusEntries.StatusEntry.Accumulate | Game/Effects/StatusEntry.cs:53-70 | the entry's value: the base value with no instances; with instances, 0 for None, at least the base for Maximum, at most the base for Minimum |
| StatusEffectContainers.ApplyModel | Game/Effects/StatusEffectContainer.cs:16-37 | applying adds the effect's key (if absent) and leaves every other entry alone |
| StatusEffectContainers.SetBaseModel | Game/Effects/StatusEffectContainer.cs:39-56 | setting the base adds the effect's key (if absent), keeps its instances (none for a new entry) and leaves every other entry alone |
| StatusEffectContainers.AddBaseModel | Game/Effects/StatusEffectContainer.cs:118-130 | adds `delta` to an existing base value, or creates the entry with base `delta`; the instances and every other entry are kept |
| StatusEffectContainers.GetValueModel | Game/Effects/StatusEffectContainer.cs:113-116 | 0 for an absent effect; the base value for an entry without instances |
| StatusEffectContainers.RemoveModel | Game/Effects/StatusEffectContainer.cs:58-79 | removing an instance never adds keys and leaves every other entry alone |
| StatusEffectContainers.SweepModel | Game/Effects/StatusEffectContainer.cs:81-103 | after `Update` no entry is left expired |
| StatusEffectContainers.DoomedMembers | Game/Effects/StatusEffectContainer.cs:92-95 | the effects queued for removal are exactly those whose entries are expired after losing their expired instances |
| StatusEffectContainers.SweepPassesCompose | Game/Effects/StatusEffectContainer.cs:84-102 | the expiry pass over the whole dictionary followed by removal of the queued effects equals `SweepModel` |
| StatusEffectContainers.ApplyThenRemove | Game/Effects/StatusEffectContainer.cs:16-79 | applying a new instance and then removing it restores the container, unless the entry was already expired |
| StatusEffectContainers.ApplyCombines | Game/Effects/StatusEffectContainer.cs:23-36 | for the folding kinds, applying an instance combines its strength into the effect's previous value (an absent effect counts as base 0) |
| StatusEffectContainers.ApplyTwiceStacks | Game/Effects/StatusEffectContainer.cs:23-32 | applying two instances of one effect stacks both, in order |
| StatusEffectContainers.SetBaseIdempotent | Game/Effects/StatusEffectContainer.cs:39-56 | setting the same base value twice is the same as setting it once |
| StatusEffectContainers.AddBaseReturnsNewValue | Game/Effects/StatusEffectContainer.cs:118-130 | `AddBaseValue` returns the effect's new accumulated value; for an absent effect that is `delta` |
| StatusEffectContainers.QuietSweepKeepsModel | Game/Effects/StatusEffectContainer.cs:81-103 | an update that finds nothing expired, over unexpired entries, changes nothing |
| StatusEffectContainers.StatusEffectContainer.constructor | Game/Effects/StatusEffectContainer.cs:10-14 | a new container has no entries and three fresh, empty registries |
| StatusEffectContainers.StatusEffectContainer.ApplyStatusEffectInstance | Game/Effects/StatusEffectContainer.cs:16-37 | a null effect changes nothing; otherwise the model becomes `ApplyModel`; a new entry fires Applied, then Stacks-changed always fires with the new count and value |
| StatusEffectContainers.StatusEffectContainer.SetBaseValue | Game/Effects/StatusEffectContainer.cs:39-56 | the model becomes `SetBaseModel`; only a change of at least 0.001 to an existing entry fires Stacks-changed |
| StatusEffectContainers.StatusEffectContainer.RemoveStatusEffectInstance | Game/Effects/StatusEffectContainer.cs:58-79 | the model becomes `RemoveModel`; a successful removal fires Stacks-changed, then Removed if the entry was deleted |
| StatusEffectContainers.StatusEffectContainer.SweepEntries | Game/Effects/StatusEffectContainer.cs:84-96 | every entry loses its expired instances, with Stacks-changed fired for those that lost any; the queued effects are those left expired |
| StatusEffectContainers.StatusEffectContainer.RemoveEntries | Game/Effects/StatusEffectContainer.cs:98-102 | the queued effects are deleted, each firing Removed; other entries are unchanged |
| StatusEffectContainers.StatusEffectContainer.Update | Game/Effects/StatusEffectContainer.cs:81-103 | the model becomes `SweepModel`, visiting each effect once in dictionary order; the notices are the pass's Stacks-changed ones, then Removed for each deleted effect in order |
| StatusEffectContainers.StatusEffectContainer.GetValue | Game/Effects/StatusEffectContainer.cs:113-116 | the value is the entry's accumulated value, or 0 for an absent effect |
| StatusEffectContainers.StatusEffectContainer.AddBaseValue | Game/Effects/StatusEffectContainer.cs:118-130 | the model becomes `AddBaseModel`; the returned value is the new `GetValue`; only an existing entry fires Stacks-changed |
| StatusEffectContainers.StatusEffectContainer.HasEffect | Game/Effects/StatusEffectContainer.cs:155-158 | true iff the effect is non-null and has an entry |
| StatusEffectContainers.StatusEffectContainer.RegisterCallback | Game/Effects/StatusEffectContainer.cs:137-153 | the chosen registry becomes `Register` of the old one |
| StatusEffectContainers.StatusEffectContainer.OwnerExited | Game/Effects/StatusEffectContainer.cs:137-153 | the owner-exit hook unregisters the same pair from the same registry |
| CraterMath.MoveTo | Shared/Scripts/CraterMath.cs:18-28 | with a non-negative rate, the result lies between input and destination and is never farther from the destination: no overshoot |
| CraterMath.MoveToSnaps | Shared/Scripts/CraterMath.cs:22-25 | within one rate of the destination, the result is the destination |
| CraterMath.MoveToSteps | Shared/Scripts/CraterMath.cs:27 | otherwise the input moves one rate towards the destination |
| CraterMath.MoveToFixedPoint | Shared/Scripts/CraterMath.cs:18-28 | the destination is a fixed point |
| CraterMath.ClampTowards | Shared/Scripts/CraterMath.cs:30-55 | a value in range is kept; above max it moves down to max or by one rate without passing max; below min it moves up likewise |
| CraterMath.ClampTowardsSnaps | Shared/Scripts/CraterMath.cs:33-52 | when the result snaps to a bound: within one rate of max, or within one rate of min |
| Teams.TeamMatches | Characters/Scripts/Team.cs:25-33 | the empty filter matches exactly `Unaffiliated`, and `Unaffiliated` matches exactly the empty filter |
| Teams.ShiftCount | Characters/Scripts/Team.cs:32 | C# masks an int shift count to its low five bits, so `team - 1 == -1` shifts by 31 |
| Teams.MatchesMeansFlagSet | Characters/Scripts/Team.cs:25-33 | Unaffiliated matches only the empty filter; any other team matches iff the filter has its flag bit |
| Teams.EmptyFilterMatchesOnlyUnaffiliated | Characters/Scripts/Team.cs:27-30 | the empty filter matches Unaffiliated and no other team |
| Teams.MoreFlagsKeepMatches | Characters/Scripts/Team.cs:32 | adding flags to a filter never makes an affiliated team stop matching |
| Match3Recipes.AllRemovable | Game/Match3/Match3Recipe.cs:47 | removing every ingredient one at a time can only succeed when there are no more ingredients than pool entries |
| Match3Recipes.Makes | Game/Match3/Match3Recipe.cs:39-48 | what a recipe makes has at most three ingredients, no more than the recipe has slots, each of them a recipe type |
| Match3Recipes.AllRemovableIsInclusion | Game/Match3/Match3Recipe.cs:39-48 | removing every ingredient from a copy of the recipe succeeds iff the ingredients are a sub-multiset of the recipe |
| Match3Recipes.MakesIgnoresOrder | Game/Match3/Match3Recipe.cs:39-48 | whether a recipe can be made does not depend on the order of the ingredients |
| Match3Recipes.MakesEmptyAndItself | Game/Match3/Match3Recipe.cs:39-48 | a recipe can be made from no ingredients and from its own three types |
| Match3Recipes.Match3Recipe.constructor | Game/Match3/Match3Recipe.cs:10-12 | the default recipe is three None slots |
| Match3Recipes.Match3Recipe.Of | Game/Match3/Match3Recipe.cs:14-17 | the recipe holds the three given types in order |
| Match3Recipes.Match3Recipe.Type1 | Game/Match3/Match3Recipe.cs:19-35 | the first slot, which the recipe can make on its own |
| Match3Recipes.Match3Recipe.Type2 | Game/Match3/Match3Recipe.cs:19-35 | the second slot, which the recipe can make on its own |
| Match3Recipes.Match3Recipe.Type3 | Game/Match3/Match3Recipe.cs:19-35 | the third slot, which the recipe can make on its own |
| Match3Recipes.Match3Recipe.SetType1 | Game/Match3/Match3Recipe.cs:19-23 | setting `type1` changes slot 0 only |
| Match3Recipes.Match3Recipe.SetType2 | Game/Match3/Match3Recipe.cs:25-29 | setting `type2` changes slot 1 only |
| Match3Recipes.Match3Recipe.SetType3 | Game/Match3/Match3Recipe.cs:31-35 | setting `type3` changes slot 2 only |
| Match3Recipes.Match3Recipe.CanMake | Game/Match3/Match3Recipe.cs:39-48 | true iff there are at most three ingredients and they form a sub-multiset of the recipe |
| Match3Containers.Singles | Game/Match3/Match3Container.cs:40-43 | one spawn-single request per orb, in list order |
| Match3Containers.AddOrbModel | Game/Match3/Match3Container.cs:16-48 | None leaves the list; another orb ends the new list, which is the old list plus the orb when the table can make that and otherwise the orb alone; None never enters |
| Match3Containers.AddOrbNotices | Game/Match3/Match3Container.cs:16-48 | None says nothing; otherwise one spawn request per old orb, in order, when the table cannot make the grown list, then one notice with the new list |
| Match3Containers.AddOrbEffect | Game/Match3/Match3Container.cs:16-48 | adding None does nothing; any other orb ends the list and is announced once; the list grows by it when the table can make the result, else is reset to just it after one spawn request per old orb, in order |
| Match3Containers.AddOrbKeepsNoneOut | Game/Match3/Match3Container.cs:19-22 | None never enters the orb list |
| Match3Containers.SpawnedOrbs | Game/Match3/Match3Container.cs:40-43 | a trace has no more spawned orbs than notices |
| Match3Containers.SpawnedOrbsOfSingles | Game/Match3/Match3Container.cs:40-47 | the flush notices spawn exactly the flushed orbs |
| Match3Containers.AddOrbLosesNothing | Game/Match3/Match3Container.cs:16-48 | every orb is either still in the list or sent off as a single spawn, with nothing lost or duplicated |
| Match3Containers.Match3Container.constructor | Game/Match3/Match3Container.cs:9 | a new container holds no orbs |
| Match3Containers.Match3Container.AddOrb | Game/Match3/Match3Container.cs:16-26 | the list and notices are `AddOrbModel` and `AddOrbNotices` of the old list; None stays out |
| Match3Containers.Match3Container.OrbsChanged | Game/Match3/Match3Container.cs:33-48 | when the table cannot make the list, every orb but the last is requested as a single spawn in order and only the last is kept; the list is then announced |
| Match3Spawners.Advance | Game/Match3/Match3Spawner.cs:130-138 | a timer advanced by `dt` goes off exactly when it reaches the period, and then loses exactly one period |
| Match3Spawners.AdvanceKeepsNonNegative | Game/Match3/Match3Spawner.cs:123-152 | a non-negative timer advanced by a non-negative step stays non-negative |
| Match3Spawners.AdvanceStaysBelowPeriod | Game/Match3/Match3Spawner.cs:123-152 | a timer below its period, advanced by at most one period, stays below it |
| Match3Spawners.RunFiresOncePerPeriod | Game/Match3/Match3Spawner.cs:123-152 | over frames of at most one period each, a timer that starts below its period goes off once for every whole period of accumulated time, and what is left stays below one period, so no spawn is lost |
| Match3Spawners.QueuedScenesAppend | Game/Match3/Match3Spawner.cs:54-55 | the queued scenes of two traces in a row are those of the first, then those of the second |
| Match3Spawners.RejectKeepsCandidates | Game/Match3/Match3Spawner.cs:112-117 | dropping a rejected spawn point keeps the candidates drawn from the spawn points, and every dropped one unavailable |
| Match3Spawners.Match3Spawner.constructor | Game/Match3/Match3Spawner.cs:9-35 | the field defaults: enabled, multiplier 1, increase 0.01, enemy period 10, maximum 5, no enemies, pickup period 15, timers at 0, empty queue |
| Match3Spawners.Match3Spawner.GetRandomAvailableSpawner | Game/Match3/Match3Spawner.cs:106-121 | at most one random draw per spawn point, always from a non-empty list; the result is an available spawn point, and it is null iff no spawn point can spawn |
| Match3Spawners.Match3Spawner.QueueSpawn | Game/Match3/Match3Spawner.cs:58-70 | the scene is spawned at an available spawn point, or queued on the pending queue when there is none |
| Match3Spawners.Match3Spawner.QueueEnemySpawn | Game/Match3/Match3Spawner.cs:72-97 | the enemy count grows by one whether the enemy is spawned or queued; placement is as in `QueueSpawn` |
| Match3Spawners.Match3Spawner.EnemyExited | Game/Match3/Match3Spawner.cs:92-96 | the exit hook decrements the count only when it is positive, so it never underflows |
| Match3Spawners.Match3Spawner.UpdateEnemySpawns | Game/Match3/Match3Spawner.cs:123-139 | frozen while the count is at the maximum; otherwise the timer advances, and at most one enemy is placed, exactly when the timer goes off |
| Match3Spawners.Match3Spawner.UpdatePickupSpawns | Game/Match3/Match3Spawner.cs:141-152 | the timer advances, and at most one pickup is placed, exactly when the timer goes off |
| Match3Spawners.Match3Spawner.Process | Game/Match3/Match3Spawner.cs:44-56 | disabled changes nothing; enabled raises the multiplier by increase·dt, updates enemies with dt and pickups with dt times the new multiplier; the first placement is the enemy's, the last the pickup's |
| PlayerStates.Clamp | Characters/Players/Scripts/PlayerState.cs:12 | `Mathf.Clamp`: the result lies in [min, max] when that range is non-empty; a value inside is kept, one below min is raised to min, and one above max (and not below min) is lowered to max |
| PlayerStates.ClampIntoRange | Characters/Players/Scripts/PlayerState.cs:12 | the clamped charge lies in [0, maximum], and equals the value exactly when the value was already there |
| PlayerStates.ClampIdempotent | Characters/Players/Scripts/PlayerState.cs:12 | clamping an already clamped charge changes nothing |
| PlayerStates.PlayerState.constructor | Characters/Players/Scripts/PlayerState.cs:14-22 | a new player has no charge, the given maximum and a fresh, empty orb container |
| PlayerStates.PlayerState.SuperMoveCharge | Characters/Players/Scripts/PlayerState.cs:11 | the getter returns the stored charge, which `AddSuperCharge` may have left outside [0, max] |
| PlayerStates.PlayerState.SetSuperMoveCharge | Characters/Players/Scripts/PlayerState.cs:9-14 | the getter then returns the value clamped to [0, maximum] |
| PlayerStates.PlayerState.AddSuperCharge | Characters/Players/Scripts/PlayerState.cs:40-45 | adds to the charge without clamping, so a full charge goes past the maximum; notifies once, with the new charge |
| PlayerStates.PlayerState.KilledEnemy | Characters/Players/Scripts/PlayerState.cs:35-38 | the enemy's match type is added to the player's orb list exactly as `AddOrb` does |

## Left out

- Engine and I/O are left out: `GD.Print`, ImGui drawing (`InputDevice.DrawActions`), `ToString` overrides, scene instancing (`SpawnEnemy`, `QueueRelativeSpawn`, `CreateInstanceDeferred`), node lookup in `_Ready`, and the `InputManager.instance` singleton.
- Randomness is left out: `CraterMath.ChooseRandom` is a nondeterministic pick, and `SpawnTable.GetRandomEntry` is a parameter.
- Floating point is left out. Floats are `real`, so IEEE rounding is not modelled, and neither are NaN or infinite values.
- `CraterMath.MoveTo` and `CraterMath.ClampTowards` are generic in the source. They are modelled over `real` only.
- C# `Dictionary` enumeration order is unspecified and is not modelled. `StatusEffectContainer.Update` takes the visiting order as a nondeterministic permutation of the keys, which it returns. `InputManager.DispatchAxis` picks the first mentioning axis key in an unspecified order.
- Match3Spawners.Match3Spawner.QueueEnemySpawn: the spawned enemy is not modelled, and so neither is attaching the exit hook only to a non-null enemy. The hook is `EnemyExited`, called explicitly.
- The uint counters `_maxEnemyCount` and `_currentEnemyCount` are `nat`, so 32-bit wrap-around is not modelled.
- `_pendingEnemySpawns` is never read or written in the source, and is not modelled.
- Pending spawns are only ever enqueued; nothing in the source dequeues them.
- The following are not part of this model and appear only as parameters: `StatusEffectInstance.UpdateCheckExpiration` (the `expired` verdict), `Match3RecipeTable.CanMake` (`canMake`), `EnemySpawner.CanSpawn` (`canSpawn`) and `StatusEffect` (an identity plus its accumulator kind).
- Match type names and the engine's `Key`, `JoyAxis` and `JoyButton` enums are abstract identities.
- Null effects: `RemoveStatusEffectInstance`, `SetBaseValue`, `GetValue` and `AddBaseValue` throw on a null effect. `RemoveStatusEffectInstance` requires an instance with an effect; the others take a non-null effect. `ApplyStatusEffectInstance` and `HasEffect` handle null and take an `Option`.
- A registration with the event type None throws in the source (null registry). `InputManager.RegisterCallback` and `InputDevice.RegisterCallback` require a type other than None.
- `Game/InputManager.cs` is an older duplicate of the input manager and is not part of this model.
- `CharacterStats`, `GameMode`, the HUD and the resource holders are engine wiring and are not part of this model.
- Callbacks cannot act on the registries. A callback is an opaque identity, so one that registers or removes callbacks while `TriggerEvent` runs is not modelled. In the source that would change the list being enumerated (Shared/Scripts/SparseEventMap.cs:30) and throw.
- Variants.Get1: requires the stored type. The source's `Get<T>` of another type throws `InvalidCastException` (Shared/Scripts/Variant.cs:34), and that error path is not modelled. The same applies to `Variants.Get2` and `Variants.Get3`.
- The prefix test for "ui_" actions is an ordinal comparison of the first three characters. .NET's `StartsWith(string)` (Game/Input/InputManager.cs:44) compares by the current culture, where ignorable code points such as a soft hyphen could still let a name match.
- Match3Containers.Match3Container.OrbsChanged: `onOrbsChanged` receives the container's live list (Game/Match3/Match3Container.cs:47), but the model's `OrbsChangedTo` notice carries a snapshot. A listener that keeps the list and sees later changes, or changes it, is not modelled.
- InputManagers.InputManager.RemoveCallback: states the new registry but not the removed flag, which the source discards.
