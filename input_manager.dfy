/**
 * The process-wide input manager (Game/Input/InputManager.cs): it builds
 * the input-to-action tables from the engine's action map, classifies
 * engine events, suppresses repeats of an unchanged value, and dispatches
 * to per-(action, device) registries and to two-action axis registries.
 *
 * Engine events are a datatype carrying what the manager asks of them.
 * The engine's action map is a configuration list handed to `Ready`.
 */
module InputManagers {
  import opened SparseEvents
  import opened InputTypes
  import W = Wrappers
  import opened CraterMath

  /** `TreatControllerAsSecondDevice`: joypad events go to device index + 1. */
  const TreatControllerAsSecondDevice: bool := true

  /** Joypad axis values below this are read as 0. */
  const AxisDeadzone: real := 0.2

  /** A new value closer than this to the stored one is a repeat. */
  const UnchangedEpsilon: real := 0.0001

  /** The engine event subclasses the manager tells apart. */
  datatype EventKind =
    | JoypadButton(buttonIndex: JoyButton)
    | JoypadMotion(axis: JoyAxis, axisValue: real)
    | KeyEvent(keycode: Key, physicalKeycode: Key)
    | OtherEvent

  /** An engine event: its subclass, reported device and the flags the manager queries. */
  datatype InputEvent = InputEvent(kind: EventKind, device: int, pressed: bool, released: bool, echo: bool, actionType: bool)

  /** One event bound to an action in the engine's action map. */
  datatype Binding =
    | ButtonBinding(button: JoyButton)
    | AxisBinding(axis: JoyAxis)
    | KeyBinding(physicalKeycode: Key)
    | OtherBinding

  /** The engine's action map: action names with their bound events, in order. */
  type Config = seq<(string, seq<Binding>)>

  /** The three lookup tables `_Ready` fills. */
  datatype Tables = Tables(keyActionMap: map<Key, string>, gamepadAxisMap: map<JoyAxis, string>, gamepadButtonMap: map<JoyButton, string>)

  /** The tables reached and whether building got through without a duplicate `Add`. */
  datatype Build = Build(tables: Tables, ok: bool)

  /** A two-action axis: `positive` minus `negative`. */
  datatype InputAxis1D = InputAxis1D(positive: string, negative: string)

  predicate IsUiAction(name: string)
  {
    |name| >= 3 && name[..3] == "ui_"
  }

  /**
   * Adding one binding: a button or key already bound makes `Add` throw, which
   * ends the build with the tables as they stand; an axis binding overwrites.
   */
  function AddBinding(t: Tables, action: string, b: Binding): Build
  {
    match b
    case ButtonBinding(button) =>
      if button in t.gamepadButtonMap then Build(t, false)
      else Build(t.(gamepadButtonMap := t.gamepadButtonMap[button := action]), true)
    case AxisBinding(axis) =>
      Build(t.(gamepadAxisMap := t.gamepadAxisMap[axis := action]), true)
    case KeyBinding(k) =>
      if k in t.keyActionMap then Build(t, false)
      else Build(t.(keyActionMap := t.keyActionMap[k := action]), true)
    case OtherBinding => Build(t, true)
  }

  /** The keys, buttons and axes a list of bindings names. */
  function KeysOf(bs: seq<Binding>): set<Key>
  {
    set b | b in bs && b.KeyBinding? :: b.physicalKeycode
  }

  function ButtonsOf(bs: seq<Binding>): set<JoyButton>
  {
    set b | b in bs && b.ButtonBinding? :: b.button
  }

  function AxesOf(bs: seq<Binding>): set<JoyAxis>
  {
    set b | b in bs && b.AxisBinding? :: b.axis
  }

  /** The keys and buttons the non-"ui_" actions of a configuration name. */
  function ConfigKeys(config: Config): set<Key>
  {
    set i, k | 0 <= i < |config| && !IsUiAction(config[i].0) && k in KeysOf(config[i].1) :: k
  }

  function ConfigButtons(config: Config): set<JoyButton>
  {
    set i, b | 0 <= i < |config| && !IsUiAction(config[i].0) && b in ButtonsOf(config[i].1) :: b
  }

  /** How the named inputs grow by one more binding. */
  lemma NamedInputsSnoc(bs: seq<Binding>)
    requires bs != []
    ensures var n := |bs| - 1;
            && KeysOf(bs) == KeysOf(bs[..n]) + (if bs[n].KeyBinding? then {bs[n].physicalKeycode} else {})
            && ButtonsOf(bs) == ButtonsOf(bs[..n]) + (if bs[n].ButtonBinding? then {bs[n].button} else {})
            && AxesOf(bs) == AxesOf(bs[..n]) + (if bs[n].AxisBinding? then {bs[n].axis} else {})
  {
    assert bs == bs[..|bs| - 1] + [bs[|bs| - 1]];
  }

  /** How the configured inputs grow by one more action. */
  lemma ConfigInputsSnoc(config: Config)
    requires config != []
    ensures var n := |config| - 1;
            && ConfigKeys(config) == ConfigKeys(config[..n]) + (if IsUiAction(config[n].0) then {} else KeysOf(config[n].1))
            && ConfigButtons(config) == ConfigButtons(config[..n]) + (if IsUiAction(config[n].0) then {} else ButtonsOf(config[n].1))
  {
    var n := |config| - 1;
    assert forall i :: 0 <= i < n ==> config[..n][i] == config[i];
  }

  /**
   * Adding an action's bindings in order, stopping at the first failure. Only
   * a key or button binding can fail.
   */
  function AddBindings(t: Tables, action: string, bs: seq<Binding>): (r: Build)
    ensures !r.ok ==> exists i :: 0 <= i < |bs| && Exclusive(bs[i])
  {
    if bs == [] then Build(t, true)
    else
      var prefix := AddBindings(t, action, bs[..|bs| - 1]);
      if !prefix.ok then prefix else AddBinding(prefix.tables, action, bs[|bs| - 1])
  }

  /**
   * Building from `t` over the whole configuration, skipping "ui_" actions.
   * A configuration of "ui_" actions only changes nothing.
   */
  function BuildTables(t: Tables, config: Config): (r: Build)
    ensures (forall i :: 0 <= i < |config| ==> IsUiAction(config[i].0)) ==> r == Build(t, true)
  {
    if config == [] then Build(t, true)
    else
      var prefix := BuildTables(t, config[..|config| - 1]);
      var (name, bs) := config[|config| - 1];
      if !prefix.ok then prefix
      else if IsUiAction(name) then prefix
      else AddBindings(prefix.tables, name, bs)
  }

  /** Keys and buttons: the bindings `_Ready` adds with `Dictionary.Add`, so each may be bound once. */
  predicate Exclusive(b: Binding)
  {
    b.ButtonBinding? || b.KeyBinding?
  }

  /** The action the input of binding `b` is mapped to in `t`, if any. */
  function BoundTo(t: Tables, b: Binding): W.Option<string>
  {
    match b
    case ButtonBinding(button) => if button in t.gamepadButtonMap then W.Some(t.gamepadButtonMap[button]) else W.None
    case AxisBinding(axis) => if axis in t.gamepadAxisMap then W.Some(t.gamepadAxisMap[axis]) else W.None
    case KeyBinding(k) => if k in t.keyActionMap then W.Some(t.keyActionMap[k]) else W.None
    case OtherBinding => W.None
  }

  /** `u` keeps every key and button entry of `t` with its action, and every axis of `t`. */
  predicate Extends(t: Tables, u: Tables)
  {
    && (forall k :: k in t.keyActionMap ==> k in u.keyActionMap && u.keyActionMap[k] == t.keyActionMap[k])
    && (forall b :: b in t.gamepadButtonMap ==> b in u.gamepadButtonMap && u.gamepadButtonMap[b] == t.gamepadButtonMap[b])
    && t.gamepadAxisMap.Keys <= u.gamepadAxisMap.Keys
  }

  /** Building only adds entries: a bound key or button keeps its action, only axes are overwritten. */
  lemma {:induction false} AddBindingsGrows(t: Tables, action: string, bs: seq<Binding>)
    ensures Extends(t, AddBindings(t, action, bs).tables)
  {
    if bs != [] {
      AddBindingsGrows(t, action, bs[..|bs| - 1]);
    }
  }

  /** The same over a whole configuration. */
  lemma {:induction false} BuildGrows(t: Tables, config: Config)
    ensures Extends(t, BuildTables(t, config).tables)
  {
    if config != [] {
      var n := |config| - 1;
      BuildGrows(t, config[..n]);
      var prefix := BuildTables(t, config[..n]);
      if prefix.ok && !IsUiAction(config[n].0) {
        AddBindingsGrows(prefix.tables, config[n].0, config[n].1);
      }
    }
  }

  /** A pass that gets through has gained exactly the keys, buttons and axes its bindings name. */
  lemma {:induction false} AddBindingsDomain(t: Tables, action: string, bs: seq<Binding>)
    requires AddBindings(t, action, bs).ok
    ensures AddBindings(t, action, bs).tables.keyActionMap.Keys == t.keyActionMap.Keys + KeysOf(bs)
    ensures AddBindings(t, action, bs).tables.gamepadButtonMap.Keys == t.gamepadButtonMap.Keys + ButtonsOf(bs)
    ensures AddBindings(t, action, bs).tables.gamepadAxisMap.Keys == t.gamepadAxisMap.Keys + AxesOf(bs)
  {
    if bs != [] {
      NamedInputsSnoc(bs);
      AddBindingsDomain(t, action, bs[..|bs| - 1]);
    }
  }

  /** A successful `_Ready` has gained exactly the keys and buttons of the non-"ui_" actions. */
  lemma {:induction false} BuildDomain(t: Tables, config: Config)
    requires BuildTables(t, config).ok
    ensures BuildTables(t, config).tables.keyActionMap.Keys == t.keyActionMap.Keys + ConfigKeys(config)
    ensures BuildTables(t, config).tables.gamepadButtonMap.Keys == t.gamepadButtonMap.Keys + ConfigButtons(config)
  {
    if config != [] {
      var n := |config| - 1;
      ConfigInputsSnoc(config);
      BuildDomain(t, config[..n]);
      if !IsUiAction(config[n].0) {
        AddBindingsDomain(BuildTables(t, config[..n]).tables, config[n].0, config[n].1);
      }
    }
  }

  /** After a successful pass over an action's bindings, each of its keys and buttons maps to it. */
  lemma {:induction false} AddBindingsBinds(t: Tables, action: string, bs: seq<Binding>, b: Binding)
    requires AddBindings(t, action, bs).ok
    requires Exclusive(b) && b in bs
    ensures BoundTo(AddBindings(t, action, bs).tables, b) == W.Some(action)
  {
    var n := |bs| - 1;
    var prefix := AddBindings(t, action, bs[..n]);
    if bs[n] != b {
      assert b in bs[..n] by {
        var i :| 0 <= i < |bs| && bs[i] == b;
        assert bs[..n][i] == bs[i];
      }
      AddBindingsBinds(t, action, bs[..n], b);
    }
  }

  /** An entry that a pass over an action's bindings changes names one of them, and now maps to that action. */
  lemma {:induction false} AddBindingsBindsOnlyListed(t: Tables, action: string, bs: seq<Binding>, b: Binding)
    requires BoundTo(AddBindings(t, action, bs).tables, b) != BoundTo(t, b)
    ensures b in bs && BoundTo(AddBindings(t, action, bs).tables, b) == W.Some(action)
  {
    var n := |bs| - 1;
    var prefix := AddBindings(t, action, bs[..n]);
    if BoundTo(prefix.tables, b) != BoundTo(t, b) {
      AddBindingsBindsOnlyListed(t, action, bs[..n], b);
      var i :| 0 <= i < n && bs[..n][i] == b;
      assert bs[i] == b;
    }
  }

  /** A pass over bindings that include a key or button already bound fails. */
  lemma {:induction false} AddBindingsRejectsBound(t: Tables, action: string, bs: seq<Binding>, b: Binding)
    requires Exclusive(b) && BoundTo(t, b).Some?
    requires b in bs
    ensures !AddBindings(t, action, bs).ok
  {
    var n := |bs| - 1;
    var prefix := AddBindings(t, action, bs[..n]);
    if prefix.ok && bs[n] != b {
      assert b in bs[..n] by {
        var i :| 0 <= i < |bs| && bs[i] == b;
        assert bs[..n][i] == bs[i];
      }
      AddBindingsRejectsBound(t, action, bs[..n], b);
    } else if prefix.ok {
      AddBindingsGrows(t, action, bs[..n]);
    }
  }

  /** A key or button listed twice by one action makes its pass fail at the second occurrence. */
  lemma DuplicateWithinActionFails(t: Tables, action: string, bs: seq<Binding>, b: Binding, i: nat, j: nat)
    requires Exclusive(b) && i < j < |bs| && bs[i] == b && bs[j] == b
    ensures !AddBindings(t, action, bs).ok
  {
    var prefix := AddBindings(t, action, bs[..j]);
    if prefix.ok {
      assert bs[..j][i] == b;
      AddBindingsBinds(t, action, bs[..j], b);
      assert bs[..j + 1][..j] == bs[..j];
      AddBindingsStopsAtFailure(t, action, bs, j + 1);
    } else {
      AddBindingsStopsAtFailure(t, action, bs, j);
    }
  }

  /**
   * Routing: after a successful `_Ready`, every key and button bound by a
   * non-"ui_" action maps to that action.
   */
  lemma {:induction false} BuildBinds(t: Tables, config: Config, i: nat, b: Binding)
    requires BuildTables(t, config).ok
    requires i < |config| && !IsUiAction(config[i].0)
    requires Exclusive(b) && b in config[i].1
    ensures BoundTo(BuildTables(t, config).tables, b) == W.Some(config[i].0)
  {
    var n := |config| - 1;
    var prefix := BuildTables(t, config[..n]);
    if i == n {
      AddBindingsBinds(prefix.tables, config[n].0, config[n].1, b);
    } else {
      assert config[..n][i] == config[i];
      BuildBinds(t, config[..n], i, b);
      if !IsUiAction(config[n].0) {
        AddBindingsGrows(prefix.tables, config[n].0, config[n].1);
      }
    }
  }

  /**
   * Conversely, every entry a build adds or changes comes from a non-"ui_"
   * action that binds it, and maps to that action.
   */
  lemma {:induction false} BuildBindsOnlyConfigured(t: Tables, config: Config, b: Binding)
    requires BoundTo(BuildTables(t, config).tables, b) != BoundTo(t, b)
    ensures exists i :: 0 <= i < |config| && !IsUiAction(config[i].0) && b in config[i].1
                        && BoundTo(BuildTables(t, config).tables, b) == W.Some(config[i].0)
  {
    var n := |config| - 1;
    var prefix := BuildTables(t, config[..n]);
    var r := BuildTables(t, config).tables;
    if prefix.ok && !IsUiAction(config[n].0) && BoundTo(r, b) != BoundTo(prefix.tables, b) {
      AddBindingsBindsOnlyListed(prefix.tables, config[n].0, config[n].1, b);
      assert 0 <= n < |config| && !IsUiAction(config[n].0) && b in config[n].1 && r == AddBindings(prefix.tables, config[n].0, config[n].1).tables;
    } else {
      BuildBindsOnlyConfigured(t, config[..n], b);
      var i :| 0 <= i < n && !IsUiAction(config[..n][i].0) && b in config[..n][i].1
                && BoundTo(prefix.tables, b) == W.Some(config[..n][i].0);
      assert config[..n][i] == config[i];
    }
  }

  /**
   * A key or button bound by two non-"ui_" actions makes the build fail: the
   * second `Add` throws.
   */
  lemma {:induction false} DuplicateBindingFailsBuild(t: Tables, config: Config, name: string, bs: seq<Binding>, b: Binding)
    requires Exclusive(b)
    requires exists i :: 0 <= i < |config| && !IsUiAction(config[i].0) && b in config[i].1
    requires !IsUiAction(name) && b in bs
    ensures !BuildTables(t, config + [(name, bs)]).ok
  {
    var whole := config + [(name, bs)];
    assert whole[..|whole| - 1] == config;
    var prefix := BuildTables(t, config);
    if prefix.ok {
      var i :| 0 <= i < |config| && !IsUiAction(config[i].0) && b in config[i].1;
      BuildBinds(t, config, i, b);
      AddBindingsRejectsBound(prefix.tables, name, bs, b);
    }
  }

  /** An axis bound again silently goes to the later action. */
  lemma AxisRebindingKeepsLast(t: Tables, config: Config, name: string, axis: JoyAxis)
    requires BuildTables(t, config).ok && !IsUiAction(name)
    ensures var b := BuildTables(t, config + [(name, [AxisBinding(axis)])]);
            b.ok && b.tables.gamepadAxisMap[axis] == name
  {
    var bs := [AxisBinding(axis)];
    var whole := config + [(name, bs)];
    assert whole[..|whole| - 1] == config;
    assert whole[|whole| - 1] == (name, bs);
    assert bs[..0] == [];
    var prefix := BuildTables(t, config);
    assert AddBindings(prefix.tables, name, bs) == AddBinding(prefix.tables, name, AxisBinding(axis));
  }

  /** No table entry names a "ui_" action. */
  predicate NoUiNames(t: Tables)
  {
    && (forall k :: k in t.keyActionMap ==> !IsUiAction(t.keyActionMap[k]))
    && (forall a :: a in t.gamepadAxisMap ==> !IsUiAction(t.gamepadAxisMap[a]))
    && (forall b :: b in t.gamepadButtonMap ==> !IsUiAction(t.gamepadButtonMap[b]))
  }

  /** Building from tables free of "ui_" names never adds one: those actions are skipped. */
  lemma {:induction false} BuildSkipsUiActions(t: Tables, config: Config)
    requires NoUiNames(t)
    ensures NoUiNames(BuildTables(t, config).tables)
  {
    if config != [] {
      var n := |config| - 1;
      BuildSkipsUiActions(t, config[..n]);
      var prefix := BuildTables(t, config[..n]);
      if prefix.ok && !IsUiAction(config[n].0) {
        AddBindingsKeepsNames(prefix.tables, config[n].0, config[n].1);
      }
    }
  }

  /** Adding bindings for a non-"ui_" action keeps "ui_" names out of the tables. */
  lemma {:induction false} AddBindingsKeepsNames(t: Tables, action: string, bs: seq<Binding>)
    requires !IsUiAction(action) && NoUiNames(t)
    ensures NoUiNames(AddBindings(t, action, bs).tables)
  {
    if bs != [] {
      AddBindingsKeepsNames(t, action, bs[..|bs| - 1]);
    }
  }

  /**
   * `GetEventType`: echoed and non-action events are None; otherwise a pressed
   * event is Pressed (even if also flagged released), a released one Released,
   * and anything else Changed.
   */
  function GetEventType(ev: InputEvent): (t: InputEventType)
    ensures t == InputEventType.None <==> ev.echo || !ev.actionType
    ensures t != InputEventType.None ==> (t == Pressed <==> ev.pressed)
    ensures t == Released ==> !ev.pressed && ev.released
    ensures t == Changed ==> !ev.pressed && !ev.released && ev.actionType && !ev.echo
  {
    if ev.echo || !ev.actionType then InputEventType.None
    else if ev.pressed then Pressed
    else if ev.released then Released
    else Changed
  }

  predicate IsJoypad(ev: InputEvent)
  {
    ev.kind.JoypadButton? || ev.kind.JoypadMotion?
  }

  /** The device an event is routed to. */
  function DeviceId(ev: InputEvent): (d: int)
    ensures IsJoypad(ev) ==> d == ev.device + 1
    ensures !IsJoypad(ev) ==> d == ev.device
  {
    if TreatControllerAsSecondDevice && IsJoypad(ev) then ev.device + 1 else ev.device
  }

  /** The axis cutoff: values below 0.2, including every negative value, become 0. */
  function Deadzone(v: real): (r: real)
    ensures r == 0.0 || r >= AxisDeadzone
    ensures r == 0.0 <==> v < AxisDeadzone
    ensures v >= AxisDeadzone ==> r == v
  {
    if v < AxisDeadzone then 0.0 else v
  }

  /** The strength `GetActionFromEvent` reports: 1 or 0 for buttons and keys, the cut axis value for motion. */
  function Strength(ev: InputEvent): (s: real)
    ensures !ev.kind.JoypadMotion? ==> (s == 1.0 <==> ev.pressed && !ev.kind.OtherEvent?) && (s == 0.0 || s == 1.0)
    ensures ev.kind.JoypadMotion? ==> s == Deadzone(ev.kind.axisValue)
    ensures s >= 0.0
  {
    match ev.kind
    case JoypadButton(_) => if ev.pressed then 1.0 else 0.0
    case JoypadMotion(_, value) => Deadzone(value)
    case KeyEvent(_, _) => if ev.pressed then 1.0 else 0.0
    case OtherEvent => 0.0
  }

  /** The cutoff is idempotent: an observed value passes through it unchanged. */
  lemma DeadzoneIdempotent(v: real)
    ensures Deadzone(Deadzone(v)) == Deadzone(v)
    ensures v < 0.0 ==> Deadzone(v) == 0.0
  {
  }

  /**
   * The lookup-by-keycode drift: with only physical key `p` bound (to "jump"),
   * a key event whose physical key is `p` but whose layout keycode differs finds
   * no action, so `Input` ignores it; an event whose keycode is `p` finds "jump".
   */
  lemma KeycodeLookupMissesPhysicalBinding(m: InputManager, ev: InputEvent)
    requires ev.kind.KeyEvent? && ev.kind.keycode != ev.kind.physicalKeycode
    requires m.CurrentTables() == BuildTables(Tables(map[], map[], map[]), [("jump", [KeyBinding(ev.kind.physicalKeycode)])]).tables
    ensures BuildTables(Tables(map[], map[], map[]), [("jump", [KeyBinding(ev.kind.physicalKeycode)])]).ok
    ensures m.GetActionFromEvent(ev) == W.None
    ensures m.GetActionFromEvent(ev.(kind := KeyEvent(ev.kind.physicalKeycode, ev.kind.keycode))) == W.Some("jump")
  {
    var p := ev.kind.physicalKeycode;
    var t := Tables(map[], map[], map[]);
    var bs := [KeyBinding(p)];
    var config := [("jump", bs)];
    assert config[..0] == [] && bs[..0] == [];
    assert !IsUiAction("jump") by {
      assert "jump"[..3] != "ui_" by { assert "jump"[..3][0] == 'j'; }
    }
    assert AddBindings(t, "jump", bs) == Build(t.(keyActionMap := map[p := "jump"]), true);
    assert BuildTables(t, config) == AddBindings(t, "jump", bs);
  }

  /** A button event on a button that a successful build bound finds the binding action. */
  lemma ButtonEventFindsBoundAction(m: InputManager, t: Tables, config: Config, i: nat, ev: InputEvent)
    requires BuildTables(t, config).ok && m.CurrentTables() == BuildTables(t, config).tables
    requires i < |config| && !IsUiAction(config[i].0)
    requires ev.kind.JoypadButton? && ButtonBinding(ev.kind.buttonIndex) in config[i].1
    ensures m.GetActionFromEvent(ev) == W.Some(config[i].0)
  {
    BuildBinds(t, config, i, ButtonBinding(ev.kind.buttonIndex));
  }

  /** The action value of `action` on `device`, 0 when none is stored (`TryGetValue`'s default). */
  function StoredValue(values: map<(string, int), real>, action: string, device: int): real
  {
    if (action, device) in values then values[(action, device)] else 0.0
  }

  /** A value within 0.0001 of the one stored under `key` is a repeat; a missing key never is. */
  predicate IsRepeat(values: map<(string, int), real>, key: (string, int), strength: real)
  {
    key in values && Abs(values[key] - strength) < UnchangedEpsilon
  }

  /** Whether an axis registration is about `action`. */
  predicate Mentions(axis: InputAxis1D, action: string)
  {
    axis.negative == action || axis.positive == action
  }

  /** The axis payload: positive minus negative, missing values counting as 0. */
  function AxisValue(values: map<(string, int), real>, axis: InputAxis1D, device: int): real
  {
    StoredValue(values, axis.positive, device) - StoredValue(values, axis.negative, device)
  }

  class InputManager {
    var keyActionMap: map<Key, string>
    var gamepadAxisMap: map<JoyAxis, string>
    var gamepadButtonMap: map<JoyButton, string>
    var actionDeviceValueMap: map<(string, int), real>

    const keyPressedEventMap: SparseEventMap<(string, int), real>
    const keyReleasedEventMap: SparseEventMap<(string, int), real>
    const keyChangedEventMap: SparseEventMap<(string, int), real>
    const axisChangedEventMap: SparseEventMap<(InputAxis1D, int), real>

    ghost predicate Valid()
      reads this, keyPressedEventMap, keyReleasedEventMap, keyChangedEventMap, axisChangedEventMap
    {
      && keyPressedEventMap != keyReleasedEventMap
      && keyPressedEventMap != keyChangedEventMap
      && keyReleasedEventMap != keyChangedEventMap
      && keyPressedEventMap.Valid() && keyReleasedEventMap.Valid() && keyChangedEventMap.Valid()
      && axisChangedEventMap.Valid()
    }

    constructor ()
      ensures Valid()
      ensures CurrentTables() == Tables(map[], map[], map[]) && actionDeviceValueMap == map[]
      ensures fresh(keyPressedEventMap) && fresh(keyReleasedEventMap) && fresh(keyChangedEventMap) && fresh(axisChangedEventMap)
      ensures keyPressedEventMap.callbacks == keyReleasedEventMap.callbacks == keyChangedEventMap.callbacks == map[]
      ensures axisChangedEventMap.callbacks == map[]
    {
      keyActionMap, gamepadAxisMap, gamepadButtonMap := map[], map[], map[];
      actionDeviceValueMap := map[];
      keyPressedEventMap := new SparseEventMap();
      keyReleasedEventMap := new SparseEventMap();
      keyChangedEventMap := new SparseEventMap();
      axisChangedEventMap := new SparseEventMap();
    }

    function CurrentTables(): Tables
      reads this
    {
      Tables(keyActionMap, gamepadAxisMap, gamepadButtonMap)
    }

    /**
     * `_Ready`: fills the tables from the action map, skipping "ui_" actions.
     * A duplicate button or key ends it (the source throws) with the tables as
     * they stood; `ok` tells whether it got through.
     */
    method Ready(config: Config) returns (ok: bool)
      modifies this
      ensures var b := BuildTables(old(CurrentTables()), config);
              ok == b.ok && CurrentTables() == b.tables
      ensures actionDeviceValueMap == old(actionDeviceValueMap)
    {
      ghost var t0 := CurrentTables();
      for i := 0 to |config|
        invariant BuildTables(t0, config[..i]) == Build(CurrentTables(), true)
        invariant actionDeviceValueMap == old(actionDeviceValueMap)
      {
        assert config[..i + 1][..i] == config[..i];
        var (action, events) := config[i];
        if IsUiAction(action) {
          continue;
        }
        ghost var start := CurrentTables();
        for j := 0 to |events|
          invariant AddBindings(start, action, events[..j]) == Build(CurrentTables(), true)
          invariant actionDeviceValueMap == old(actionDeviceValueMap)
        {
          assert events[..j + 1][..j] == events[..j];
          match events[j]
          case ButtonBinding(button) =>
            if button in gamepadButtonMap {
              AddBindingsStopsAtFailure(start, action, events, j + 1);
              assert BuildTables(t0, config[..i + 1]) == Build(CurrentTables(), false);
              BuildStopsAtFailure(t0, config, i + 1);
              return false;
            }
            gamepadButtonMap := gamepadButtonMap[button := action];
          case AxisBinding(axis) =>
            gamepadAxisMap := gamepadAxisMap[axis := action];
          case KeyBinding(k) =>
            if k in keyActionMap {
              AddBindingsStopsAtFailure(start, action, events, j + 1);
              assert BuildTables(t0, config[..i + 1]) == Build(CurrentTables(), false);
              BuildStopsAtFailure(t0, config, i + 1);
              return false;
            }
            keyActionMap := keyActionMap[k := action];
          case OtherBinding =>
        }
        assert events[..|events|] == events;
      }
      assert config[..|config|] == config;
      return true;
    }

    /** The registry an event type selects; None selects none (null). */
    function GetMapForKeyType(t: InputEventType): (m: SparseEventMap?<(string, int), real>)
      reads this
      ensures m == null <==> t == InputEventType.None
    {
      match t
      case Pressed => keyPressedEventMap
      case Released => keyReleasedEventMap
      case Changed => keyChangedEventMap
      case None => null
    }

    /** The callbacks of `key` in the registry `t` selects; None selects nothing. */
    function Subscribers(t: InputEventType, key: (string, int)): seq<Callback>
      reads this, keyPressedEventMap, keyReleasedEventMap, keyChangedEventMap
    {
      var m := GetMapForKeyType(t);
      if m == null then [] else Lookup(m.callbacks, key)
    }

    /**
     * `GetActionFromEvent`'s table lookup: a button, axis or key event finds the
     * action its button, axis or key is bound to. Keys are looked up by the
     * layout `Keycode`, while `_Ready` binds them by `PhysicalKeycode`.
     */
    function GetActionFromEvent(ev: InputEvent): (action: W.Option<string>)
      reads this
      ensures ev.kind.JoypadButton? ==> action == BoundTo(CurrentTables(), ButtonBinding(ev.kind.buttonIndex))
      ensures ev.kind.JoypadMotion? ==> action == BoundTo(CurrentTables(), AxisBinding(ev.kind.axis))
      ensures ev.kind.KeyEvent? ==> action == BoundTo(CurrentTables(), KeyBinding(ev.kind.keycode))
      ensures ev.kind.OtherEvent? ==> action.None?
    {
      match ev.kind
      case JoypadButton(b) => if b in gamepadButtonMap then W.Some(gamepadButtonMap[b]) else W.None
      case JoypadMotion(a, _) => if a in gamepadAxisMap then W.Some(gamepadAxisMap[a]) else W.None
      case KeyEvent(k, _) => if k in keyActionMap then W.Some(keyActionMap[k]) else W.None
      case OtherEvent => W.None
    }

    /**
     * Subscribes `callback` to (`actionName`, `deviceId`) exactly; a device id of
     * -1 is an ordinary key. None selects no registry and the source throws.
     */
    method RegisterCallback(actionName: string, t: InputEventType, callback: Callback, deviceId: int)
      requires Valid() && t != InputEventType.None
      modifies GetMapForKeyType(t)
      ensures Valid()
      ensures GetMapForKeyType(t).callbacks == Register(old(GetMapForKeyType(t).callbacks), (actionName, deviceId), callback)
    {
      GetMapForKeyType(t).RegisterCallback((actionName, deviceId), callback);
    }

    /** The owner-exit hook of `RegisterCallback` (the source's private `RemoveCallback`). */
    method RemoveCallback(actionName: string, t: InputEventType, deviceId: int, callback: Callback)
      requires Valid() && t != InputEventType.None
      modifies GetMapForKeyType(t)
      ensures Valid()
      ensures GetMapForKeyType(t).callbacks == Unregister(old(GetMapForKeyType(t).callbacks), (actionName, deviceId), callback).0
    {
      var _ := GetMapForKeyType(t).RemoveCallback((actionName, deviceId), callback);
    }

    method RegisterAxisChangedCallback(positive: string, negative: string, callback: Callback, deviceId: int)
      requires Valid()
      modifies axisChangedEventMap
      ensures Valid()
      ensures axisChangedEventMap.callbacks ==
              Register(old(axisChangedEventMap.callbacks), (InputAxis1D(positive, negative), deviceId), callback)
    {
      axisChangedEventMap.RegisterCallback((InputAxis1D(positive, negative), deviceId), callback);
    }

    /** The owner-exit hook of `RegisterAxisChangedCallback`. */
    method AxisOwnerExited(positive: string, negative: string, callback: Callback, deviceId: int)
      requires Valid()
      modifies axisChangedEventMap
      ensures Valid()
      ensures axisChangedEventMap.callbacks ==
              Unregister(old(axisChangedEventMap.callbacks), (InputAxis1D(positive, negative), deviceId), callback).0
    {
      var _ := axisChangedEventMap.RemoveCallback((InputAxis1D(positive, negative), deviceId), callback);
    }

    /**
     * The axis part of `_Input`: the first registered axis key (in the registry's
     * unspecified key order) that mentions `action` is used, whatever device it
     * was registered for, and (axis, `deviceId`) is triggered with positive
     * minus negative. At most one axis fires; none if no key mentions `action`.
     */
    method DispatchAxis(action: string, deviceId: int) returns (fired: seq<Fired<real>>)
      requires Valid()
      ensures (forall k :: k in axisChangedEventMap.callbacks ==> !Mentions(k.0, action)) ==> fired == []
      ensures (exists k :: k in axisChangedEventMap.callbacks && Mentions(k.0, action)) ==>
              exists k :: k in axisChangedEventMap.callbacks && Mentions(k.0, action) &&
                fired == Fan(Lookup(axisChangedEventMap.callbacks, (k.0, deviceId)), AxisValue(actionDeviceValueMap, k.0, deviceId))
    {
      var keys := axisChangedEventMap.GetMappedEvents();
      var remaining := keys;
      fired := [];
      while remaining != {}
        invariant remaining <= keys
        invariant forall k :: k in keys - remaining ==> !Mentions(k.0, action)
        invariant fired == []
        decreases remaining
      {
        var k :| k in remaining;
        var (axis, requestedDeviceId) := k;
        if Mentions(axis, action) {
          var negative := StoredValue(actionDeviceValueMap, axis.negative, deviceId);
          var positive := StoredValue(actionDeviceValueMap, axis.positive, deviceId);
          fired := axisChangedEventMap.TriggerEvent((axis, deviceId), positive - negative);
          return;
        }
        remaining := remaining - {k};
      }
    }

    /**
     * `_Input`. Unclassified events, unbound inputs and repeats of a stored value
     * (closer than 0.0001) change nothing and fire nothing. Otherwise the value
     * is stored under (action, device) and, in this order, at most one axis
     * registration fires (`axisFired`), then Changed if the event is an edge,
     * then the event type's registry (`actionFired`), all keyed by the exact
     * computed device id and carrying the new strength.
     */
    method Input(ev: InputEvent) returns (axisFired: seq<Fired<real>>, actionFired: seq<Fired<real>>)
      requires Valid()
      modifies this
      ensures Valid()
      ensures CurrentTables() == old(CurrentTables())
      ensures var t := GetEventType(ev);
              var action := GetActionFromEvent(ev);
              if t == InputEventType.None || action.None? ||
                 IsRepeat(old(actionDeviceValueMap), (action.value, DeviceId(ev)), Strength(ev))
              then actionDeviceValueMap == old(actionDeviceValueMap) && axisFired == [] && actionFired == []
              else
                var key := (action.value, DeviceId(ev));
                && actionDeviceValueMap == old(actionDeviceValueMap)[key := Strength(ev)]
                && actionFired == (if IsEdge(t) then Fan(Subscribers(Changed, key), Strength(ev)) else [])
                                  + Fan(Subscribers(t, key), Strength(ev))
                && ((forall k :: k in axisChangedEventMap.callbacks ==> !Mentions(k.0, key.0)) ==> axisFired == [])
                && ((exists k :: k in axisChangedEventMap.callbacks && Mentions(k.0, key.0)) ==>
                     exists k :: k in axisChangedEventMap.callbacks && Mentions(k.0, key.0) &&
                       axisFired == Fan(Lookup(axisChangedEventMap.callbacks, (k.0, key.1)), AxisValue(actionDeviceValueMap, k.0, key.1)))
    {
      axisFired, actionFired := [], [];
      var inputEventType := GetEventType(ev);
      if inputEventType == InputEventType.None {
        return;
      }
      var deviceId := ev.device;
      if TreatControllerAsSecondDevice {
        if ev.kind.JoypadButton? || ev.kind.JoypadMotion? {
          deviceId := deviceId + 1;
        }
      }
      var found := GetActionFromEvent(ev);
      if found.None? {
        return;
      }
      var action := found.value;
      var strength := Strength(ev);
      var key := (action, deviceId);
      if IsRepeat(actionDeviceValueMap, key, strength) {
        return;
      }
      actionDeviceValueMap := actionDeviceValueMap[key := strength];
      axisFired := DispatchAxis(action, deviceId);
      if inputEventType == Pressed || inputEventType == Released {
        actionFired := keyChangedEventMap.TriggerEvent(key, actionDeviceValueMap[key]);
      }
      var more := GetMapForKeyType(inputEventType).TriggerEvent(key, strength);
      actionFired := actionFired + more;
    }
  }

  /** Once building has failed on a prefix of the configuration, the rest changes nothing. */
  lemma {:induction false} BuildStopsAtFailure(t: Tables, config: Config, i: nat)
    requires i <= |config|
    requires !BuildTables(t, config[..i]).ok
    ensures BuildTables(t, config) == BuildTables(t, config[..i])
    decreases |config| - i
  {
    if i < |config| {
      assert config[..i + 1][..i] == config[..i];
      BuildStopsAtFailure(t, config, i + 1);
    } else {
      assert config[..i] == config;
    }
  }

  /** Once adding has failed on a prefix of an action's bindings, the rest changes nothing. */
  lemma {:induction false} AddBindingsStopsAtFailure(t: Tables, action: string, bs: seq<Binding>, i: nat)
    requires i <= |bs|
    requires !AddBindings(t, action, bs[..i]).ok
    ensures AddBindings(t, action, bs) == AddBindings(t, action, bs[..i])
    decreases |bs| - i
  {
    if i < |bs| {
      assert bs[..i + 1][..i] == bs[..i];
      AddBindingsStopsAtFailure(t, action, bs, i + 1);
    } else {
      assert bs[..i] == bs;
    }
  }
}
