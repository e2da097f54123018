/**
 * Types shared by the input layer: the edge kinds of `InputEventType`
 * (Game/Input/InputManager.cs) and the physical input identity
 * `Variant<Key, JoyAxis, JoyButton>` used as a cache and table key.
 */
module InputTypes {
  import opened Variants

  /** The classification of an engine event. */
  datatype InputEventType = None | Pressed | Released | Changed

  /** Godot's `Key`, `JoyAxis` and `JoyButton` enums, by numeric value. */
  datatype Key = Key(code: int)
  datatype JoyAxis = JoyAxis(axis: int)
  datatype JoyButton = JoyButton(button: int)

  /** The physical input identity (`InputVariant` in the source). */
  type InputVariant = Variant<Key, JoyAxis, JoyButton>

  /** Pressed and Released are edges; an edge is also a change. */
  predicate IsEdge(t: InputEventType)
  {
    t == Pressed || t == Released
  }
}
