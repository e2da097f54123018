/**
 * A named, growable list of accumulators (Game/Input/InputAction.cs).
 * Actions are objects: two actions with the same name are different
 * registry keys, as the source compares them by reference.
 */
module InputActions {
  import opened InputAccumulators

  class InputAction {
    /** Fixed at construction. */
    const name: string
    var accumulators: seq<InputAccumulator>

    constructor (name: string)
      ensures this.name == name && accumulators == []
    {
      this.name := name;
      accumulators := [];
    }

    /** `action.accumulators.Add(acc)`: the list grows at its end and is otherwise kept. */
    method AddAccumulator(acc: InputAccumulator)
      modifies this
      ensures accumulators == old(accumulators) + [acc]
    {
      accumulators := accumulators + [acc];
    }
  }
}
