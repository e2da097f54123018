/**
 * An accumulator binds one physical input to a polarity and turns the
 * input's raw magnitude into a signed contribution
 * (Game/Input/InputAccumulator.cs).
 */
module InputAccumulators {
  import InputTypes

  datatype InputMappingType = None | Positive | Negative | Range

  datatype InputAccumulator = InputAccumulator(input: InputTypes.InputVariant, mappingType: InputMappingType)

  /** The factor each mapping type applies to the raw value. */
  function Polarity(t: InputMappingType): real
  {
    match t
    case None => 0.0
    case Positive => 1.0
    case Negative => -1.0
    case Range => 1.0
  }

  /** `InputAccumulator.Map`: the contribution of raw value `baseInputValue`. */
  function Map(acc: InputAccumulator, baseInputValue: real): (r: real)
    ensures r == Polarity(acc.mappingType) * baseInputValue
  {
    match acc.mappingType
    case None => 0.0
    case Negative => -baseInputValue
    case Positive => baseInputValue
    case Range => baseInputValue
  }

  /**
   * None silences its input, Positive and Range pass it through, Negative
   * negates it; every mapping sends 0 to 0 and never enlarges a magnitude.
   */
  lemma MapCases(input: InputTypes.InputVariant, v: real)
    ensures Map(InputAccumulator(input, None), v) == 0.0
    ensures Map(InputAccumulator(input, Positive), v) == v
    ensures Map(InputAccumulator(input, Range), v) == v
    ensures Map(InputAccumulator(input, Negative), v) == -v
    ensures forall t :: Map(InputAccumulator(input, t), 0.0) == 0.0
    ensures forall t :: -v <= Map(InputAccumulator(input, t), v) <= v || v <= Map(InputAccumulator(input, t), v) <= -v
  {
  }

  /** Opposite bindings of the same value cancel exactly. */
  lemma OppositeBindingsCancel(a: InputTypes.InputVariant, b: InputTypes.InputVariant, v: real)
    ensures Map(InputAccumulator(a, Positive), v) + Map(InputAccumulator(b, Negative), v) == 0.0
  {
  }
}
