/**
 * The closed three-case tagged union `Variant<T1, T2, T3>`
 * (Shared/Scripts/Variant.cs), used as a dictionary key for keys, joypad
 * axes and joypad buttons. Payload equality is taken to be value equality,
 * which is what the enums stored in it have.
 */
module Variants {

  /** Which of the three payload types a `Variant` was built from (`Is<T>`). */
  datatype TypeTag = First | Second | Third

  /** Each constructor is one of the source's three constructors / implicit conversions. */
  datatype Variant<T1, T2, T3> = Of1(item1: T1) | Of2(item2: T2) | Of3(item3: T3)

  /** What `Equals(object)` may be handed: null, a variant, or any other object. */
  datatype Object<T1, T2, T3> = Null | AVariant(variant: Variant<T1, T2, T3>) | OtherObject

  /** The `index` field set by the constructor. */
  function Index<T1, T2, T3>(v: Variant<T1, T2, T3>): (i: nat)
    ensures i < 3
    ensures v.Of1? <==> i == 0
    ensures v.Of2? <==> i == 1
    ensures v.Of3? <==> i == 2
  {
    match v
    case Of1(_) => 0
    case Of2(_) => 1
    case Of3(_) => 2
  }

  function TagIndex(t: TypeTag): nat
  {
    match t
    case First => 0
    case Second => 1
    case Third => 2
  }

  /** `Is<T>()`: whether the stored payload has the type `t` names. */
  predicate Is<T1, T2, T3>(v: Variant<T1, T2, T3>, t: TypeTag): (r: bool)
    ensures r <==> Index(v) == TagIndex(t)
  {
    match v
    case Of1(_) => t == First
    case Of2(_) => t == Second
    case Of3(_) => t == Third
  }

  /** `Get<T1>()`; any other stored type makes the source's cast throw. */
  function Get1<T1, T2, T3>(v: Variant<T1, T2, T3>): (r: T1)
    requires Is(v, First)
    ensures v == Of1(r)
  {
    v.item1
  }

  /** `Get<T2>()`. */
  function Get2<T1, T2, T3>(v: Variant<T1, T2, T3>): (r: T2)
    requires Is(v, Second)
    ensures v == Of2(r)
  {
    v.item2
  }

  /** `Get<T3>()`. */
  function Get3<T1, T2, T3>(v: Variant<T1, T2, T3>): (r: T3)
    requires Is(v, Third)
    ensures v == Of3(r)
  {
    v.item3
  }

  /** `Equals(object)`: same index and equal payloads; null and non-variants are unequal. */
  predicate Equals<T1(==), T2(==), T3(==)>(v: Variant<T1, T2, T3>, obj: Object<T1, T2, T3>): (r: bool)
    ensures r <==> obj == AVariant(v)
  {
    match obj
    case Null => false
    case OtherObject => false
    case AVariant(other) =>
      Index(v) == Index(other) &&
      match (v, other)
      case (Of1(a), Of1(b)) => a == b
      case (Of2(a), Of2(b)) => a == b
      case (Of3(a), Of3(b)) => a == b
      case _ => false
  }

  /** `GetHashCode()`: the payload's own hash; `h1`, `h2`, `h3` are the payload types' hashes. */
  function HashCode<T1, T2, T3>(v: Variant<T1, T2, T3>, h1: T1 -> int, h2: T2 -> int, h3: T3 -> int): (r: int)
    ensures Is(v, First) ==> r == h1(Get1(v))
    ensures Is(v, Second) ==> r == h2(Get2(v))
    ensures Is(v, Third) ==> r == h3(Get3(v))
  {
    match v
    case Of1(a) => h1(a)
    case Of2(b) => h2(b)
    case Of3(c) => h3(c)
  }

  /** Each constructor sets `index` to its position, and `Is` names exactly its type. */
  lemma ConstructorsSetIndex<T1, T2, T3>(a: T1, b: T2, c: T3, t: TypeTag)
    ensures Index(Variant<T1, T2, T3>.Of1(a)) == 0 && Index(Variant<T1, T2, T3>.Of2(b)) == 1 && Index(Variant<T1, T2, T3>.Of3(c)) == 2
    ensures Is(Variant<T1, T2, T3>.Of1(a), t) <==> t == First
    ensures Is(Variant<T1, T2, T3>.Of2(b), t) <==> t == Second
    ensures Is(Variant<T1, T2, T3>.Of3(c), t) <==> t == Third
  {
  }

  /** `Is<T>` agrees with `index`. */
  lemma IsMatchesIndex<T1, T2, T3>(v: Variant<T1, T2, T3>, t: TypeTag)
    ensures Is(v, t) <==> Index(v) == TagIndex(t)
  {
  }

  /** Reading a variant back at the type it was built from gives the constructor argument. */
  lemma GetRoundTrip<T1, T2, T3>(a: T1, b: T2, c: T3)
    ensures Get1(Variant<T1, T2, T3>.Of1(a)) == a
    ensures Get2(Variant<T1, T2, T3>.Of2(b)) == b
    ensures Get3(Variant<T1, T2, T3>.Of3(c)) == c
  {
  }

  /**
   * `Equals` coincides with structural equality of the datatype, so the datatype
   * can stand for the source's class as a dictionary key. In particular it is
   * reflexive and symmetric, and variants of different cases are never equal.
   */
  lemma EqualsIsStructural<T1, T2, T3>(v: Variant<T1, T2, T3>, w: Variant<T1, T2, T3>)
    ensures Equals(v, AVariant(w)) <==> v == w
    ensures Equals(v, AVariant(v))
    ensures Equals(v, AVariant(w)) <==> Equals(w, AVariant(v))
    ensures Index(v) != Index(w) ==> !Equals(v, AVariant(w))
  {
  }

  /** Comparing with null or with an object that is not a variant gives false. */
  lemma EqualsRejectsNonVariants<T1, T2, T3>(v: Variant<T1, T2, T3>)
    ensures !Equals(v, Null) && !Equals(v, OtherObject)
  {
  }

  /** Equal variants have equal hash codes. */
  lemma EqualVariantsHashEqually<T1, T2, T3>(
    v: Variant<T1, T2, T3>, w: Variant<T1, T2, T3>, h1: T1 -> int, h2: T2 -> int, h3: T3 -> int)
    requires Equals(v, AVariant(w))
    ensures HashCode(v, h1, h2, h3) == HashCode(w, h1, h2, h3)
  {
  }
}
