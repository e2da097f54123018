/**
 * A player's super-move charge and orb list
 * (Characters/Players/Scripts/PlayerState.cs). The charge is clamped to
 * [0, maximum] when assigned through its property but not when
 * `AddSuperCharge` adds to it; `onSuperChargeChanged` is reported as the
 * sequence of values it was invoked with.
 */
module PlayerStates {
  import opened Match3Recipes
  import opened Match3Containers

  /** Godot's `Mathf.Clamp`: the lower bound wins below it, the upper bound above it. */
  function Clamp(value: real, min: real, max: real): (r: real)
    ensures min <= max ==> min <= r <= max
    ensures min <= value <= max ==> r == value
    ensures value < min ==> r == min
    ensures value >= min && value > max ==> r == max
  {
    if value < min then min else if value > max then max else value
  }

  /** With `0 <= max`, a clamped charge lies in [0, max] and a charge already there is kept. */
  lemma ClampIntoRange(value: real, max: real)
    requires 0.0 <= max
    ensures 0.0 <= Clamp(value, 0.0, max) <= max
    ensures 0.0 <= value <= max <==> Clamp(value, 0.0, max) == value
  {
  }

  /** Clamping twice is clamping once. */
  lemma ClampIdempotent(value: real, max: real)
    requires 0.0 <= max
    ensures Clamp(Clamp(value, 0.0, max), 0.0, max) == Clamp(value, 0.0, max)
  {
    ClampIntoRange(value, max);
    ClampIntoRange(Clamp(value, 0.0, max), max);
  }

  class PlayerState {
    var superMoveCharge: real
    var maxSuperMoveCharge: real
    const container: Match3Container

    constructor (maxCharge: real)
      ensures superMoveCharge == 0.0 && maxSuperMoveCharge == maxCharge
      ensures fresh(container) && container.Valid() && container.orbs == []
    {
      superMoveCharge := 0.0;
      maxSuperMoveCharge := maxCharge;
      container := new Match3Container();
    }

    /** The `superMoveCharge` getter: the stored charge. */
    function SuperMoveCharge(): (r: real)
      reads this
      ensures r == superMoveCharge
    {
      superMoveCharge
    }

    /** The `superMoveCharge` setter: stores the value clamped to [0, maximum]. */
    method SetSuperMoveCharge(value: real)
      modifies this`superMoveCharge
      ensures SuperMoveCharge() == Clamp(value, 0.0, maxSuperMoveCharge)
      ensures 0.0 <= maxSuperMoveCharge ==> 0.0 <= SuperMoveCharge() <= maxSuperMoveCharge
    {
      superMoveCharge := Clamp(value, 0.0, maxSuperMoveCharge);
      if 0.0 <= maxSuperMoveCharge {
        ClampIntoRange(value, maxSuperMoveCharge);
      }
    }

    /**
     * `AddSuperCharge`: adds to the stored charge without clamping, so the
     * charge may pass the maximum, and announces the new charge once.
     */
    method AddSuperCharge(chargeAmount: real) returns (changed: seq<real>)
      modifies this`superMoveCharge
      ensures SuperMoveCharge() == old(SuperMoveCharge()) + chargeAmount
      ensures changed == [SuperMoveCharge()]
      ensures old(SuperMoveCharge()) == maxSuperMoveCharge && chargeAmount > 0.0 ==> SuperMoveCharge() > maxSuperMoveCharge
    {
      superMoveCharge := superMoveCharge + chargeAmount;
      changed := [superMoveCharge];
    }

    /** `KilledEnemy`: the defeated enemy's match type goes to this player's orb list. */
    method KilledEnemy(enemyMatchType: MatchType, canMake: seq<MatchType> -> bool) returns (notices: seq<Notice>)
      requires container.Valid()
      modifies container
      ensures container.Valid()
      ensures container.orbs == AddOrbModel(old(container.orbs), enemyMatchType, canMake)
      ensures notices == AddOrbNotices(old(container.orbs), enemyMatchType, canMake)
    {
      notices := container.AddOrb(enemyMatchType, canMake);
    }
  }
}
