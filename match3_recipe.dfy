/**
 * A match-3 recipe (Game/Match3/Match3Recipe.cs): three orb slots, and the
 * test whether a list of ingredients can be made from them, each slot used
 * at most once.
 */
module Match3Recipes {
  import opened Lists

  /** `MatchType`: no orb, or an orb of some kind (the kinds' names play no part here). */
  datatype MatchType = None | Kind(id: nat)

  /**
   * The source's `ingredients.All(ingredient => recipeCopy.Remove(ingredient))`:
   * each ingredient in turn must be removable from what is left of the pool,
   * stopping at the first that is not.
   */
  function AllRemovable(pool: seq<MatchType>, ingredients: seq<MatchType>): (r: bool)
    ensures r ==> |ingredients| <= |pool|
    decreases ingredients
  {
    if ingredients == [] then true
    else ingredients[0] in pool && AllRemovable(RemoveFirst(pool, ingredients[0]), ingredients[1..])
  }

  /** Removing one by one succeeds exactly when the ingredients form a sub-multiset of the pool. */
  lemma {:induction false} AllRemovableIsInclusion(pool: seq<MatchType>, ingredients: seq<MatchType>)
    ensures AllRemovable(pool, ingredients) <==> multiset(ingredients) <= multiset(pool)
    decreases ingredients
  {
    if ingredients != [] {
      var x := ingredients[0];
      var rest := ingredients[1..];
      assert ingredients == [x] + rest;
      assert multiset(ingredients) == multiset{x} + multiset(rest);
      if x in pool {
        RemoveFirstMultiset(pool, x);
        AllRemovableIsInclusion(RemoveFirst(pool, x), rest);
        assert multiset(pool) == multiset(RemoveFirst(pool, x)) + multiset{x};
      } else {
        assert multiset(pool)[x] == 0 && multiset(ingredients)[x] > 0;
      }
    }
  }

  /** A sub-multiset is no longer than its superset and holds only its elements. */
  lemma SubMultisetBounds(a: seq<MatchType>, b: seq<MatchType>)
    ensures multiset(a) <= multiset(b) ==> |a| <= |b| && forall x :: x in a ==> x in b
  {
    if multiset(a) <= multiset(b) {
      assert multiset(b) == multiset(a) + (multiset(b) - multiset(a));
      forall x | x in a
        ensures x in b
      {
        assert x in multiset(a);
      }
    }
  }

  /** What a recipe can make: at most three ingredients, all drawn from its slots. */
  predicate Makes(recipe: seq<MatchType>, ingredients: seq<MatchType>): (r: bool)
    ensures r ==> |ingredients| <= 3 && |ingredients| <= |recipe|
    ensures r ==> forall x :: x in ingredients ==> x in recipe
  {
    SubMultisetBounds(ingredients, recipe);
    |ingredients| <= 3 && multiset(ingredients) <= multiset(recipe)
  }

  /** The order of the ingredients does not matter. */
  lemma MakesIgnoresOrder(recipe: seq<MatchType>, a: seq<MatchType>, b: seq<MatchType>)
    requires multiset(a) == multiset(b)
    ensures Makes(recipe, a) <==> Makes(recipe, b)
  {
    assert |a| == |multiset(a)| == |multiset(b)| == |b|;
  }

  /** The empty list can always be made, and any recipe makes itself. */
  lemma MakesEmptyAndItself(recipe: seq<MatchType>)
    requires |recipe| == 3
    ensures Makes(recipe, []) && Makes(recipe, recipe)
  {
  }

  class Match3Recipe {
    /** `_recipe`: a list of three slots, replaced never, written in place by the setters. */
    var recipe: seq<MatchType>

    ghost predicate Valid()
      reads this
    {
      |recipe| == 3
    }

    /** The default recipe has three empty slots. */
    constructor ()
      ensures Valid() && recipe == [None, None, None]
    {
      recipe := [None, None, None];
    }

    constructor Of(type1: MatchType, type2: MatchType, type3: MatchType)
      ensures Valid() && recipe == [type1, type2, type3]
    {
      recipe := [type1, type2, type3];
    }

    function Type1(): (r: MatchType)
      requires Valid()
      reads this
      ensures r == recipe[0] && Makes(recipe, [r])
    {
      recipe[0]
    }

    function Type2(): (r: MatchType)
      requires Valid()
      reads this
      ensures r == recipe[1] && Makes(recipe, [r])
    {
      recipe[1]
    }

    function Type3(): (r: MatchType)
      requires Valid()
      reads this
      ensures r == recipe[2] && Makes(recipe, [r])
    {
      recipe[2]
    }

    method SetType1(value: MatchType)
      requires Valid()
      modifies this
      ensures Valid() && recipe == old(recipe)[0 := value]
      ensures Type1() == value && Type2() == old(Type2()) && Type3() == old(Type3())
    {
      recipe := recipe[0 := value];
    }

    method SetType2(value: MatchType)
      requires Valid()
      modifies this
      ensures Valid() && recipe == old(recipe)[1 := value]
      ensures Type2() == value && Type1() == old(Type1()) && Type3() == old(Type3())
    {
      recipe := recipe[1 := value];
    }

    method SetType3(value: MatchType)
      requires Valid()
      modifies this
      ensures Valid() && recipe == old(recipe)[2 := value]
      ensures Type3() == value && Type1() == old(Type1()) && Type2() == old(Type2())
    {
      recipe := recipe[2 := value];
    }

    /**
     * `CanMake`: false for more than three ingredients; otherwise each
     * ingredient is removed in turn from a copy of the slots, failing at the
     * first one that is not there. The recipe itself is left alone.
     */
    method CanMake(ingredients: seq<MatchType>) returns (b: bool)
      requires Valid()
      ensures b == (|ingredients| <= 3 && AllRemovable(recipe, ingredients))
      ensures b == Makes(recipe, ingredients)
    {
      AllRemovableIsInclusion(recipe, ingredients);
      if |ingredients| > 3 {
        return false;
      }
      var copy := recipe;
      var i := 0;
      while i < |ingredients|
        invariant 0 <= i <= |ingredients|
        invariant AllRemovable(recipe, ingredients) == AllRemovable(copy, ingredients[i..])
      {
        var ingredient := ingredients[i];
        assert ingredients[i..][1..] == ingredients[i + 1..];
        if ingredient !in copy {
          return false;
        }
        copy := RemoveFirst(copy, ingredient);
        i := i + 1;
      }
      return true;
    }
  }
}
