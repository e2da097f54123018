/**
 * A player's orb list (Game/Match3/Match3Container.cs). Orbs are appended
 * one by one; whenever the recipe table cannot make the list, every orb but
 * the newest is sent off as a single spawn and only the newest stays.
 *
 * The recipe table's `CanMake` is not part of this model: it is the
 * parameter `canMake`. The two events are reported as a trace of notices.
 */
module Match3Containers {
  import opened Match3Recipes

  /** An invocation of `onSpawnSingleRequested` or of `onOrbsChanged`, with its argument. */
  datatype Notice = SpawnSingleRequested(orb: MatchType) | OrbsChangedTo(orbs: seq<MatchType>)

  /** One spawn-single request per orb, in list order. */
  function Singles(orbs: seq<MatchType>): (r: seq<Notice>)
    ensures |r| == |orbs|
    ensures forall i :: 0 <= i < |orbs| ==> r[i] == SpawnSingleRequested(orbs[i])
  {
    seq(|orbs|, i requires 0 <= i < |orbs| => SpawnSingleRequested(orbs[i]))
  }

  /** The orb list after `AddOrb(orb)`. */
  function AddOrbModel(orbs: seq<MatchType>, orb: MatchType, canMake: seq<MatchType> -> bool): (r: seq<MatchType>)
    ensures orb == None ==> r == orbs
    ensures orb != None ==> r != [] && r[|r| - 1] == orb && (r == orbs + [orb] || r == [orb])
    ensures orb != None && canMake(orbs + [orb]) ==> r == orbs + [orb]
    ensures orb != None && !canMake(orbs + [orb]) ==> r == [orb]
    ensures None !in orbs ==> None !in r
  {
    if orb == None then orbs
    else if canMake(orbs + [orb]) then orbs + [orb]
    else [orb]
  }

  /** The notices of `AddOrb(orb)`: the flushed orbs, if any, then the new list. */
  function AddOrbNotices(orbs: seq<MatchType>, orb: MatchType, canMake: seq<MatchType> -> bool): (r: seq<Notice>)
    ensures orb == None <==> r == []
    ensures orb != None ==> r[|r| - 1] == OrbsChangedTo(AddOrbModel(orbs, orb, canMake))
    ensures orb != None ==> |r| == (if canMake(orbs + [orb]) then 1 else |orbs| + 1)
    ensures forall i :: 0 <= i < |r| - 1 ==> r[i] == SpawnSingleRequested(orbs[i])
  {
    if orb == None then []
    else (if canMake(orbs + [orb]) then [] else Singles(orbs)) + [OrbsChangedTo(AddOrbModel(orbs, orb, canMake))]
  }

  /**
   * Adding `None` changes nothing and says nothing. Any other orb leaves a
   * non-empty list ending with it, announced exactly once; the list is the
   * old one plus the orb when the table can make that, and otherwise just
   * the orb, after one spawn request for each old orb in order.
   */
  lemma AddOrbEffect(orbs: seq<MatchType>, orb: MatchType, canMake: seq<MatchType> -> bool)
    ensures orb == None ==> AddOrbModel(orbs, orb, canMake) == orbs && AddOrbNotices(orbs, orb, canMake) == []
    ensures orb != None ==>
              var r := AddOrbModel(orbs, orb, canMake);
              var n := AddOrbNotices(orbs, orb, canMake);
              && r != [] && r[|r| - 1] == orb
              && n[|n| - 1] == OrbsChangedTo(r)
              && (forall i :: 0 <= i < |n| - 1 ==> n[i].SpawnSingleRequested?)
              && (canMake(orbs + [orb]) ==> r == orbs + [orb] && |n| == 1)
              && (!canMake(orbs + [orb]) ==> r == [orb] && n[..|n| - 1] == Singles(orbs))
  {
    if orb != None {
      var n := AddOrbNotices(orbs, orb, canMake);
      var singles := if canMake(orbs + [orb]) then [] else Singles(orbs);
      assert n == singles + [OrbsChangedTo(AddOrbModel(orbs, orb, canMake))];
      assert n[..|n| - 1] == singles;
    }
  }

  /** `None` never enters the list. */
  lemma AddOrbKeepsNoneOut(orbs: seq<MatchType>, orb: MatchType, canMake: seq<MatchType> -> bool)
    requires None !in orbs
    ensures None !in AddOrbModel(orbs, orb, canMake)
  {
  }

  /** The orbs sent off as single spawns by a trace, in order. */
  function SpawnedOrbs(notices: seq<Notice>): (r: seq<MatchType>)
    ensures |r| <= |notices|
  {
    if notices == [] then []
    else (if notices[0].SpawnSingleRequested? then [notices[0].orb] else []) + SpawnedOrbs(notices[1..])
  }

  /** A run of spawn requests followed by one list announcement spawns exactly those orbs. */
  lemma {:induction false} SpawnedOrbsOfSingles(orbs: seq<MatchType>, changed: seq<MatchType>)
    ensures SpawnedOrbs(Singles(orbs) + [OrbsChangedTo(changed)]) == orbs
  {
    var n := Singles(orbs) + [OrbsChangedTo(changed)];
    if orbs == [] {
      assert n == [OrbsChangedTo(changed)];
      assert n[1..] == [];
    } else {
      SpawnedOrbsOfSingles(orbs[1..], changed);
      assert n[1..] == Singles(orbs[1..]) + [OrbsChangedTo(changed)];
    }
  }

  /**
   * Every orb added is either still in the list or was sent off as a single
   * spawn: nothing is lost and nothing is duplicated.
   */
  lemma AddOrbLosesNothing(orbs: seq<MatchType>, orb: MatchType, canMake: seq<MatchType> -> bool)
    requires orb != None
    ensures multiset(SpawnedOrbs(AddOrbNotices(orbs, orb, canMake))) + multiset(AddOrbModel(orbs, orb, canMake))
            == multiset(orbs) + multiset{orb}
  {
    var n := AddOrbNotices(orbs, orb, canMake);
    if canMake(orbs + [orb]) {
      SpawnedOrbsOfSingles([], orbs + [orb]);
      assert n == Singles([]) + [OrbsChangedTo(orbs + [orb])];
    } else {
      SpawnedOrbsOfSingles(orbs, [orb]);
    }
  }

  class Match3Container {
    var orbs: seq<MatchType>

    /** The container never holds `None`. */
    ghost predicate Valid()
      reads this
    {
      None !in orbs
    }

    constructor ()
      ensures Valid() && orbs == []
    {
      orbs := [];
    }

    /** `AddOrb`: ignores `None`; otherwise appends the orb and runs `OrbsChanged`. */
    method AddOrb(orb: MatchType, canMake: seq<MatchType> -> bool) returns (notices: seq<Notice>)
      requires Valid()
      modifies this
      ensures Valid()
      ensures orbs == AddOrbModel(old(orbs), orb, canMake)
      ensures notices == AddOrbNotices(old(orbs), orb, canMake)
    {
      notices := [];
      if orb == None {
        return;
      }
      orbs := orbs + [orb];
      notices := OrbsChanged(canMake);
    }

    /**
     * `OrbsChanged`: when the table cannot make the list, one spawn request
     * per orb but the last, in order, and the list is cut down to its last
     * orb; then the list is announced. The source calls it only on a
     * non-empty list (an empty one would make `RemoveRange` throw).
     */
    method OrbsChanged(canMake: seq<MatchType> -> bool) returns (notices: seq<Notice>)
      requires orbs != []
      modifies this
      ensures var last := old(orbs)[|old(orbs)| - 1];
              && orbs == (if canMake(old(orbs)) then old(orbs) else [last])
              && notices == (if canMake(old(orbs)) then [] else Singles(old(orbs)[..|old(orbs)| - 1])) + [OrbsChangedTo(orbs)]
    {
      notices := [];
      if !canMake(orbs) {
        for i := 0 to |orbs| - 1
          invariant notices == Singles(orbs[..i])
        {
          assert orbs[..i + 1] == orbs[..i] + [orbs[i]];
          notices := notices + [SpawnSingleRequested(orbs[i])];
        }
        orbs := orbs[|orbs| - 1..];
      }
      notices := notices + [OrbsChangedTo(orbs)];
    }
  }
}
