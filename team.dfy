/**
 * Teams and team filters (Characters/Scripts/Team.cs). A filter is a byte of
 * flags; a team matches a filter through a shift-and-mask test on 32-bit
 * signed integers, which relies on the teams being declared in the flags'
 * order with `Unaffiliated` first.
 */
module Teams {

  datatype Team = Unaffiliated | Left | Right | Enemy

  /** `TeamFilter`, a `[Flags]` byte enum. */
  type TeamFilter = bv8

  const LeftFlag: TeamFilter := 1
  const RightFlag: TeamFilter := 2
  const EnemyFlag: TeamFilter := 4

  /** The enum's underlying value. */
  function Ordinal(team: Team): int
  {
    match team
    case Unaffiliated => 0
    case Left => 1
    case Right => 2
    case Enemy => 3
  }

  /** C#'s `<<` on `int` uses only the low five bits of its count: `-1` shifts by 31. */
  function ShiftCount(n: int): (c: nat)
    ensures c < 32
    ensures 0 <= n < 32 ==> c == n
    ensures n == -1 ==> c == 31
  {
    n % 32
  }

  /** A 32-bit pattern read as a two's-complement `int`. */
  function AsSigned(x: bv32): int
  {
    if x < 0x8000_0000 then x as int else x as int - 0x1_0000_0000
  }

  /** `TeamMatches`: `Unaffiliated` with the empty filter, else `(1 << team - 1 & filter) > 0`. */
  function TeamMatches(team: Team, filter: TeamFilter): (r: bool)
    ensures filter == 0 ==> (r <==> team == Unaffiliated)
    ensures team == Unaffiliated ==> (r <==> filter == 0)
  {
    if team == Unaffiliated && filter == 0 then true
    else AsSigned((1 as bv32 << ShiftCount(Ordinal(team) - 1)) & filter as bv32) > 0
  }

  /** The flag an affiliated team stands for. */
  function Flag(team: Team): TeamFilter
    requires team != Unaffiliated
  {
    match team
    case Left => LeftFlag
    case Right => RightFlag
    case Enemy => EnemyFlag
  }

  /**
   * What the test means: an affiliated team matches exactly the filters
   * holding its own flag, and `Unaffiliated` only the empty filter (its shift
   * lands on bit 31, outside any byte).
   */
  lemma MatchesMeansFlagSet(team: Team, filter: TeamFilter)
    ensures team == Unaffiliated ==> (TeamMatches(team, filter) <==> filter == 0)
    ensures team != Unaffiliated ==> (TeamMatches(team, filter) <==> filter & Flag(team) != 0)
  {
    var wide := filter as bv32;
    assert wide < 0x100;
    match team
    case Unaffiliated =>
      assert (1 as bv32 << 31) & wide == 0;
    case Left =>
      assert (1 as bv32 << 0) & wide == (filter & LeftFlag) as bv32;
    case Right =>
      assert (1 as bv32 << 1) & wide == (filter & RightFlag) as bv32;
    case Enemy =>
      assert (1 as bv32 << 2) & wide == (filter & EnemyFlag) as bv32;
  }

  /** No affiliated team matches the empty filter. */
  lemma EmptyFilterMatchesOnlyUnaffiliated(team: Team)
    ensures TeamMatches(team, 0) <==> team == Unaffiliated
  {
    MatchesMeansFlagSet(team, 0);
  }

  /** For an affiliated team, adding flags never turns a match into a non-match. */
  lemma MoreFlagsKeepMatches(team: Team, filter: TeamFilter, extra: TeamFilter)
    requires team != Unaffiliated && TeamMatches(team, filter)
    ensures TeamMatches(team, filter | extra)
  {
    MatchesMeansFlagSet(team, filter);
    MatchesMeansFlagSet(team, filter | extra);
    assert (filter | extra) & Flag(team) != 0;
  }
}
