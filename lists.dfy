/**
 * The `List<T>.Remove` operation the registry, the status entries and the
 * match-3 recipe rely on: delete the first equal element, if any.
 */
module Lists {
  /** `s` without its first occurrence of `x` (List.Remove). */
  function RemoveFirst<T(==)>(s: seq<T>, x: T): (r: seq<T>)
    ensures x !in s ==> r == s
    ensures x in s ==> |r| == |s| - 1
  {
    if s == [] then []
    else if s[0] == x then assert s == [s[0]] + s[1..]; s[1..]
    else assert s == [s[0]] + s[1..]; [s[0]] + RemoveFirst(s[1..], x)
  }

  /** `RemoveFirst` takes exactly one copy of `x` away, when there is one. */
  lemma {:induction false} RemoveFirstMultiset<T>(s: seq<T>, x: T)
    ensures multiset(RemoveFirst(s, x)) == multiset(s) - multiset{x}
  {
    if s != [] {
      assert s == [s[0]] + s[1..];
      RemoveFirstMultiset(s[1..], x);
    }
  }

  /** The position of the first occurrence of `x` in `s`. */
  function FirstIndex<T(==)>(s: seq<T>, x: T): (i: nat)
    requires x in s
    ensures i < |s| && s[i] == x && x !in s[..i]
  {
    if s[0] == x then 0
    else
      var j := FirstIndex(s[1..], x);
      assert s[..j + 1] == [s[0]] + s[1..][..j];
      j + 1
  }

  /**
   * `RemoveFirst` deletes exactly the first occurrence: what precedes it and
   * what follows it are kept, in order.
   */
  lemma {:induction false} RemoveFirstSplits<T>(s: seq<T>, x: T)
    requires x in s
    ensures RemoveFirst(s, x) == s[..FirstIndex(s, x)] + s[FirstIndex(s, x) + 1..]
  {
    if s[0] != x {
      var t := s[1..];
      RemoveFirstSplits(t, x);
      SplitsStep(s[0], t, FirstIndex(t, x), RemoveFirst(t, x));
      assert s == [s[0]] + t;
    }
  }

  /** One step of `RemoveFirstSplits`: splitting the tail at `j` splits the list at `j + 1`. */
  lemma SplitsStep<T>(h: T, t: seq<T>, j: nat, r: seq<T>)
    requires j < |t| && r == t[..j] + t[j + 1..]
    ensures [h] + r == ([h] + t)[..j + 1] + ([h] + t)[j + 2..]
  {
    assert ([h] + t)[..j + 1] == [h] + t[..j];
    assert ([h] + t)[j + 2..] == t[j + 1..];
  }

  /** Removing an element appended after a list that does not hold it restores the list. */
  lemma {:induction false} RemoveFirstOfAppended<T>(s: seq<T>, x: T)
    requires x !in s
    ensures RemoveFirst(s + [x], x) == s
  {
    if s != [] {
      assert (s + [x])[1..] == s[1..] + [x];
      RemoveFirstOfAppended(s[1..], x);
      assert [s[0]] + s[1..] == s;
    }
  }
}
