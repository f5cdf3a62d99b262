/**
 * Descriptor tables kept as a prefix of an array: removal moves the last
 * entry into the freed slot ("swap-remove"), so only the order changes.
 */
module Tables {

  /** The table after removing entry `i`: the last entry takes its place. */
  function SwapRemove(s: seq<int>, i: nat): (r: seq<int>)
    requires i < |s|
    ensures |r| == |s| - 1
  {
    s[i := s[|s| - 1]][..|s| - 1]
  }

  /** Swap-remove deletes exactly one occurrence of the removed entry. */
  lemma SwapRemoveMultiset(s: seq<int>, i: nat)
    requires i < |s|
    ensures multiset(SwapRemove(s, i)) == multiset(s) - multiset{s[i]}
  {
    var n := |s|;
    if i == n - 1 {
      assert SwapRemove(s, i) == s[..n - 1];
      assert s == s[..n - 1] + [s[n - 1]];
    } else {
      assert SwapRemove(s, i) == s[..i] + [s[n - 1]] + s[i + 1..n - 1];
      assert s == s[..i] + [s[i]] + s[i + 1..n - 1] + [s[n - 1]];
    }
  }

  /** The first position of `x` in `s`. */
  function IndexOf(s: seq<int>, x: int): (i: nat)
    requires x in s
    ensures i < |s| && s[i] == x && x !in s[..i]
  {
    if s[0] == x then 0 else 1 + IndexOf(s[1..], x)
  }

  /** A position holding `x` with no earlier `x` is the first position of `x`. */
  lemma {:induction false} IndexOfFirst(s: seq<int>, x: int, i: nat)
    requires i < |s| && s[i] == x && x !in s[..i]
    ensures IndexOf(s, x) == i
  {
    if i > 0 {
      assert s[0] == s[..i][0];
      assert s[1..][..i - 1] == s[..i][1..];
      IndexOfFirst(s[1..], x, i - 1);
    }
  }

  /** `a` and `b` hold the same non-negative entries, with the same multiplicities. */
  ghost predicate SameNonNegative(a: seq<int>, b: seq<int>) {
    forall x :: x >= 0 ==> multiset(a)[x] == multiset(b)[x]
  }

  /** Swap-removing a negative entry keeps every non-negative one. */
  lemma SwapRemoveNegative(s: seq<int>, i: nat)
    requires i < |s| && s[i] < 0
    ensures SameNonNegative(SwapRemove(s, i), s)
  {
    SwapRemoveMultiset(s, i);
  }

  lemma SameNonNegativeTrans(a: seq<int>, b: seq<int>, c: seq<int>)
    requires SameNonNegative(a, b) && SameNonNegative(b, c)
    ensures SameNonNegative(a, c)
  {
  }

  /** Overwriting one entry removes one occurrence of the old value and adds one of the new. */
  lemma MultisetUpdate(s: seq<int>, i: nat, v: int)
    requires i < |s|
    ensures multiset(s[i := v]) == multiset(s) - multiset{s[i]} + multiset{v}
  {
    assert s == s[..i] + [s[i]] + s[i + 1..];
    assert s[i := v] == s[..i] + [v] + s[i + 1..];
  }

  /** An entry at a second position occurs at least twice. */
  lemma RepeatedEntry(s: seq<int>, j: nat)
    requires 0 < j < |s|
    ensures s[j] == s[0] ==> multiset(s)[s[0]] >= 2
  {
    assert s == [s[0]] + s[1..];
    assert s[j] in s[1..];
  }
}
