/** Small shared vocabulary: an optional value, the `m[k] || 0` lookup of the
    game's maps, and "every id occurs once". */
module Util {

  datatype Option<T> = None | Some(value: T)

  /** The value stored under `k`, or 0 when `k` has no entry (the script's
      `m[id] || 0`). */
  function Get(m: map<int, int>, k: int): int
  {
    if k in m then m[k] else 0
  }

  /** Every element of `s` occurs exactly once. */
  ghost predicate NoDuplicates(s: seq<int>)
  {
    forall x | x in multiset(s) :: multiset(s)[x] == 1
  }

  /** Two different positions of a duplicate-free sequence hold different values. */
  lemma NoDuplicatesAt(s: seq<int>, i: int, j: int)
    requires NoDuplicates(s)
    requires 0 <= i < |s| && 0 <= j < |s| && i != j
    ensures s[i] != s[j]
  {
    var lo, hi := if i < j then i else j, if i < j then j else i;
    assert s == s[..hi] + s[hi..];
    assert s[..hi][lo] == s[lo];
    assert s[hi..][0] == s[hi];
    assert multiset(s)[s[lo]] == multiset(s[..hi])[s[lo]] + multiset(s[hi..])[s[lo]];
    assert multiset(s[hi..])[s[lo]] == 0;
  }

  /** Dropping the last element keeps a sequence duplicate-free, and that
      element occurs nowhere before it. */
  lemma NoDuplicatesFront(s: seq<int>, x: int)
    requires NoDuplicates(s + [x])
    ensures NoDuplicates(s) && x !in s
  {
    assert multiset(s + [x]) == multiset(s) + multiset{x};
    forall y | y in multiset(s) ensures multiset(s)[y] == 1 {
      assert multiset(s + [x])[y] == multiset(s)[y] + multiset{x}[y];
    }
    assert x in multiset(s + [x]);
    assert multiset(s + [x])[x] == multiset(s)[x] + 1;
  }

  /** Rearranging a duplicate-free sequence keeps it duplicate-free. */
  lemma NoDuplicatesPermutation(s: seq<int>, t: seq<int>)
    requires NoDuplicates(t) && multiset(s) == multiset(t)
    ensures NoDuplicates(s)
  {
  }

  /** Writing one entry after a merge is merging with the entry written. */
  lemma MergeThenWrite(a: map<int, int>, b: map<int, int>, k: int, v: int)
    ensures (a + b)[k := v] == a + b[k := v]
  {
  }
}
