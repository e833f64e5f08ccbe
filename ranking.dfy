/** The ranking: players sorted by descending total with ties broken by name,
    and standard competition rank numbers (equal totals share the rank of the
    first of them; the next total gets its 1-based position). */
module Ranking {
  import opened Util
  import opened Roster

  /** Plain lexicographic order on names by character code, standing for
      `a.localeCompare(b) <= 0`. */
  predicate NameLe(a: string, b: string)
  {
    a == [] || (b != [] && (a[0] < b[0] || (a[0] == b[0] && NameLe(a[1..], b[1..]))))
  }

  /** Any two names are ordered one way or the other. */
  lemma {:induction false} NameLeTotal(a: string, b: string)
    ensures NameLe(a, b) || NameLe(b, a)
  {
    if a != [] && b != [] && a[0] == b[0] {
      NameLeTotal(a[1..], b[1..]);
    }
  }

  /** The name order is transitive. */
  lemma {:induction false} NameLeTrans(a: string, b: string, c: string)
    requires NameLe(a, b) && NameLe(b, c)
    ensures NameLe(a, c)
    decreases |a|
  {
    if a != [] && a[0] == b[0] && b[0] == c[0] {
      NameLeTrans(a[1..], b[1..], c[1..]);
    }
  }

  /** The comparator of the ranking: `a` may come before `b` when its total is
      higher, or equal with a name that is not later. */
  predicate Precedes(a: Player, b: Player, totals: map<int, int>)
  {
    var ta, tb := Get(totals, a.id), Get(totals, b.id);
    ta > tb || (ta == tb && NameLe(a.name, b.name))
  }

  lemma PrecedesTotal(a: Player, b: Player, totals: map<int, int>)
    ensures Precedes(a, b, totals) || Precedes(b, a, totals)
  {
    NameLeTotal(a.name, b.name);
  }

  lemma PrecedesTrans(a: Player, b: Player, c: Player, totals: map<int, int>)
    requires Precedes(a, b, totals) && Precedes(b, c, totals)
    ensures Precedes(a, c, totals)
  {
    if Get(totals, a.id) == Get(totals, b.id) == Get(totals, c.id) {
      NameLeTrans(a.name, b.name, c.name);
    }
  }

  /** Each player may come before the next. */
  ghost predicate SortedBy(s: seq<Player>, totals: map<int, int>)
  {
    forall i, j :: 0 <= i && j == i + 1 && j < |s| ==> Precedes(s[i], s[j], totals)
  }

  /** In a sequence in ranking order, any player may come before any later
      one, not only before the next. */
  lemma {:induction false} SortedByPair(s: seq<Player>, totals: map<int, int>, i: int, j: int)
    requires SortedBy(s, totals) && 0 <= i < j < |s|
    ensures Precedes(s[i], s[j], totals)
    decreases j - i
  {
    if j > i + 1 {
      SortedByPair(s, totals, i, j - 1);
      var k := j - 1;
      assert Precedes(s[k], s[j], totals);
      PrecedesTrans(s[i], s[k], s[j], totals);
    }
  }

  /** Puts `p` into a sequence, ahead of the first player it may come
      before. */
  function Insert(p: Player, s: seq<Player>, totals: map<int, int>): (r: seq<Player>)
    ensures |r| == |s| + 1
    ensures r[0] == p || (s != [] && r[0] == s[0])
    ensures multiset(r) == multiset(s) + multiset{p}
  {
    if s == [] then [p]
    else if Precedes(p, s[0], totals) then [p] + s
    else
      assert s == [s[0]] + s[1..];
      [s[0]] + Insert(p, s[1..], totals)
  }

  /** Inserting into a sorted sequence keeps it sorted. */
  lemma {:induction false} InsertKeepsSorted(p: Player, s: seq<Player>, totals: map<int, int>)
    requires SortedBy(s, totals)
    ensures SortedBy(Insert(p, s, totals), totals)
  {
    if s != [] {
      var r := Insert(p, s, totals);
      if Precedes(p, s[0], totals) {
        forall i, j | 0 <= i && j == i + 1 && j < |r| ensures Precedes(r[i], r[j], totals) {
          if i > 0 {
            assert r[i] == s[i - 1] && r[j] == s[j - 1];
          }
        }
      } else {
        var tail := s[1..];
        assert SortedBy(tail, totals) by {
          forall i, j | 0 <= i && j == i + 1 && j < |tail| ensures Precedes(tail[i], tail[j], totals) {
            assert tail[i] == s[i + 1] && tail[j] == s[j + 1];
          }
        }
        InsertKeepsSorted(p, tail, totals);
        PrecedesTotal(p, s[0], totals);
        var rest := Insert(p, tail, totals);
        assert Precedes(s[0], rest[0], totals);
        forall i, j | 0 <= i && j == i + 1 && j < |r| ensures Precedes(r[i], r[j], totals) {
          if i > 0 {
            assert r[i] == rest[i - 1] && r[j] == rest[j - 1];
          }
        }
      }
    }
  }

  /** `players.slice().sort(comparator)`: the players in ranking order. */
  function SortByTotal(ps: seq<Player>, totals: map<int, int>): (r: seq<Player>)
    ensures |r| == |ps|
    ensures multiset(r) == multiset(ps)
    ensures SortedBy(r, totals)
  {
    if ps == [] then []
    else
      assert ps == [ps[0]] + ps[1..];
      var rest := SortByTotal(ps[1..], totals);
      InsertKeepsSorted(ps[0], rest, totals);
      Insert(ps[0], rest, totals)
  }

  /** Scores never go up from one position to the next. */
  ghost predicate NonIncreasing(s: seq<int>)
  {
    forall i, j :: 0 <= i && j == i + 1 && j < |s| ==> s[i] >= s[j]
  }

  lemma {:induction false} NonIncreasingPairs(s: seq<int>, a: int, b: int)
    requires NonIncreasing(s) && 0 <= a <= b < |s|
    ensures s[a] >= s[b]
    decreases b - a
  {
    if a < b {
      NonIncreasingPairs(s, a + 1, b);
    }
  }

  /** Where the run of equal scores that contains position `i` begins. */
  function RunStart(s: seq<int>, i: int): (k: int)
    requires 0 <= i < |s|
    ensures 0 <= k <= i
    ensures forall j :: k <= j <= i ==> s[j] == s[i]
    ensures k == 0 || s[k - 1] != s[k]
  {
    if i == 0 || s[i - 1] != s[i] then i else RunStart(s, i - 1)
  }

  /** How many scores are strictly higher than `x`. */
  function CountAbove(s: seq<int>, x: int): nat
    decreases |s|
  {
    if s == [] then 0
    else CountAbove(s[..|s| - 1], x) + (if s[|s| - 1] > x then 1 else 0)
  }

  lemma {:induction false} CountAboveFirst(s: seq<int>, x: int, n: int)
    requires 0 <= n <= |s|
    requires forall j :: 0 <= j < n ==> s[j] > x
    requires forall j :: n <= j < |s| ==> s[j] <= x
    ensures CountAbove(s, x) == n
    decreases |s|
  {
    if s != [] {
      var t := s[..|s| - 1];
      if n == |s| {
        CountAboveFirst(t, x, n - 1);
      } else {
        CountAboveFirst(t, x, n);
      }
    }
  }

  /** In a non-increasing sequence the run holding position `i` starts after
      exactly the scores that are higher than `s[i]`. */
  lemma RunStartCountsHigher(s: seq<int>, i: int)
    requires NonIncreasing(s) && 0 <= i < |s|
    ensures RunStart(s, i) == CountAbove(s, s[i])
  {
    var k := RunStart(s, i);
    forall j | 0 <= j < k ensures s[j] > s[i] {
      NonIncreasingPairs(s, j, k - 1);
    }
    forall j | k <= j < |s| ensures s[j] <= s[i] {
      if j > i {
        NonIncreasingPairs(s, i, j);
      }
    }
    CountAboveFirst(s, s[i], k);
  }

  /** The rank loop: walks the scores in order, giving a score equal to the
      previous one the previous rank, and any other score its 1-based position.
      On scores in ranking order this is standard competition ranking. */
  method AssignRanks(scores: seq<int>) returns (ranks: seq<int>)
    ensures |ranks| == |scores|
    ensures forall i :: 0 <= i < |scores| ==> ranks[i] == RunStart(scores, i) + 1
    ensures NonIncreasing(scores) ==>
              forall i :: 0 <= i < |scores| ==> ranks[i] == CountAbove(scores, scores[i]) + 1
    ensures NonIncreasing(scores) ==>
              forall i, j :: 0 <= i < |scores| && 0 <= j < |scores| && scores[i] == scores[j] ==> ranks[i] == ranks[j]
  {
    var lastScore: Option<int> := None;
    var lastRank := 0;
    var index := 0;
    ranks := [];
    while index < |scores|
      invariant 0 <= index <= |scores| && |ranks| == index
      invariant forall i :: 0 <= i < index ==> ranks[i] == RunStart(scores, i) + 1
      invariant index == 0 ==> lastScore == None
      invariant index > 0 ==> lastScore == Some(scores[index - 1]) && lastRank == ranks[index - 1]
    {
      var score := scores[index];
      index := index + 1;
      var rank;
      if lastScore == Some(score) {
        rank := lastRank;
      } else {
        rank := index;
        lastRank := rank;
        lastScore := Some(score);
      }
      ranks := ranks + [rank];
    }
    if NonIncreasing(scores) {
      forall i | 0 <= i < |scores| ensures ranks[i] == CountAbove(scores, scores[i]) + 1 {
        RunStartCountsHigher(scores, i);
      }
    }
  }
}
