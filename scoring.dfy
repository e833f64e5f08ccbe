/** The scoring engine: the points formula, the sums over a guess order that
    decide the forbidden last guess, the sum of a map's values that checks the
    round count, the points of a finished set and a player's running total. */
module Scoring {
  import opened Util
  import opened Roster
  import opened CardSet

  /** Points for a player who guessed `g` rounds and won `w`. */
  function Points(g: int, w: int): int
  {
    if w == g then w + 10 else if w < g then w - g else w
  }

  /** What the formula means for guesses and wins that are counts: only an
      exact guess earns more than the wins themselves, only an overbid goes
      below zero, by the size of the shortfall, and an underbid earns exactly
      the wins. */
  lemma PointsMeaning(g: int, w: int)
    requires 0 <= g && 0 <= w
    ensures Points(g, w) > w <==> w == g
    ensures Points(g, w) < 0 <==> w < g
    ensures w < g ==> Points(g, w) == -(g - w)
    ensures w > g ==> Points(g, w) == w
  {
  }

  /** The sum of `m[id] || 0` over the ids of `order`. */
  function SumOver(order: seq<int>, m: map<int, int>): int
    decreases |order|
  {
    if order == [] then 0
    else SumOver(order[..|order| - 1], m) + Get(m, order[|order| - 1])
  }

  /** Nobody has an entry yet: the sum is 0. */
  lemma {:induction false} SumOverEmpty(order: seq<int>)
    ensures SumOver(order, map[]) == 0
    decreases |order|
  {
    if order != [] {
      SumOverEmpty(order[..|order| - 1]);
    }
  }

  /** The same sum with the entry at position `skip` left out (the `reduce`
      that skips `guessIndex`). */
  function SumOthers(order: seq<int>, m: map<int, int>, skip: int): int
    decreases |order|
  {
    if order == [] then 0
    else
      SumOthers(order[..|order| - 1], m, skip)
      + (if |order| - 1 == skip then 0 else Get(m, order[|order| - 1]))
  }

  /** The value the guesser at `idx` may not choose: none unless `idx` is the
      last position; otherwise `cards` minus the other guesses, when that lies
      in `[0, cards]`. */
  function ForbiddenValue(cards: int, order: seq<int>, guesses: map<int, int>, idx: int): Option<int>
  {
    if idx != |order| - 1 then None
    else
      var needed := cards - SumOthers(order, guesses, idx);
      if 0 <= needed <= cards then Some(needed) else None
  }

  lemma {:induction false} SumOthersBeyond(order: seq<int>, m: map<int, int>, skip: int)
    requires skip < 0 || skip >= |order|
    ensures SumOthers(order, m, skip) == SumOver(order, m)
    decreases |order|
  {
    if order != [] {
      SumOthersBeyond(order[..|order| - 1], m, skip);
    }
  }

  /** Any position's entry plus the sum of all the others is the whole sum. */
  lemma {:induction false} SumSplit(order: seq<int>, m: map<int, int>, idx: int)
    requires 0 <= idx < |order|
    ensures SumOver(order, m) == SumOthers(order, m, idx) + Get(m, order[idx])
    decreases |order|
  {
    var n := |order|;
    if idx == n - 1 {
      SumOthersBeyond(order[..n - 1], m, idx);
    } else {
      SumSplit(order[..n - 1], m, idx);
    }
  }

  /** Changing the entry of a key held only at `skip` does not change the sum of
      the others. */
  lemma {:induction false} SumOthersIgnoresKey(order: seq<int>, m: map<int, int>, skip: int, k: int, v: int)
    requires forall j :: 0 <= j < |order| && j != skip ==> order[j] != k
    ensures SumOthers(order, m[k := v], skip) == SumOthers(order, m, skip)
    decreases |order|
  {
    if order != [] {
      SumOthersIgnoresKey(order[..|order| - 1], m, skip, k, v);
    }
  }

  /** Setting the entry of the id at `idx` of a duplicate-free order to `v`
      makes the whole sum the others plus `v`. */
  lemma SumAfterSet(order: seq<int>, m: map<int, int>, idx: int, v: int)
    requires NoDuplicates(order) && 0 <= idx < |order|
    ensures SumOver(order, m[order[idx] := v]) == SumOthers(order, m, idx) + v
  {
    var k := order[idx];
    forall j | 0 <= j < |order| && j != idx ensures order[j] != k {
      NoDuplicatesAt(order, j, idx);
    }
    SumSplit(order, m[k := v], idx);
    SumOthersIgnoresKey(order, m, idx, k, v);
  }

  /** One more for an id that occurs once in the order adds one to the sum. */
  lemma SumIncrement(order: seq<int>, m: map<int, int>, k: int)
    requires NoDuplicates(order) && k in order
    ensures SumOver(order, m[k := Get(m, k) + 1]) == SumOver(order, m) + 1
  {
    var idx :| 0 <= idx < |order| && order[idx] == k;
    SumAfterSet(order, m, idx, Get(m, k) + 1);
    SumSplit(order, m, idx);
  }

  /** The forbidden-guess rule: for the last guesser, a guess in `[0, cards]`
      brings the total of all guesses to exactly `cards` if and only if it is
      the forbidden value. */
  lemma LastGuessForbiddenIff(cards: int, order: seq<int>, guesses: map<int, int>, v: int)
    requires NoDuplicates(order) && |order| > 0
    requires 0 <= v <= cards
    ensures SumOver(order, guesses[order[|order| - 1] := v]) == cards
            <==> ForbiddenValue(cards, order, guesses, |order| - 1) == Some(v)
  {
    SumAfterSet(order, guesses, |order| - 1, v);
  }

  /** If the guesses do not add up to `cards` but the wins do, some player in
      the order did not win exactly what they guessed: somebody always misses. */
  lemma {:induction false} SomeGuessMissed(order: seq<int>, guesses: map<int, int>, wins: map<int, int>)
    requires SumOver(order, guesses) != SumOver(order, wins)
    ensures exists i :: 0 <= i < |order| && Get(guesses, order[i]) != Get(wins, order[i])
    decreases |order|
  {
    var n := |order|;
    if Get(guesses, order[n - 1]) == Get(wins, order[n - 1]) {
      SomeGuessMissed(order[..n - 1], guesses, wins);
      var i :| 0 <= i < n - 1 && Get(guesses, order[..n - 1][i]) != Get(wins, order[..n - 1][i]);
      assert order[..n - 1][i] == order[i];
    }
  }

  /** A map with entries has a key. */
  lemma SomeKey(m: map<int, int>)
    requires |m| != 0
    ensures exists k :: k in m
  {
    if forall j :: j !in m {
      assert false;
    }
  }

  /** The key whose value a nonempty map's sum takes first. */
  ghost function PickKey(m: map<int, int>): (k: int)
    requires |m| != 0
    ensures k in m
  {
    SomeKey(m);
    var k :| k in m;
    k
  }

  /** Taking one key out of a map leaves one entry fewer. */
  lemma RemoveKeySize(m: map<int, int>, k: int)
    requires k in m
    ensures |m - {k}| == |m| - 1
  {
    assert (m - {k}).Keys == m.Keys - {k};
  }

  /** The sum of all values of a map (`Object.values(m).reduce(+)`). */
  ghost function MapSum(m: map<int, int>): int
    decreases |m|
  {
    if |m| == 0 then 0
    else
      var k := PickKey(m);
      RemoveKeySize(m, k);
      m[k] + MapSum(m - {k})
  }

  /** The step that lets two keys trade places: summing `j` first or `k`
      first reaches the same map without both. */
  lemma MapSumSwap(m: map<int, int>, j: int, k: int)
    requires j in m && k in m && j != k
    requires MapSum(m) == m[j] + MapSum(m - {j})
    requires MapSum(m - {j}) == (m - {j})[k] + MapSum(m - {j} - {k})
    requires MapSum(m - {k}) == (m - {k})[j] + MapSum(m - {k} - {j})
    ensures MapSum(m) == m[k] + MapSum(m - {k})
  {
    assert m - {j} - {k} == m - {k} - {j};
  }

  /** The sum of a map is any one value plus the sum of the rest. */
  lemma MapSumRemove(m: map<int, int>, k: int)
    requires k in m
    ensures MapSum(m) == m[k] + MapSum(m - {k})
    decreases |m|
  {
    var j := PickKey(m);
    if j != k {
      RemoveKeySize(m, j);
      RemoveKeySize(m, k);
      MapSumRemove(m - {j}, k);
      MapSumRemove(m - {k}, j);
      MapSumSwap(m, j, k);
    }
  }

  /** Counting one more round for `k` adds one to the sum of the map. */
  lemma MapSumIncrement(m: map<int, int>, k: int)
    ensures MapSum(m[k := Get(m, k) + 1]) == MapSum(m) + 1
  {
    var m' := m[k := Get(m, k) + 1];
    MapSumRemove(m', k);
    assert m' - {k} == m - {k};
    if k in m {
      MapSumRemove(m, k);
    } else {
      assert m - {k} == m;
    }
  }

  /** The points map a set is finalised with: the entries written for the
      players in roster order. */
  function SetPoints(ps: seq<Player>, guesses: map<int, int>, wins: map<int, int>): map<int, int>
    decreases |ps|
  {
    if ps == [] then map[]
    else
      var last := ps[|ps| - 1];
      SetPoints(ps[..|ps| - 1], guesses, wins)[last.id := Points(Get(guesses, last.id), Get(wins, last.id))]
  }

  /** A finalised set has an entry for exactly the players of the roster, and
      each holds the points for that player's guess and wins. */
  lemma {:induction false} SetPointsSpec(ps: seq<Player>, guesses: map<int, int>, wins: map<int, int>)
    ensures forall id :: id in SetPoints(ps, guesses, wins) <==> id in Ids(ps)
    ensures forall p | p in ps ::
              SetPoints(ps, guesses, wins)[p.id] == Points(Get(guesses, p.id), Get(wins, p.id))
    decreases |ps|
  {
    if ps != [] {
      var n := |ps|;
      var front, last := ps[..n - 1], ps[n - 1];
      SetPointsSpec(front, guesses, wins);
      assert ps == front + [last];
      IdsAppend(front, [last]);
      assert Ids(ps) == Ids(front) + [last.id];
      var pts := SetPoints(ps, guesses, wins);
      assert pts == SetPoints(front, guesses, wins)[last.id := Points(Get(guesses, last.id), Get(wins, last.id))];
      forall p | p in ps ensures pts[p.id] == Points(Get(guesses, p.id), Get(wins, p.id)) {
        if p != last {
          assert p in front;
        }
      }
    }
  }

  /** What a set contributes to a player's total: their points in it, when it
      has a number for them, and nothing otherwise. */
  function PointsIn(s: GameSet, id: int): int
  {
    Get(s.points, id)
  }

  /** A player's total over the completed sets: the sum of their points in every
      set whose index is at least `joined`. */
  function Total(id: int, joined: nat, sets: seq<GameSet>): int
    decreases |sets|
  {
    if sets == [] then 0
    else
      Total(id, joined, sets[..|sets| - 1])
      + (if |sets| - 1 >= joined then PointsIn(sets[|sets| - 1], id) else 0)
  }

  /** Sets played before a player joined count for nothing: the total depends
      only on the sets from index `joined` on. */
  lemma {:induction false} TotalFromJoin(id: int, joined: nat, sets: seq<GameSet>)
    ensures joined >= |sets| ==> Total(id, joined, sets) == 0
    ensures joined <= |sets| ==> Total(id, joined, sets) == Total(id, 0, sets[joined..])
    decreases |sets|
  {
    if sets != [] {
      var n := |sets|;
      TotalFromJoin(id, joined, sets[..n - 1]);
      if joined < n {
        var tail := sets[joined..];
        assert tail[..|tail| - 1] == sets[..n - 1][joined..];
        assert tail[|tail| - 1] == sets[n - 1];
      } else if joined == n {
        assert sets[joined..] == [];
      }
    }
  }

  /** Two histories that agree on a player's points from `joined` on give the
      player the same total, whatever the earlier sets hold. */
  lemma {:induction false} TotalIgnoresEarlierSets(id: int, joined: nat, a: seq<GameSet>, b: seq<GameSet>)
    requires |a| == |b|
    requires forall i :: joined <= i < |a| ==> PointsIn(a[i], id) == PointsIn(b[i], id)
    ensures Total(id, joined, a) == Total(id, joined, b)
    decreases |a|
  {
    if a != [] {
      TotalIgnoresEarlierSets(id, joined, a[..|a| - 1], b[..|b| - 1]);
    }
  }

  /** Completing one more set adds the player's points in it to the total, if
      they had joined by then. */
  lemma TotalAppend(id: int, joined: nat, sets: seq<GameSet>, s: GameSet)
    ensures Total(id, joined, sets + [s])
            == Total(id, joined, sets) + (if joined <= |sets| then PointsIn(s, id) else 0)
  {
    assert (sets + [s])[..|sets|] == sets;
  }
}
