/** The standings shown under the game: each player's total over the
    completed sets and the ranking table built from the totals. Both read the
    roster and the history and change nothing. */
module Standings {
  import opened Util
  import opened Roster
  import opened CardSet
  import opened Scoring
  import opened Ranking

  /** One line of the ranking table. */
  datatype RankRow = RankRow(player: Player, rank: int, score: int)

  function RowPlayers(rows: seq<RankRow>): (r: seq<Player>)
    ensures |r| == |rows| && forall i :: 0 <= i < |rows| ==> r[i] == rows[i].player
  {
    seq(|rows|, i requires 0 <= i < |rows| => rows[i].player)
  }

  function RowScores(rows: seq<RankRow>): (r: seq<int>)
    ensures |r| == |rows| && forall i :: 0 <= i < |rows| ==> r[i] == rows[i].score
  {
    seq(|rows|, i requires 0 <= i < |rows| => rows[i].score)
  }

  /** The totals of the players, in the order given. */
  function ScoresOf(s: seq<Player>, totals: map<int, int>): (r: seq<int>)
    ensures |r| == |s| && forall i :: 0 <= i < |s| ==> r[i] == Get(totals, s[i].id)
  {
    seq(|s|, i requires 0 <= i < |s| => Get(totals, s[i].id))
  }

  /** The table rows for players, ranks and scores given position by position. */
  function Rows(s: seq<Player>, ranks: seq<int>, scores: seq<int>): (rows: seq<RankRow>)
    requires |ranks| == |s| && |scores| == |s|
    ensures RowPlayers(rows) == s && RowScores(rows) == scores
    ensures forall i :: 0 <= i < |s| ==> rows[i].rank == ranks[i]
  {
    seq(|s|, i requires 0 <= i < |s| => RankRow(s[i], ranks[i], scores[i]))
  }

  /** Players in ranking order have non-increasing totals, and equal totals
      are in name order. */
  lemma SortedScores(s: seq<Player>, totals: map<int, int>)
    requires SortedBy(s, totals)
    ensures NonIncreasing(ScoresOf(s, totals))
    ensures forall i, j :: 0 <= i && j == i + 1 && j < |s| ==>
              || Get(totals, s[i].id) > Get(totals, s[j].id)
              || (Get(totals, s[i].id) == Get(totals, s[j].id) && NameLe(s[i].name, s[j].name))
  {
  }

  /** The inner `forEach` of the totals: adds up the player's points in every
      completed set from the one they joined at on; a set with no number for
      them adds nothing. */
  method PlayerTotal(p: Player, sets: seq<GameSet>) returns (sum: int)
    ensures sum == Total(p.id, p.joinedAtSet, sets)
  {
    sum := 0;
    var index := 0;
    while index < |sets|
      invariant 0 <= index <= |sets|
      invariant sum == Total(p.id, p.joinedAtSet, sets[..index])
    {
      var s := sets[index];
      assert sets[..index + 1][..index] == sets[..index];
      if index >= p.joinedAtSet {
        if p.id in s.points {
          sum := sum + s.points[p.id];
        }
      }
      index := index + 1;
    }
    assert sets[..|sets|] == sets;
  }

  /** The totals map: for each player in roster order, their total written
      under their id. */
  function TotalsOf(ps: seq<Player>, sets: seq<GameSet>): map<int, int>
    decreases |ps|
  {
    if ps == [] then map[]
    else
      var last := ps[|ps| - 1];
      TotalsOf(ps[..|ps| - 1], sets)[last.id := Total(last.id, last.joinedAtSet, sets)]
  }

  /** The totals map has an entry for exactly the roster's ids, and with
      distinct ids each entry is that player's total. */
  lemma {:induction false} TotalsOfSpec(ps: seq<Player>, sets: seq<GameSet>)
    requires NoDuplicates(Ids(ps))
    ensures forall id :: id in TotalsOf(ps, sets) <==> id in Ids(ps)
    ensures forall p | p in ps :: TotalsOf(ps, sets)[p.id] == Total(p.id, p.joinedAtSet, sets)
    decreases |ps|
  {
    if ps != [] {
      var n := |ps|;
      var front, last := ps[..n - 1], ps[n - 1];
      assert ps == front + [last];
      IdsAppend(front, [last]);
      assert Ids(ps) == Ids(front) + [last.id];
      NoDuplicatesFront(Ids(front), last.id);
      TotalsOfSpec(front, sets);
      forall p | p in front ensures p.id != last.id {
        var k :| 0 <= k < n - 1 && front[k] == p;
        assert Ids(front)[k] == p.id;
      }
    }
  }

  /** Every current player's total over the completed sets, skipping the sets
      played before they joined. */
  method ComputeTotals(players: seq<Player>, sets: seq<GameSet>) returns (totals: map<int, int>)
    requires NoDuplicates(Ids(players))
    ensures forall id :: id in totals <==> id in Ids(players)
    ensures forall p | p in players :: totals[p.id] == Total(p.id, p.joinedAtSet, sets)
  {
    totals := map[];
    var i := 0;
    while i < |players|
      invariant 0 <= i <= |players|
      invariant totals == TotalsOf(players[..i], sets)
    {
      var p := players[i];
      var sum := PlayerTotal(p, sets);
      assert players[..i + 1][..i] == players[..i];
      totals := totals[p.id := sum];
      i := i + 1;
    }
    assert players[..|players|] == players;
    TotalsOfSpec(players, sets);
  }

  /** The ranking table: every current player once, by descending total and
      then by name, each with their total and their standard competition
      rank, one more than the number of players with a higher total. */
  method RankingTable(players: seq<Player>, sets: seq<GameSet>) returns (rows: seq<RankRow>)
    requires NoDuplicates(Ids(players))
    ensures |rows| == |players|
    ensures multiset(RowPlayers(rows)) == multiset(players)
    ensures forall i :: 0 <= i < |rows| ==>
              rows[i].score == Total(rows[i].player.id, rows[i].player.joinedAtSet, sets)
    ensures forall i, j :: 0 <= i && j == i + 1 && j < |rows| ==>
              || rows[i].score > rows[j].score
              || (rows[i].score == rows[j].score && NameLe(rows[i].player.name, rows[j].player.name))
    ensures forall i :: 0 <= i < |rows| ==> rows[i].rank == CountAbove(RowScores(rows), rows[i].score) + 1
  {
    var totals := ComputeTotals(players, sets);
    var sorted := SortByTotal(players, totals);
    var scores := ScoresOf(sorted, totals);
    SortedScores(sorted, totals);
    var ranks := AssignRanks(scores);
    rows := Rows(sorted, ranks, scores);
    RowsScoreTotals(players, sets, totals, sorted, rows);
    RowsInRankOrder(sorted, totals, ranks, scores, rows);
  }

  /** Rows built from players in ranking order, with ranks counting the
      strictly higher scores, are ordered and ranked as the table shows them. */
  lemma RowsInRankOrder(sorted: seq<Player>, totals: map<int, int>, ranks: seq<int>,
                        scores: seq<int>, rows: seq<RankRow>)
    requires SortedBy(sorted, totals) && scores == ScoresOf(sorted, totals)
    requires |ranks| == |scores|
    requires forall i :: 0 <= i < |scores| ==> ranks[i] == CountAbove(scores, scores[i]) + 1
    requires rows == Rows(sorted, ranks, scores)
    ensures forall i, j :: 0 <= i && j == i + 1 && j < |rows| ==>
              || rows[i].score > rows[j].score
              || (rows[i].score == rows[j].score && NameLe(rows[i].player.name, rows[j].player.name))
    ensures forall i :: 0 <= i < |rows| ==> rows[i].rank == CountAbove(RowScores(rows), rows[i].score) + 1
  {
    SortedScores(sorted, totals);
  }

  /** Each row's score is its player's total, when the rows list a
      rearrangement of the roster with the scores read from the totals. */
  lemma RowsScoreTotals(players: seq<Player>, sets: seq<GameSet>, totals: map<int, int>,
                        sorted: seq<Player>, rows: seq<RankRow>)
    requires forall p | p in players :: p.id in totals && totals[p.id] == Total(p.id, p.joinedAtSet, sets)
    requires multiset(sorted) == multiset(players)
    requires RowPlayers(rows) == sorted && RowScores(rows) == ScoresOf(sorted, totals)
    ensures forall i :: 0 <= i < |rows| ==>
              rows[i].score == Total(rows[i].player.id, rows[i].player.joinedAtSet, sets)
  {
    forall i | 0 <= i < |rows|
      ensures rows[i].score == Total(rows[i].player.id, rows[i].player.joinedAtSet, sets)
    {
      assert sorted[i] in multiset(players);
    }
  }
}
