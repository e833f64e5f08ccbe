/** Worked examples of the rules on concrete numbers. */
module Scenarios {
  import opened Util
  import opened Scoring
  import opened Ranking
  import opened CardSet
  import opened Game

  /** Five cards, three guessers, the first two guessed 2 and 1: the last one
      may not guess 2, and a guess of 3 does not bring the total to 5. */
  lemma ForbiddenLastGuessExample()
    ensures ForbiddenValue(5, [1, 2, 3], map[1 := 2, 2 := 1], 2) == Some(2)
    ensures SumOver([1, 2, 3], map[1 := 2, 2 := 1, 3 := 3]) != 5
  {
    var order: seq<int> := [1, 2, 3];
    assert order[..2] == [1, 2] && order[..2][..1] == [1] && order[..2][..1][..0] == [];
    var guesses := map[1 := 2, 2 := 1];
    assert SumOthers([], guesses, 2) == 0;
    assert SumOthers([1], guesses, 2) == 2;
    assert SumOthers([1, 2], guesses, 2) == 3;
    assert SumOthers(order, guesses, 2) == 3;
    var all := guesses[3 := 3];
    assert SumOver([], all) == 0;
    assert SumOver([1], all) == 2;
    assert SumOver([1, 2], all) == 3;
    assert SumOver(order, all) == 6;
  }

  /** The same five cards at the commit step: with guesses 2 and 1 stored and
      the third player to guess, committing 2 is undone and committing 3 ends
      the guessing. */
  lemma ForbiddenLastGuessCommit()
    ensures var cs := GameSet(1, 5, 1, [1, 2, 3], map[1 := 2, 2 := 1], map[], map[], Guessing, 2, 1);
            && GuessStep(cs, 2).outcome == TotalEqualsCards
            && GuessStep(cs, 2).next.guesses == map[1 := 2, 2 := 1]
            && GuessStep(cs, 3).outcome == GuessingDone
            && GuessStep(cs, 3).next.guesses == map[1 := 2, 2 := 1, 3 := 3]
  {
    var order: seq<int> := [1, 2, 3];
    assert order[..2] == [1, 2] && order[..2][..1] == [1] && order[..2][..1][..0] == [];
    var guesses := map[1 := 2, 2 := 1];
    var two := guesses[3 := 2];
    assert SumOver([], two) == 0;
    assert SumOver([1], two) == 2;
    assert SumOver([1, 2], two) == 3;
    assert SumOver(order, two) == 5;
    assert two - {3} == guesses;
    var three := guesses[3 := 3];
    assert SumOver([], three) == 0;
    assert SumOver([1], three) == 2;
    assert SumOver([1, 2], three) == 3;
    assert SumOver(order, three) == 6;
  }

  /** Exact guesses earn ten more than the wins; an overbid of two costs two
      points; an underbid earns just the wins. */
  lemma PointsExamples()
    ensures Points(2, 2) == 12 && Points(1, 1) == 11
    ensures Points(3, 1) == -2
    ensures Points(1, 3) == 3
  {
  }

  /** Totals 20, 20, 15 in ranking order get ranks 1, 1, 3. */
  lemma CompetitionRankExample()
    ensures RunStart([20, 20, 15], 0) + 1 == 1
    ensures RunStart([20, 20, 15], 1) + 1 == 1
    ensures RunStart([20, 20, 15], 2) + 1 == 3
  {
  }
}
