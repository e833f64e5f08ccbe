# Card game scorer — verified model of the game engine

This project models the game logic of a browser score keeper for a
trick-guessing card game ("Trump" / "Oh Hell"). A roster of players plays
several *sets*. A set has a number of cards, which is also its number of
rounds. Each set goes through the same stages:

1. **Choose start**: pick the player who guesses first. By default this is
   the player at position `sets.length mod players.length`.
2. **Guessing**: each player, in the order rotated from the starting player,
   guesses how many rounds they will win. The last guesser may not pick the
   one value that would make the guesses add up to the number of cards.
3. **Rounds**: the winner of each round is recorded until all rounds are
   played.
4. **Finalisation**: every player scores `w + 10` for an exact guess, `w - g`
   for an overbid and `w` for an underbid. The set is then appended to the
   history.

Totals skip the sets played before a player joined. The ranking sorts by
descending total, breaks ties by name, and uses standard competition ranks.

Files (one module each):

- `util.dfy` — `Option`, the `m[k] || 0` lookup `Get`, and duplicate-freedom.
- `roster.dfy` — players, `trim`, removal by id, `findIndex`, and the
  rotation that produces the guess order.
- `card_set.dfy` — the set record and its stages.
- `scoring.dfy` — the points formula, the sums behind the forbidden last
  guess, the points map of a finished set, and a player's total.
- `ranking.dfy` — the comparator sort and the rank-numbering loop.
- `standings.dfy` — the totals and the ranking table built from them.
- `game.dfy` — the session class `GameState` and one method per state
  change, plus the pure guess step and the invariants each step keeps.
- `scenarios.dfy` — worked examples on concrete numbers.

The session is a class whose fields the methods reassign, as the script
mutates its global `gameState`. The set in progress is a datatype value held
in `currentSet: Option<GameSet>`; the methods replace it where the script
updates `cs` field by field. UI guards become method preconditions: each stage's buttons only exist in
that stage. Deleting a player is modelled only between sets, and the
confirmed starting player is always on the roster; the script allows more
(see "## Left out"). A card
count that is not positive is an error outcome, because the script's handler
checks for it.

A finished set keeps the stage `Rounds`. The script never writes a
"complete" stage: it pushes the set to the history as it is.

## Model

| member | source | states |
|---|---|---|
| `Roster.TrimSpec` | script.js:142 | The trimmed name is the slice of the input between the first and the last non-space character, everything outside it is white space, and it is empty exactly when the input is all white space |
| `Roster.Trim` | script.js:142 | `name.trim()`: the input between the first position that is not white space and the end of the last such position, so never longer than the input; `TrimSpec` states what that slice is |
| `Roster.TrimIdempotent` | script.js:142 | A trimmed name has no white space left at either end to remove: trimming it again changes nothing |
| `Roster.Ids` | script.js:262 | `map(p => p.id)`: one id per player, position by position |
| `Roster.RemovePlayer` | script.js:134 | The remaining players are exactly those whose id differs from the removed id |
| `Roster.RemoveAppend` | script.js:134 | Removal keeps roster order: removing from two rosters laid end to end gives the two removals laid end to end |
| `Roster.RemoveOne` | script.js:134 | A single player is dropped exactly when it has the removed id |
| `Roster.RemoveAbsent` | script.js:134 | Removing an id that no player has leaves the roster unchanged |
| `Roster.RemoveCounts` | script.js:134 | Removal deletes every occurrence of the id and keeps every other id with its multiplicity |
| `Roster.RemoveIdempotent` | script.js:134 | Removing the same id twice is the same as removing it once |
| `Roster.RemoveKeepsUnique` | script.js:134 | A roster with distinct ids keeps distinct ids after a removal |
| `Roster.IndexOf` | script.js:260 | The result is the first position holding the id, or -1 exactly when no player has it |
| `Roster.Rotate` | script.js:261 | Position i of the rotation holds the element i places after the start, wrapping around; the rotation is a permutation |
| `Roster.IdsRotate` | script.js:261-262 | Rotating the players and then taking ids equals rotating the ids |
| `Roster.GuessOrderFrom` | script.js:259-262 | The guess order starts with the chosen player, is a permutation of the roster's ids, and is the id list rotated at that player's index |
| `Scoring.PointsMeaning` | script.js:535-541 | For counts g and w: the points exceed w iff the guess was exact; they are negative iff w < g, and then equal -(g - w); an underbid scores exactly w |
| `Scoring.Points` | script.js:535-541 | The points formula: the wins plus 10 on an exact guess, the wins minus the guess on an overbid, the wins on an underbid; `PointsMeaning` and `PointsExamples` state what it means |
| `Scoring.SumSplit` | script.js:293-296 | The full sum over the guess order is the sum skipping one position plus that position's entry |
| `Scoring.SumOver` | script.js:399 | The `reduce` adding each id's entry, 0 when missing, over the ids of an order; `SumAfterSet`, `SumIncrement` and `SumSplit` give its meaning |
| `Scoring.SumOthers` | script.js:293-296 | The same sum with the entry at the current guess index skipped; `SumSplit` ties it to the full sum |
| `Scoring.ForbiddenValue` | script.js:291-301 | The value shown as not allowed: only for the last guesser, the cards minus the other guesses when that lies in [0, cards]; `LastGuessForbiddenIff` proves it is the one guess that makes the total equal the cards |
| `Scoring.SumAfterSet` | script.js:393-399 | Storing guess v for the id at one position of a duplicate-free order makes the total the other guesses plus v |
| `Scoring.SumIncrement` | script.js:490 | One more win for a player in a duplicate-free order adds exactly one to the sum of wins over the order |
| `Scoring.LastGuessForbiddenIff` | script.js:291-301 | For the last guesser and a guess in [0, cards], the guesses add up to the cards iff the guess is the forbidden value |
| `Scoring.SomeGuessMissed` | script.js:401-402 | If the guesses and the wins have different sums over the order, some player's wins differ from their guess |
| `Scoring.MapSumRemove` | script.js:524 | The sum of a map's values is any one value plus the sum of the rest, whatever order the values are visited in |
| `Scoring.MapSumIncrement` | script.js:490 | Counting one more win for any id, with a missing entry read as 0, adds exactly one to the sum of the wins map |
| `Scoring.MapSum` | script.js:524 | The sum of all values of a map; `MapSumRemove` proves the order of visiting does not matter and `MapSumIncrement` what one more win does |
| `Scoring.SetPointsSpec` | script.js:529-543 | A finished set has a points entry for exactly the roster's ids, and each holds the formula applied to that player's guess and wins, each defaulting to 0 |
| `Scoring.SetPoints` | script.js:529-543 | The points written for the roster players in roster order; `SetPointsSpec` states its keys and values |
| `Scoring.TotalFromJoin` | script.js:602-616 | A total is 0 if the player joined after every set, and otherwise equals the plain sum over the sets from the join index on |
| `Scoring.TotalIgnoresEarlierSets` | script.js:606-611 | Two histories that agree on a player's points from the join index on give the same total, whatever the earlier sets hold |
| `Scoring.TotalAppend` | script.js:545 | Completing one more set adds the player's points in it to their total if they had joined by then, and nothing otherwise |
| `Scoring.Total` | script.js:605-612 | A player's points summed over the sets at or after their join index; `TotalFromJoin`, `TotalIgnoresEarlierSets` and `TotalAppend` give its meaning |
| `Ranking.NameLeTotal` | script.js:630 | Any two names are ordered one way or the other by the tie-break order |
| `Ranking.NameLe` | script.js:630 | The tie-break order: lexicographic order on character codes, standing for `localeCompare` at most 0; `NameLeTotal` and `NameLeTrans` prove it total and transitive |
| `Ranking.NameLeTrans` | script.js:630 | The tie-break order on names is transitive |
| `Ranking.PrecedesTrans` | script.js:626-631 | The ranking comparator is transitive: higher total first, then name order |
| `Ranking.Precedes` | script.js:626-631 | The comparator: a higher total first, a missing total read as 0, then the name order; `PrecedesTotal` and `PrecedesTrans` give its meaning |
| `Ranking.PrecedesTotal` | script.js:626-631 | For any two players one may come before the other, so the comparator orders every pair |
| `Ranking.SortedByPair` | script.js:626-631 | In a sequence in ranking order every player may come before every later player, not only the next one |
| `Ranking.Insert` | script.js:626-631 | Insertion adds exactly the one player to the sequence, and the result starts with either the new player or the old first one |
| `Ranking.InsertKeepsSorted` | script.js:626-631 | Inserting into a sequence in ranking order keeps it in ranking order |
| `Ranking.SortByTotal` | script.js:626-631 | The sorted roster is a permutation of the roster, ordered by descending total and then by name |
| `Ranking.RunStart` | script.js:642-647 | The result is where the run of equal scores containing position i begins: all scores from there to i are equal, and the one before differs |
| `Ranking.RunStartCountsHigher` | script.js:638-650 | In non-increasing scores, a run begins after exactly the number of strictly higher scores |
| `Ranking.AssignRanks` | script.js:634-650 | Each rank is one plus the start of its run of equal scores; on scores in ranking order it is one plus the number of strictly higher scores, and equal scores get equal ranks |
| `Game.GuessStep` | script.js:393-420 | Out-of-range guesses are ignored; an in-range guess is stored and the turn passes on exactly when the guesser is not the last; only the last guesser's in-range guess can be undone or end the guessing; a last guess whose total equals the cards is deleted again, and this happens exactly when the total equals the cards; otherwise rounds start at 1 with no wins, and the guesses do not sum to the cards |
| `Game.GuessUndoneIffForbidden` | script.js:291-301 | For the last guesser, the commit is undone exactly when the guess is the forbidden value shown by the guessing screen |
| `Game.GuessStepKeepsValid` | script.js:393-420 | A guess commit keeps the set-in-progress invariant and leaves the stage Guessing unless guessing is done |
| `Game.WinsCountRounds` | script.js:490 | One more win for a player of a duplicate-free guess order adds one to the wins counted over the map and over the order |
| `Game.Won` | script.js:490 | The wins with one more for the winner, a missing entry counting as 0; `MapSumIncrement` and `SumIncrement` state what it adds |
| `Game.AfterWin` | script.js:490-512 | The set after a recorded round: one more win for the winner and the next round; `RoundStepKeepsValid` states what it keeps |
| `Game.LastRoundStep` | script.js:446-450 | After the winner of the last round is counted, the wins add up to the cards and some player missed their guess |
| `Game.MidRoundStep` | script.js:490 | A winner counted before the last round leaves the wins equal to the rounds played, in the map and over the order, with the round still within the cards |
| `Game.AfterWinKeepsFrame` | script.js:490 | Counting a winner keeps the set's number, positive card count, empty points, starting player, guesses within range and guess order as they were required to be |
| `Game.RoundStepKeepsValid` | script.js:490 | A recorded winner keeps the invariant while rounds remain; after the last round the wins sum to the cards and some player missed their guess |
| `Game.SumWins` | script.js:524 | The loop returns the sum of all values in the wins map |
| `Game.WritePoints` | script.js:529-543 | The loop overwrites the points map with the formula's value for every roster player, as the points function says |
| `Game.Finalised` | script.js:529-545 | The set as it is pushed to the history: its points overwritten with the roster's points; `SetPointsSpec` gives their keys and values |
| `Game.AddKeepsRoster` | script.js:151-156 | A newcomer with the next id who joins after the completed sets keeps ids distinct and below the allocator |
| `Game.RemoveKeepsRoster` | script.js:134 | A removal keeps the roster invariant |
| `Standings.PlayerTotal` | script.js:605-612 | The loop's sum is the player's total: their points in every set from the join index on that has a number for them |
| `Standings.SortedScores` | script.js:626-631 | Players in ranking order have non-increasing totals, and players with equal totals are in name order |
| `Game.GameState.constructor` | script.js:4-9 | A fresh session has no players, no sets, no set in progress, and the next id is 1 |
| `CardSet.NewSet` | script.js:42-53 | The record a set starts from: the given number, cards and default starter, no order, empty maps, stage chooseStart, guess index 0 and round 1; `Game.GameState.StartSet` states when it is created |
| `Game.GameState.NewGame` | script.js:68-73 | A new game discards everything unconditionally and restarts the id allocator at 1 |
| `Game.GameState.AddPlayer` | script.js:141-156 | An empty trimmed name is refused, then a request during a set; otherwise the trimmed player gets id nextPlayerId and joinedAtSet = sets.length, is appended, the allocator moves up by one, and nothing else changes |
| `Game.GameState.DeletePlayer` | script.js:133-134 | The roster loses exactly the players with that id, an unknown id changes nothing, and sets and allocator are untouched |
| `Game.GameState.StartSet` | script.js:36-53 | Refused with no players, then during a set, then for a non-positive card count; otherwise the set is number sets.length + 1 with default start players[sets.length mod players.length], stage chooseStart, empty maps, guessIndex 0 and round 1 |
| `Game.GameState.ConfirmStart` | script.js:254-268 | The guess order becomes the roster rotated to start at the chosen id, a permutation of the ids; guesses, wins and points are emptied, guessIndex is 0 and the stage is guessing |
| `Game.GameState.CommitGuess` | script.js:380-420 | The accepted confirmation applies the guess step to the set in progress and keeps the session invariant |
| `Game.GameState.RecordRoundWinner` | script.js:484-516 | The winner's count goes up by one (missing counts as 0) and the round advances; after the last round the set is finalised, the wins-count warning never fires, and some player in the order missed their guess |
| `Game.GameState.FinishCurrentSet` | script.js:521-546 | Warns exactly when the wins do not sum to the cards, writes every roster player's points, appends the set to the history and clears the set in progress |
| `Standings.TotalsOfSpec` | script.js:602-616 | With distinct ids, the totals map has an entry for exactly the roster's ids, each holding that player's total |
| `Standings.TotalsOf` | script.js:602-616 | The totals map built player by player in roster order; `TotalsOfSpec` states its keys and values |
| `Standings.ComputeTotals` | script.js:602-616 | There is one total per roster player, and it is the sum of their points over the sets from their join index on |
| `Standings.RowsScoreTotals` | script.js:625-641 | Rows that list a rearrangement of the roster, with scores read from the totals map, show each player's own total |
| `Standings.RowsInRankOrder` | script.js:626-650 | Rows built from players in ranking order are in descending score and then name order, with each rank one plus the number of strictly higher scores |
| `Standings.RankingTable` | script.js:618-650 | Every roster player appears once with their total, in descending total and then name order, with rank one plus the number of strictly higher totals |
| `Scenarios.ForbiddenLastGuessExample` | script.js:291-301 | With 5 cards and guesses 2 and 1 before the last player, the forbidden value is 2 and a guess of 3 is allowed |
| `Scenarios.ForbiddenLastGuessCommit` | script.js:393-420 | With 5 cards and guesses 2 and 1 stored, committing 2 for the last player is undone and committing 3 ends the guessing |
| `Scenarios.PointsExamples` | script.js:535-541 | Exact guesses of 2 and 1 score 12 and 11; guess 3 with 1 win scores -2; guess 1 with 3 wins scores 3 |
| `Scenarios.CompetitionRankExample` | script.js:642-648 | Totals 20, 20, 15 in ranking order get ranks 1, 1, 3 |

## Left out

- Rendering and HTML building (`renderPlayers`, `renderCurrentSetInfo`, `renderActiveSet`, the stage UIs, `renderScoreboard`, `applyRankingBlur`) are presentation. The scoreboard's "-" for sets before a player joined is therefore not modelled, but totals skip those sets.
- `localStorage` persistence (`loadState`, `saveState`) and JSON parsing are browser I/O.
- The `setInterval` countdowns, the `confirmed` latch of the guess confirmation, and the `alert`/`confirm` prompts are host timer and dialog behaviour. Each confirmation is one atomic step. The "No" answer to a guess changes nothing, so it has no method.
- The round-winner countdown has no latch, but the click handler replaces the winner buttons at once (script.js:496), so a second win in one round needs something else to redraw the set area mid-countdown. The model records exactly one winner per round.
- The `parseInt` of button attributes and the card-count chooser (a fixed list 10 down to 1) are input plumbing. The card count is a parameter, and a non-positive one is refused.
- `localeCompare` is modelled as plain lexicographic order on character codes.
- Standings.RankingTable: does not state that players with equal totals and equal names keep roster order, although the insertion sort is stable.
- Game.GameState.DeletePlayer: requires that no set is in progress, following the script's own guard `const canDelete = !gameState.currentSet` (script.js:122). The page applies that guard only when the roster is redrawn, so the script does not enforce it: the delete buttons are enabled or disabled only when the roster is redrawn (script.js:122-126), and starting a set does not redraw it (script.js:36-62), so the first delete during a set goes through and filters the roster mid-set. The model does not capture a roster that no longer matches the guess order of the set in progress.
- Game.GameState.ConfirmStart: requires the chosen start id to be on the roster. After a mid-set delete, the start selector still offers the removed id (script.js:236-249). `findIndex` then gives -1 (script.js:260), and `slice(-1).concat(slice(0, -1))` (script.js:261) starts the guess order at the last roster player, not at the chosen id. The model does not capture that case.
