/** The game session: the roster, the completed sets, the set in progress and
    the id allocator, with one method per state change the page makes. */
module Game {
  import opened Util
  import opened Roster
  import opened CardSet
  import opened Scoring

  /** Why a request was turned away; a rejected request changes nothing. */
  datatype Reason = EmptyName | SetInProgress | NoPlayers | InvalidCardCount

  datatype Outcome = Ok | Rejected(reason: Reason)

  /** What committing a guess did. */
  datatype GuessOutcome =
    | OutOfRange        // not in [0, cards]: ignored
    | Recorded          // stored; the next player guesses
    | TotalEqualsCards  // the last guess made the total equal the cards: undone
    | GuessingDone      // the last guess was stored; the rounds begin

  /** What holds of the set in progress, given the roster's ids and the number
      of completed sets: its number follows the history, it has cards, no
      points yet, its guess order (once chosen) is a permutation of the roster
      starting with the starting player, guesses lie in `[0, cards]`, and
      during the rounds the wins count the rounds played, in the map and over
      the guess order, while the guesses do not add up to the cards. */
  ghost predicate ActiveSetValid(cs: GameSet, ids: seq<int>, completed: nat)
  {
    SetFrame(cs, ids, completed) && RoundsCounted(cs)
  }

  /** The part of `ActiveSetValid` that recording a round does not touch. */
  ghost predicate SetFrame(cs: GameSet, ids: seq<int>, completed: nat)
  {
    && cs.setNumber == completed + 1
    && cs.cards > 0
    && cs.points == map[]
    && cs.startingPlayerId in ids
    && (forall k | k in cs.guesses :: 0 <= cs.guesses[k] <= cs.cards)
    && (cs.stage != ChooseStart ==>
          && multiset(cs.guessOrder) == multiset(ids)
          && cs.guessOrder[0] == cs.startingPlayerId)
    && (cs.stage == Guessing ==> 0 <= cs.guessIndex < |cs.guessOrder|)
  }

  /** During the rounds, the wins count the rounds played, in the map and over
      the guess order, and the guesses do not add up to the cards. */
  ghost predicate RoundsCounted(cs: GameSet)
  {
    cs.stage == Rounds ==>
      && 1 <= cs.currentRound <= cs.cards
      && MapSum(cs.wins) == cs.currentRound - 1
      && SumOver(cs.guessOrder, cs.wins) == cs.currentRound - 1
      && SumOver(cs.guessOrder, cs.guesses) != cs.cards
  }

  /** What committing a guess did, and the set in progress afterwards. */
  datatype GuessStepResult = GuessStepResult(outcome: GuessOutcome, next: GameSet)

  /** Committing guess `v` for the current player of the guess order (the
      range check of the guess handler and the accepting branch of its
      confirmation). A guess outside `[0, cards]` is ignored. Otherwise it is
      stored; before the last player the turn passes on; for the last player a
      total equal to the cards undoes the guess, which happens exactly when `v`
      is the forbidden value, and any other total starts round 1 with no wins. */
  function GuessStep(cs: GameSet, v: int): (res: GuessStepResult)
    requires 0 <= cs.guessIndex < |cs.guessOrder|
    ensures res.outcome == Recorded <==> 0 <= v <= cs.cards && cs.guessIndex < |cs.guessOrder| - 1
    ensures res.outcome == TotalEqualsCards || res.outcome == GuessingDone ==>
              0 <= v <= cs.cards && cs.guessIndex == |cs.guessOrder| - 1
    ensures var id := cs.guessOrder[cs.guessIndex];
            && (res.outcome == OutOfRange <==> !(0 <= v <= cs.cards))
            && (res.outcome == OutOfRange ==> res.next == cs)
            && (res.outcome == Recorded ==>
                  && cs.guessIndex < |cs.guessOrder| - 1
                  && res.next == cs.(guesses := cs.guesses[id := v], guessIndex := cs.guessIndex + 1))
            && (res.outcome == TotalEqualsCards ==> res.next == cs.(guesses := cs.guesses - {id}))
            && (res.outcome == GuessingDone ==>
                  && res.next == cs.(guesses := cs.guesses[id := v], stage := Rounds, currentRound := 1, wins := map[])
                  && SumOver(cs.guessOrder, res.next.guesses) != cs.cards)
    ensures |cs.guessOrder| > 0 && cs.guessIndex == |cs.guessOrder| - 1 && 0 <= v <= cs.cards ==>
              (res.outcome == TotalEqualsCards <==> SumOver(cs.guessOrder, cs.guesses[cs.guessOrder[cs.guessIndex] := v]) == cs.cards)
  {
    if !(0 <= v <= cs.cards) then GuessStepResult(OutOfRange, cs)
    else
      var id := cs.guessOrder[cs.guessIndex];
      var stored := cs.guesses[id := v];
      if cs.guessIndex < |cs.guessOrder| - 1 then
        GuessStepResult(Recorded, cs.(guesses := stored, guessIndex := cs.guessIndex + 1))
      else if SumOver(cs.guessOrder, stored) == cs.cards then
        assert stored - {id} == cs.guesses - {id};
        GuessStepResult(TotalEqualsCards, cs.(guesses := stored - {id}))
      else
        GuessStepResult(GuessingDone, cs.(guesses := stored, stage := Rounds, currentRound := 1, wins := map[]))
  }

  /** For the last player, the guess is undone exactly when it is the forbidden
      value. */
  lemma GuessUndoneIffForbidden(cs: GameSet, ids: seq<int>, completed: nat, v: int)
    requires ActiveSetValid(cs, ids, completed) && cs.stage == Guessing
    requires NoDuplicates(ids)
    requires cs.guessIndex == |cs.guessOrder| - 1 && 0 <= v <= cs.cards
    ensures (GuessStep(cs, v).outcome == TotalEqualsCards)
            == (ForbiddenValue(cs.cards, cs.guessOrder, cs.guesses, cs.guessIndex) == Some(v))
  {
    assert NoDuplicates(cs.guessOrder);
    LastGuessForbiddenIff(cs.cards, cs.guessOrder, cs.guesses, v);
  }

  /** Committing a guess keeps what holds of the set in progress, and the set
      stays in guessing unless the guessing is done. */
  lemma GuessStepKeepsValid(cs: GameSet, ids: seq<int>, completed: nat, v: int)
    requires ActiveSetValid(cs, ids, completed) && cs.stage == Guessing
    ensures ActiveSetValid(GuessStep(cs, v).next, ids, completed)
    ensures GuessStep(cs, v).next.stage == (if GuessStep(cs, v).outcome == GuessingDone then Rounds else Guessing)
  {
    var res := GuessStep(cs, v);
    if res.outcome == GuessingDone {
      SumOverEmpty(cs.guessOrder);
    }
  }

  /** The set in progress after `id` won the current round: one more win for
      them, and the next round. */
  function AfterWin(cs: GameSet, id: int): GameSet
  {
    cs.(wins := Won(cs.wins, id), currentRound := cs.currentRound + 1)
  }

  /** The wins with one more for `id`, a missing entry counting as 0. */
  function Won(wins: map<int, int>, id: int): map<int, int>
  {
    wins[id := Get(wins, id) + 1]
  }

  /** The set as the finalisation stores it: the points of the given players
      written over whatever points it held. */
  function Finalised(cs: GameSet, ps: seq<Player>): GameSet
  {
    cs.(points := cs.points + SetPoints(ps, cs.guesses, cs.wins))
  }

  /** Some player of the guess order won a number of rounds other than their
      guess. */
  ghost predicate SomeoneMissed(order: seq<int>, guesses: map<int, int>, wins: map<int, int>)
  {
    exists i :: 0 <= i < |order| && Get(guesses, order[i]) != Get(wins, order[i])
  }

  /** One more win for a player of the guess order adds one round to the
      wins, counted over the map and over the order. */
  lemma WinsCountRounds(order: seq<int>, wins: map<int, int>, id: int, played: int)
    requires NoDuplicates(order) && id in order
    requires MapSum(wins) == played && SumOver(order, wins) == played
    ensures MapSum(Won(wins, id)) == played + 1
    ensures SumOver(order, Won(wins, id)) == played + 1
  {
    SumIncrement(order, wins, id);
    MapSumIncrement(wins, id);
  }

  /** After the last round: the wins add up to the cards, and since the
      guesses do not, somebody missed. */
  lemma LastRoundStep(cs: GameSet, id: int)
    requires NoDuplicates(cs.guessOrder) && id in cs.guessOrder
    requires cs.stage == Rounds && RoundsCounted(cs) && cs.currentRound == cs.cards
    ensures MapSum(AfterWin(cs, id).wins) == cs.cards
    ensures SomeoneMissed(cs.guessOrder, cs.guesses, AfterWin(cs, id).wins)
  {
    WinsCountRounds(cs.guessOrder, cs.wins, id, cs.currentRound - 1);
    SomeGuessMissed(cs.guessOrder, cs.guesses, Won(cs.wins, id));
  }

  /** Before the last round: the next set still counts its rounds. */
  lemma MidRoundStep(cs: GameSet, id: int)
    requires NoDuplicates(cs.guessOrder) && id in cs.guessOrder
    requires cs.stage == Rounds && RoundsCounted(cs) && cs.currentRound < cs.cards
    ensures RoundsCounted(AfterWin(cs, id))
  {
    WinsCountRounds(cs.guessOrder, cs.wins, id, cs.currentRound - 1);
  }

  /** Counting a round for a player of the roster keeps what holds of the set
      in progress while rounds remain; after the last round the wins add up to
      the cards and some player in the order missed their guess. */
  lemma RoundStepKeepsValid(cs: GameSet, ids: seq<int>, completed: nat, id: int)
    requires ActiveSetValid(cs, ids, completed) && cs.stage == Rounds
    requires NoDuplicates(ids) && id in ids
    ensures var next := AfterWin(cs, id);
            && (next.currentRound <= cs.cards ==> ActiveSetValid(next, ids, completed))
            && (next.currentRound > cs.cards ==>
                  MapSum(next.wins) == cs.cards && SomeoneMissed(next.guessOrder, next.guesses, next.wins))
  {
    NoDuplicatesPermutation(cs.guessOrder, ids);
    assert id in multiset(cs.guessOrder);
    if cs.currentRound == cs.cards {
      LastRoundStep(cs, id);
    } else {
      MidRoundStep(cs, id);
      AfterWinKeepsFrame(cs, ids, completed, id);
    }
  }

  /** Recording a round changes nothing `SetFrame` looks at. */
  lemma AfterWinKeepsFrame(cs: GameSet, ids: seq<int>, completed: nat, id: int)
    requires SetFrame(cs, ids, completed)
    ensures SetFrame(AfterWin(cs, id), ids, completed)
  {
  }

  /** `Object.values(wins).reduce((sum, w) => sum + w, 0)`: the total number of
      rounds counted in the wins map, visiting its entries in any order. */
  method SumWins(wins: map<int, int>) returns (total: int)
    ensures total == MapSum(wins)
  {
    total := 0;
    var rest := wins;
    while |rest| != 0
      invariant total + MapSum(rest) == MapSum(wins)
      decreases |rest|
    {
      SomeKey(rest);
      var k :| k in rest;
      MapSumRemove(rest, k);
      total := total + rest[k];
      assert (rest - {k}).Keys == rest.Keys - {k};
      rest := rest - {k};
    }
  }

  /** The `forEach` of the finalisation: for each player in roster order, writes
      the points for their guess and wins (each missing entry counting as 0)
      into `points`. */
  method WritePoints(ps: seq<Player>, guesses: map<int, int>, wins: map<int, int>, points: map<int, int>)
    returns (pts: map<int, int>)
    ensures pts == points + SetPoints(ps, guesses, wins)
  {
    pts := points;
    var i := 0;
    while i < |ps|
      invariant 0 <= i <= |ps|
      invariant pts == points + SetPoints(ps[..i], guesses, wins)
    {
      var p := ps[i];
      var g := Get(guesses, p.id);
      var w := Get(wins, p.id);
      assert ps[..i + 1][..i] == ps[..i];
      ghost var before := SetPoints(ps[..i], guesses, wins);
      assert SetPoints(ps[..i + 1], guesses, wins) == before[p.id := Points(g, w)];
      MergeThenWrite(points, before, p.id, Points(g, w));
      pts := pts[p.id := Points(g, w)];
      i := i + 1;
    }
    assert ps[..|ps|] == ps;
  }

  /** Ids are distinct and below the allocator; nobody joined after the
      completed sets. */
  ghost predicate RosterOk(players: seq<Player>, completed: nat, nextId: int)
  {
    && 1 <= nextId
    && NoDuplicates(Ids(players))
    && (forall p | p in players :: p.id < nextId && p.joinedAtSet <= completed)
  }

  /** The roster is sound and a set in progress has players and is sound. */
  ghost predicate SessionOk(players: seq<Player>, sets: seq<GameSet>, current: Option<GameSet>, nextId: int)
  {
    && RosterOk(players, |sets|, nextId)
    && (current.Some? ==> |players| > 0 && ActiveSetValid(current.value, Ids(players), |sets|))
  }

  /** A newcomer with the next id, joining after the completed sets, keeps the
      roster sound. */
  lemma AddKeepsRoster(players: seq<Player>, completed: nat, nextId: int, name: string)
    requires RosterOk(players, completed, nextId)
    ensures RosterOk(players + [Player(nextId, name, completed)], completed, nextId + 1)
  {
    var p := Player(nextId, name, completed);
    IdsAppend(players, [p]);
    assert nextId !in Ids(players);
  }

  /** Removing a player keeps the roster sound. */
  lemma RemoveKeepsRoster(players: seq<Player>, completed: nat, nextId: int, id: int)
    requires RosterOk(players, completed, nextId)
    ensures RosterOk(RemovePlayer(players, id), completed, nextId)
  {
    RemoveKeepsUnique(players, id);
  }

  class GameState {
    var players: seq<Player>
    var sets: seq<GameSet>
    var currentSet: Option<GameSet>
    var nextPlayerId: int

    /** What holds of the session between two requests. */
    ghost predicate Valid()
      reads this
    {
      SessionOk(players, sets, currentSet, nextPlayerId)
    }

    /** A fresh session: no players, no sets, ids start at 1. */
    constructor ()
      ensures Valid()
      ensures players == [] && sets == [] && currentSet == None && nextPlayerId == 1
    {
      players, sets, currentSet, nextPlayerId := [], [], None, 1;
    }

    /** "New game": everything is discarded, unconditionally. */
    method NewGame()
      modifies this
      ensures Valid()
      ensures players == [] && sets == [] && currentSet == None && nextPlayerId == 1
    {
      players, sets, currentSet, nextPlayerId := [], [], None, 1;
    }

    /** Adds a player under the trimmed name. An empty name is refused first,
        then a request while a set is in progress; otherwise the player gets the
        next id, joins after the sets completed so far and goes to the end of
        the roster. */
    method AddPlayer(rawName: string) returns (r: Outcome)
      requires Valid()
      modifies this
      ensures Valid()
      ensures sets == old(sets) && currentSet == old(currentSet)
      ensures Trim(rawName) == [] ==> r == Rejected(EmptyName)
      ensures Trim(rawName) != [] && old(currentSet).Some? ==> r == Rejected(SetInProgress)
      ensures r == Ok <==> Trim(rawName) != [] && old(currentSet).None?
      ensures r.Rejected? ==> players == old(players) && nextPlayerId == old(nextPlayerId)
      ensures r == Ok ==>
                && players == old(players) + [Player(old(nextPlayerId), Trim(rawName), |sets|)]
                && nextPlayerId == old(nextPlayerId) + 1
    {
      var name := Trim(rawName);
      if name == [] {
        return Rejected(EmptyName);
      }
      if currentSet.Some? {
        return Rejected(SetInProgress);
      }
      var newPlayer := Player(nextPlayerId, name, |sets|);
      AddKeepsRoster(players, |sets|, nextPlayerId, name);
      players := players + [newPlayer];
      nextPlayerId := nextPlayerId + 1;
      r := Ok;
    }

    /** Removes every player with the id; an unknown id leaves the roster as it
        was. Only offered while no set is in progress. */
    method DeletePlayer(id: int)
      requires Valid() && currentSet.None?
      modifies this
      ensures Valid()
      ensures players == RemovePlayer(old(players), id)
      ensures id !in Ids(players)
      ensures sets == old(sets) && currentSet == old(currentSet) && nextPlayerId == old(nextPlayerId)
    {
      RemoveKeepsRoster(players, |sets|, nextPlayerId, id);
      RemoveCounts(players, id);
      players := RemovePlayer(players, id);
    }

    /** Starts a set of `cards` cards. Refused with no players, then while a set
        is in progress, then for a card count that is not positive. The set gets
        the next number and, as default starting player, the player at the
        position of the number of completed sets, counted round the roster. */
    method StartSet(cards: int) returns (r: Outcome)
      requires Valid()
      modifies this
      ensures Valid()
      ensures players == old(players) && sets == old(sets) && nextPlayerId == old(nextPlayerId)
      ensures |players| == 0 ==> r == Rejected(NoPlayers)
      ensures |players| > 0 && old(currentSet).Some? ==> r == Rejected(SetInProgress)
      ensures |players| > 0 && old(currentSet).None? && cards <= 0 ==> r == Rejected(InvalidCardCount)
      ensures r == Ok <==> |players| > 0 && old(currentSet).None? && cards > 0
      ensures r.Rejected? ==> currentSet == old(currentSet)
      ensures r == Ok ==>
                currentSet == Some(NewSet(|sets| + 1, cards, players[|sets| % |players|].id))
    {
      if |players| == 0 {
        return Rejected(NoPlayers);
      }
      if currentSet.Some? {
        return Rejected(SetInProgress);
      }
      if cards <= 0 {
        return Rejected(InvalidCardCount);
      }
      var setIndex := |sets|;
      var defaultStartIndex := setIndex % |players|;
      var defaultStartPlayerId := players[defaultStartIndex].id;
      currentSet := Some(NewSet(setIndex + 1, cards, defaultStartPlayerId));
      r := Ok;
    }

    /** Confirms the starting player: the guess order becomes the roster rotated
        to begin with them, guesses, wins and points are emptied and guessing
        begins with the first player of the order. */
    method ConfirmStart(startId: int)
      requires Valid() && currentSet.Some? && currentSet.value.stage == ChooseStart
      requires startId in Ids(players)
      modifies this
      ensures Valid()
      ensures players == old(players) && sets == old(sets) && nextPlayerId == old(nextPlayerId)
      ensures var cs := old(currentSet.value);
              currentSet == Some(cs.(startingPlayerId := startId,
                                     guessOrder := GuessOrderFrom(players, startId),
                                     stage := Guessing, guessIndex := 0,
                                     guesses := map[], wins := map[], points := map[]))
      ensures currentSet.value.guessOrder[0] == startId
      ensures multiset(currentSet.value.guessOrder) == multiset(Ids(players))
    {
      var cs := currentSet.value;
      var order := GuessOrderFrom(players, startId);
      currentSet := Some(cs.(startingPlayerId := startId, guessOrder := order,
                             stage := Guessing, guessIndex := 0,
                             guesses := map[], wins := map[], points := map[]));
    }

    /** Commits the current player's guess `v`, as `GuessStep` says. */
    method CommitGuess(v: int) returns (r: GuessOutcome)
      requires Valid() && currentSet.Some? && currentSet.value.stage == Guessing
      modifies this
      ensures Valid()
      ensures players == old(players) && sets == old(sets) && nextPlayerId == old(nextPlayerId)
      ensures r == GuessStep(old(currentSet.value), v).outcome
      ensures currentSet == Some(GuessStep(old(currentSet.value), v).next)
    {
      var cs := currentSet.value;
      GuessStepKeepsValid(cs, Ids(players), |sets|, v);
      var res := GuessStep(cs, v);
      currentSet := Some(res.next);
      r := res.outcome;
    }

    /** Records `id` as the winner of the current round (the winner handler and
        the countdown that follows it, as one step): their wins go up by one, the
        round advances, and after the last round the set is finalised. The
        wins then add up to the cards, so the finalisation never warns, and
        since the guesses do not add up to the cards some player in the order
        missed their guess. */
    method RecordRoundWinner(id: int) returns (finished: bool, warning: bool)
      requires Valid() && currentSet.Some? && currentSet.value.stage == Rounds
      requires id in Ids(players)
      modifies this
      ensures Valid()
      ensures players == old(players) && nextPlayerId == old(nextPlayerId)
      ensures finished == (old(currentSet.value.currentRound) >= old(currentSet.value.cards))
      ensures !finished ==> currentSet == Some(AfterWin(old(currentSet.value), id)) && sets == old(sets)
      ensures finished ==> currentSet == None
      ensures finished ==> sets == old(sets) + [Finalised(AfterWin(old(currentSet.value), id), players)]
      ensures !warning
      ensures finished ==>
                var done := sets[|sets| - 1];
                SomeoneMissed(done.guessOrder, done.guesses, done.wins)
    {
      var cs := currentSet.value;
      RoundStepKeepsValid(cs, Ids(players), |sets|, id);
      cs := AfterWin(cs, id);
      currentSet := Some(cs);
      finished := cs.currentRound > cs.cards;
      warning := false;
      if finished {
        warning := FinishCurrentSet();
      }
    }

    /** Finalises the current set: sums the wins (a mismatch with the cards is
        only reported), writes every current player's points in roster order,
        appends the set to the history and clears the current set. */
    method FinishCurrentSet() returns (warning: bool)
      requires RosterOk(players, |sets|, nextPlayerId) && currentSet.Some?
      modifies this
      ensures Valid()
      ensures players == old(players) && nextPlayerId == old(nextPlayerId)
      ensures warning == (MapSum(old(currentSet.value.wins)) != old(currentSet.value.cards))
      ensures sets == old(sets) + [Finalised(old(currentSet.value), players)]
      ensures currentSet == None
    {
      var cs := currentSet.value;
      var totalWins := SumWins(cs.wins);
      warning := totalWins != cs.cards;
      var pts := WritePoints(players, cs.guesses, cs.wins, cs.points);
      sets := sets + [cs.(points := pts)];
      currentSet := None;
    }
  }
}
