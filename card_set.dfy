/** One set of the game: its stage, its guess order and its three maps from
    player id to guesses, round wins and points. */
module CardSet {

  /** The stages a set passes through while it is the current set. A finished
      set is stored in the history with the stage it had last, `Rounds`. */
  datatype Stage = ChooseStart | Guessing | Rounds

  datatype GameSet = GameSet(
    setNumber: int,
    cards: int,
    startingPlayerId: int,
    guessOrder: seq<int>,
    guesses: map<int, int>,
    wins: map<int, int>,
    points: map<int, int>,
    stage: Stage,
    guessIndex: int,
    currentRound: int)

  /** The record a new set starts from: no guess order yet, empty maps, the
      first guesser and the first round. */
  function NewSet(setNumber: int, cards: int, startId: int): GameSet
  {
    GameSet(setNumber, cards, startId, [], map[], map[], map[], ChooseStart, 0, 1)
  }
}
