/**
 * `CodenamersGame` (backend/Domain/CodenamersGame.cs): one game object whose
 * methods update its fields in place. Each method is proved to move the
 * fields from one snapshot to the next exactly as the functions of
 * `GameRules` say, so everything proved there holds of the object.
 */
module Game {
  import opened Wrappers
  import opened Ids
  import opened Cards
  import opened CardAssignment
  import opened GameRules

  class CodenamersGame {
    const id: Guid
    const roomId: Guid
    const createdAt: Instant

    var cards: seq<Card>
    var currentTeam: CardTeam
    var startingTeam: CardTeam
    var phase: GamePhase
    var redCardsRemaining: int
    var blueCardsRemaining: int
    var currentClue: Option<string>
    var currentClueNumber: Int32
    var guessesRemaining: Int32
    var result: Option<GameResult>
    var endedAt: Option<Instant>

    /** The mutable fields as one value. */
    function State(): GameState
      reads this
    {
      GameState(cards, currentTeam, startingTeam, phase, redCardsRemaining, blueCardsRemaining,
                currentClue, currentClueNumber, guessesRemaining, result, endedAt)
    }

    /** A new game holds the field initialisers; `CreatedAt` is the clock value at construction. */
    constructor (id: Guid, roomId: Guid, createdAt: Instant)
      ensures this.id == id && this.roomId == roomId && this.createdAt == createdAt
      ensures State() == Unstarted()
    {
      this.id := id;
      this.roomId := roomId;
      this.createdAt := createdAt;
      cards := [];
      currentTeam := Red;
      startingTeam := Red;
      phase := SpymasterClue;
      redCardsRemaining := 9;
      blueCardsRemaining := 8;
      currentClue := None;
      currentClueNumber := 0;
      guessesRemaining := 0;
      result := None;
      endedAt := None;
    }

    /**
     * Deals a fresh board from the vocabulary and resets every other field.
     * `order`, `coin` and `draws` are the values `Random.Shared` yields.
     */
    method Initialize(order: seq<nat>, coin: nat, draws: seq<nat>)
      requires IsOrdering(order, |WordList|) && coin < 2 && ValidDraws(draws, 25)
      modifies this
      ensures State() == Initialized(Deck(WordList, order, coin, draws))
      ensures Valid(State())
    {
      WordListLength();
      var assignment := Generate(WordList, order, coin, draws);
      Deal(assignment);
      InitializedValid(WordList, order, coin, draws);
    }

    /** The body of `Initialize` once `Generate` has returned `assignment`. */
    method Deal(assignment: Assignment)
      modifies this
      ensures State() == Initialized(assignment)
    {
      cards := assignment.cards;
      startingTeam := if assignment.startsWithRed then Red else Blue;
      currentTeam := startingTeam;
      redCardsRemaining := if assignment.startsWithRed then 9 else 8;
      blueCardsRemaining := if assignment.startsWithRed then 8 else 9;
      phase := SpymasterClue;
      currentClue := None;
      currentClueNumber := 0;
      guessesRemaining := 0;
      result := None;
      endedAt := None;
    }

    /** Sets the result and ends the game at time `now`. */
    method Finish(r: GameResult, now: Instant)
      modifies this
      ensures State() == GameRules.Finish(old(State()), r, now)
    {
      result := Some(r);
      phase := GameOver;
      endedAt := Some(now);
    }

    /** A guess at time `now`: the outcome and the new fields are those `Guess` gives. */
    method ProcessGuess(word: string, now: Instant) returns (g: GuessResult)
      modifies this
      ensures (State(), g) == Guess(old(State()), word, now)
    {
      if result.Some? || phase != TeamGuessing || guessesRemaining <= 0 {
        return InvalidPhase;
      }
      var found := FirstMatch(cards, word);
      if found.None? {
        return NotFound;
      }
      var i := found.value;
      var card := cards[i];
      if card.isRevealed {
        return AlreadyRevealed;
      }
      ghost var s0 := old(State());
      cards := Reveal(cards, i);
      ghost var s1 := State();
      assert s1 == s0.(cards := Reveal(s0.cards, i));
      assert Guess(s0, word, now) == RevealOutcome(s1, card, now);

      if card.isAssassin {
        Finish(GameResult(Opponent(currentTeam), "Assassin revealed", AssassinRevealed), now);
        return GuessResult.Assassin;
      }

      if card.team == currentTeam {
        g := OwnCard(now);
        return;
      }

      if card.team == CardTeam.Neutral {
        EndTurn();
        return GuessResult.Neutral;
      }

      if card.team == Opponent(currentTeam) {
        g := EnemyCard(now);
        return;
      }

      return Unknown;
    }

    /** The current team's card has been turned: its counter, the win checks, then the guess budget. */
    method OwnCard(now: Instant) returns (g: GuessResult)
      modifies this
      ensures (State(), g) == CorrectOutcome(Decrement(old(State()), old(currentTeam)), now)
    {
      if currentTeam == Red {
        redCardsRemaining := redCardsRemaining - 1;
      } else {
        blueCardsRemaining := blueCardsRemaining - 1;
      }
      if redCardsRemaining == 0 {
        Finish(AllRevealedWin(Red), now);
        return CorrectTeam;
      }
      if blueCardsRemaining == 0 {
        Finish(AllRevealedWin(Blue), now);
        return CorrectTeam;
      }
      guessesRemaining := Wrap32(guessesRemaining - 1);
      if guessesRemaining == 0 {
        EndTurn();
        return CorrectTeamTurnEnds;
      }
      return CorrectTeam;
    }

    /** The opponent's card has been turned: its counter, both win checks, and the turn passes if neither fired. */
    method EnemyCard(now: Instant) returns (g: GuessResult)
      modifies this
      ensures (State(), g) == EnemyOutcome(Decrement(old(State()), Opponent(old(currentTeam))), now)
    {
      var enemyTeam := Opponent(currentTeam);
      if enemyTeam == Red {
        redCardsRemaining := redCardsRemaining - 1;
      } else {
        blueCardsRemaining := blueCardsRemaining - 1;
      }
      if redCardsRemaining == 0 {
        Finish(AllRevealedWin(Red), now);
      }
      if blueCardsRemaining == 0 {
        Finish(AllRevealedWin(Blue), now);
      }
      if result.None? {
        EndTurn();
      }
      return EnemyTeam;
    }

    /**
     * Gives the clue, or reports the exception `SetClue` throws (and changes
     * nothing).
     */
    method SetClue(clue: string, number: Int32) returns (err: Option<ClueError>)
      modifies this
      ensures match SetClueOutcome(old(State()), clue, number)
        case Success(t) => err.None? && State() == t
        case Failure(e) => err == Some(e) && State() == old(State())
    {
      if result.Some? || phase != SpymasterClue {
        return Some(WrongPhase);
      }
      if Text.IsBlank(clue) {
        return Some(ClueRequired);
      }
      if number < 1 {
        return Some(NumberTooSmall);
      }
      currentClue := Some(clue);
      currentClueNumber := number;
      guessesRemaining := Wrap32(number + 1);
      phase := TeamGuessing;
      return None;
    }

    /** Passes play to the other team; it checks nothing first. */
    method EndTurn()
      modifies this
      ensures State() == EndTurnState(old(State()))
    {
      currentTeam := if currentTeam == Red then Blue else Red;
      phase := SpymasterClue;
      currentClue := None;
      currentClueNumber := 0;
      guessesRemaining := 0;
    }
  }
}
