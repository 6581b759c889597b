/**
 * The rules of one Codenames game (backend/Domain/CodenamersGame.cs) as
 * functions on a snapshot of the game's mutable fields. The class in
 * codenamers_game.dfy updates those fields in place and is proved to move
 * from one snapshot to the next exactly as these functions say.
 */
module GameRules {
  import opened Wrappers
  import opened Ids
  import opened Text
  import opened Cards
  import opened CardAssignment

  /** `GamePhase`, in declaration order. */
  datatype GamePhase = SpymasterClue | TeamGuessing | GameOver

  /** `GuessResult`, in declaration order. */
  datatype GuessResult =
    | InvalidPhase | NotFound | AlreadyRevealed | CorrectTeam | CorrectTeamTurnEnds
    | Neutral | EnemyTeam | Assassin | Unknown

  datatype EndReason = AllCardsRevealed | AssassinRevealed

  function GamePhaseOrdinal(p: GamePhase): nat
  {
    match p
    case SpymasterClue => 0
    case TeamGuessing => 1
    case GameOver => 2
  }

  /** `GamePhase.ToString()`. */
  function GamePhaseName(p: GamePhase): string
  {
    match p
    case SpymasterClue => "SpymasterClue"
    case TeamGuessing => "TeamGuessing"
    case GameOver => "GameOver"
  }

  function GuessResultOrdinal(g: GuessResult): nat
  {
    match g
    case InvalidPhase => 0
    case NotFound => 1
    case AlreadyRevealed => 2
    case CorrectTeam => 3
    case CorrectTeamTurnEnds => 4
    case Neutral => 5
    case EnemyTeam => 6
    case Assassin => 7
    case Unknown => 8
  }

  /** `GuessResult.ToString()`. */
  function GuessResultName(g: GuessResult): string
  {
    match g
    case InvalidPhase => "InvalidPhase"
    case NotFound => "NotFound"
    case AlreadyRevealed => "AlreadyRevealed"
    case CorrectTeam => "CorrectTeam"
    case CorrectTeamTurnEnds => "CorrectTeamTurnEnds"
    case Neutral => "Neutral"
    case EnemyTeam => "EnemyTeam"
    case Assassin => "Assassin"
    case Unknown => "Unknown"
  }

  datatype GameResult = GameResult(winnerTeam: CardTeam, reason: string, endReason: EndReason)

  /** The three exceptions `SetClue` throws, in the order it checks for them. */
  datatype ClueError =
    | WrongPhase      // InvalidOperationException
    | ClueRequired    // ArgumentException
    | NumberTooSmall  // ArgumentOutOfRangeException

  const Int32Min: int := -0x8000_0000
  const Int32Max: int := 0x7fff_ffff

  /** A C# `int`. */
  type Int32 = x: int | Int32Min <= x <= Int32Max

  /** Two's-complement wrap-around of unchecked C# `int` arithmetic. */
  function Wrap32(x: int): (r: Int32)
    ensures Int32Min <= x <= Int32Max ==> r == x
    ensures (x - r) % 0x1_0000_0000 == 0
  {
    (x - Int32Min) % 0x1_0000_0000 + Int32Min
  }

  /** The mutable fields of a `CodenamersGame` (everything except its ids and `CreatedAt`). */
  datatype GameState = GameState(
    cards: seq<Card>,
    currentTeam: CardTeam,
    startingTeam: CardTeam,
    phase: GamePhase,
    redCardsRemaining: int,
    blueCardsRemaining: int,
    currentClue: Option<string>,
    currentClueNumber: Int32,
    guessesRemaining: Int32,
    result: Option<GameResult>,
    endedAt: Option<Instant>)

  /** The field initialisers: what a game holds before `Initialize`. */
  function Unstarted(): GameState
  {
    GameState([], Red, Red, SpymasterClue, 9, 8, None, 0, 0, None, None)
  }

  // ----- Counting cards -----

  /** How many cards with label `t` are still face down. */
  function Unrevealed(cards: seq<Card>, t: CardTeam): nat
  {
    if |cards| == 0 then 0
    else (if !cards[0].isRevealed && cards[0].team == t then 1 else 0) + Unrevealed(cards[1..], t)
  }

  /** `card.IsRevealed = true` on the list element at index i. */
  function Reveal(cards: seq<Card>, i: nat): (r: seq<Card>)
    requires i < |cards|
  {
    cards[i := cards[i].(isRevealed := true)]
  }

  /** Turning one face-down card lowers the face-down count of its own label by one and no other. */
  lemma {:induction false} RevealCount(cards: seq<Card>, i: nat, t: CardTeam)
    requires i < |cards| && !cards[i].isRevealed
    ensures Unrevealed(Reveal(cards, i), t) == Unrevealed(cards, t) - if cards[i].team == t then 1 else 0
  {
    if i > 0 {
      assert Reveal(cards, i)[1..] == Reveal(cards[1..], i - 1);
      RevealCount(cards[1..], i - 1, t);
    }
  }

  /** Revealing a card keeps the number of cards of every label. */
  lemma {:induction false} RevealKeepsCount(cards: seq<Card>, i: nat, t: CardTeam)
    requires i < |cards|
    ensures TeamCount(Reveal(cards, i), t) == TeamCount(cards, t)
  {
    if i > 0 {
      assert Reveal(cards, i)[1..] == Reveal(cards[1..], i - 1);
      RevealKeepsCount(cards[1..], i - 1, t);
    }
  }

  /** Revealing never changes a label. */
  lemma RevealKeepsTeams(cards: seq<Card>, i: nat)
    requires i < |cards|
    ensures Teams(Reveal(cards, i)) == Teams(cards)
    ensures |Reveal(cards, i)| == |cards|
  {
  }

  /** On a board with every card face down, the face-down count of a label is its card count. */
  lemma {:induction false} AllHiddenCount(cards: seq<Card>, t: CardTeam)
    requires forall k :: 0 <= k < |cards| ==> !cards[k].isRevealed
    ensures Unrevealed(cards, t) == TeamCount(cards, t)
  {
    if |cards| > 0 {
      AllHiddenCount(cards[1..], t);
    }
  }

  /** A face-down card of label t keeps the face-down count of t positive. */
  lemma {:induction false} HiddenCardCounts(cards: seq<Card>, j: nat)
    requires j < |cards| && !cards[j].isRevealed
    ensures Unrevealed(cards, cards[j].team) >= 1
  {
    if j > 0 {
      HiddenCardCounts(cards[1..], j - 1);
    }
  }

  // ----- Finding the guessed card -----

  /** `Cards.FirstOrDefault(c => c.Word.Equals(word, StringComparison.OrdinalIgnoreCase))`, as an index. */
  function FirstMatch(cards: seq<Card>, word: string): (r: Option<nat>)
    ensures r.Some? ==> r.value < |cards| && EqualsIgnoreCase(cards[r.value].word, word)
    ensures r.Some? ==> forall k :: 0 <= k < r.value ==> !EqualsIgnoreCase(cards[k].word, word)
    ensures r.None? ==> forall k :: 0 <= k < |cards| ==> !EqualsIgnoreCase(cards[k].word, word)
  {
    if |cards| == 0 then None
    else if EqualsIgnoreCase(cards[0].word, word) then Some(0)
    else match FirstMatch(cards[1..], word)
      case None => None
      case Some(i) => Some(i + 1)
  }

  // ----- The transitions -----

  /** The Red/Blue flip every transition uses for the current team. */
  function EndTurnState(s: GameState): GameState
  {
    s.(currentTeam := Opponent(s.currentTeam), phase := SpymasterClue,
       currentClue := None, currentClueNumber := 0, guessesRemaining := 0)
  }

  /** `Initialize` after `CardAssignment.Generate` returned `a`. */
  function Initialized(a: Assignment): GameState
  {
    var team := if a.startsWithRed then Red else Blue;
    GameState(a.cards, team, team, SpymasterClue,
              if a.startsWithRed then 9 else 8, if a.startsWithRed then 8 else 9,
              None, 0, 0, None, None)
  }

  /** `SetClue`: the new state, or the exception it throws. */
  function SetClueOutcome(s: GameState, clue: string, number: Int32): Result<GameState, ClueError>
  {
    if s.result.Some? || s.phase != SpymasterClue then Failure(WrongPhase)
    else if IsBlank(clue) then Failure(ClueRequired)
    else if number < 1 then Failure(NumberTooSmall)
    else Success(s.(currentClue := Some(clue), currentClueNumber := number,
                    guessesRemaining := Wrap32(number + 1), phase := TeamGuessing))
  }

  /** The result a team wins by revealing its last card. */
  function AllRevealedWin(t: CardTeam): GameResult
  {
    GameResult(t, if t == Red then "All red cards revealed" else "All blue cards revealed", AllCardsRevealed)
  }

  function Finish(s: GameState, r: GameResult, now: Instant): GameState
  {
    s.(result := Some(r), phase := GameOver, endedAt := Some(now))
  }

  /** `if (team == CardTeam.Red) RedCardsRemaining--; else BlueCardsRemaining--;` */
  function Decrement(s: GameState, t: CardTeam): GameState
  {
    if t == Red then s.(redCardsRemaining := s.redCardsRemaining - 1)
    else s.(blueCardsRemaining := s.blueCardsRemaining - 1)
  }

  /** The current team's card: the two win checks, then the guess budget. */
  function CorrectOutcome(s: GameState, now: Instant): (GameState, GuessResult)
  {
    if s.redCardsRemaining == 0 then (Finish(s, AllRevealedWin(Red), now), CorrectTeam)
    else if s.blueCardsRemaining == 0 then (Finish(s, AllRevealedWin(Blue), now), CorrectTeam)
    else
      var g := s.(guessesRemaining := Wrap32(s.guessesRemaining - 1));
      if g.guessesRemaining == 0 then (EndTurnState(g), CorrectTeamTurnEnds) else (g, CorrectTeam)
  }

  /** The opponent's card: both win checks run, and the turn passes only if neither fired. */
  function EnemyOutcome(s: GameState, now: Instant): (GameState, GuessResult)
  {
    var s1 := if s.redCardsRemaining == 0 then Finish(s, AllRevealedWin(Red), now) else s;
    var s2 := if s1.blueCardsRemaining == 0 then Finish(s1, AllRevealedWin(Blue), now) else s1;
    if s2.result.None? then (EndTurnState(s2), EnemyTeam) else (s2, EnemyTeam)
  }

  /** What happens once `card` (the guessed card, now face up in `s`) has been turned. */
  function RevealOutcome(s: GameState, card: Card, now: Instant): (GameState, GuessResult)
  {
    if card.isAssassin then
      (Finish(s, GameResult(Opponent(s.currentTeam), "Assassin revealed", AssassinRevealed), now), GuessResult.Assassin)
    else if card.team == s.currentTeam then CorrectOutcome(Decrement(s, s.currentTeam), now)
    else if card.team == CardTeam.Neutral then (EndTurnState(s), GuessResult.Neutral)
    else if card.team == Opponent(s.currentTeam) then EnemyOutcome(Decrement(s, Opponent(s.currentTeam)), now)
    else (s, Unknown)
  }

  /** `ProcessGuess(word)` at time `now`: the new state and the returned `GuessResult`. */
  function Guess(s: GameState, word: string, now: Instant): (GameState, GuessResult)
  {
    if s.result.Some? || s.phase != TeamGuessing || s.guessesRemaining <= 0 then (s, InvalidPhase)
    else match FirstMatch(s.cards, word)
      case None => (s, NotFound)
      case Some(i) =>
        if s.cards[i].isRevealed then (s, AlreadyRevealed)
        else RevealOutcome(s.(cards := Reveal(s.cards, i)), s.cards[i], now)
  }

  // ----- The invariant -----

  predicate IsTeam(t: CardTeam)
  {
    t == Red || t == Blue
  }

  /** The game's counter for one team. */
  function Remaining(s: GameState, t: CardTeam): int
  {
    if t == Red then s.redCardsRemaining else s.blueCardsRemaining
  }

  /** The board `Initialize` deals: 25 cards, 9/8/7/1 labels, `IsAssassin` exactly on the assassin. */
  ghost predicate Board(cards: seq<Card>, startingTeam: CardTeam)
  {
    && |cards| == 25
    && IsTeam(startingTeam)
    && (forall i :: 0 <= i < |cards| ==> (cards[i].isAssassin <==> cards[i].team == CardTeam.Assassin))
    && TeamCount(cards, startingTeam) == 9 && TeamCount(cards, Opponent(startingTeam)) == 8
    && TeamCount(cards, CardTeam.Neutral) == 7 && TeamCount(cards, CardTeam.Assassin) == 1
  }

  /** Each counter is the number of face-down cards of its team, and reaches zero only with that team's win. */
  predicate Counters(s: GameState)
  {
    && s.redCardsRemaining == Unrevealed(s.cards, Red)
    && s.blueCardsRemaining == Unrevealed(s.cards, Blue)
    && (s.redCardsRemaining == 0 ==> s.result == Some(AllRevealedWin(Red)))
    && (s.blueCardsRemaining == 0 ==> s.result == Some(AllRevealedWin(Blue)))
  }

  /** The clue fields match the phase; a game in progress has no result. */
  predicate PhaseShape(s: GameState)
  {
    && IsTeam(s.currentTeam)
    && (s.phase == GameOver ==> s.result.Some?)
    && (s.phase == TeamGuessing ==>
          && s.result.None? && s.currentClue.Some? && s.currentClueNumber >= 1
          && (s.guessesRemaining > 0 || s.guessesRemaining == Int32Min))
    && (s.phase == SpymasterClue ==>
          s.currentClue.None? && s.currentClueNumber == 0 && s.guessesRemaining == 0)
  }

  /** What holds of every game once `Initialize` has run. */
  ghost predicate Valid(s: GameState)
  {
    Board(s.cards, s.startingTeam) && Counters(s) && PhaseShape(s)
  }

  /** Any all-face-down 9/8/7/1 assignment starts a valid game. */
  lemma InitializedFromBoard(a: Assignment)
    requires Board(a.cards, if a.startsWithRed then Red else Blue)
    requires forall i :: 0 <= i < |a.cards| ==> !a.cards[i].isRevealed
    ensures Valid(Initialized(a))
  {
    AllHiddenCount(a.cards, Red);
    AllHiddenCount(a.cards, Blue);
  }

  /**
   * A freshly initialised game: valid, 9 cards to find for the starting team
   * and 8 for the other, the starting team to give the first clue, no clue,
   * no guesses and no result.
   */
  lemma InitializedValid(words: seq<string>, order: seq<nat>, coin: nat, draws: seq<nat>)
    requires |words| >= 25 && IsOrdering(order, |words|) && coin < 2 && ValidDraws(draws, 25)
    ensures var s := Initialized(Deck(words, order, coin, draws));
      && Valid(s)
      && s.currentTeam == s.startingTeam == (if coin == 0 then Red else Blue)
      && Remaining(s, s.startingTeam) == 9 && Remaining(s, Opponent(s.startingTeam)) == 8
      && s.phase == SpymasterClue && s.currentClue.None? && s.currentClueNumber == 0
      && s.guessesRemaining == 0 && s.result.None? && s.endedAt.None?
  {
    DeckShape(words, order, coin, draws);
    DeckCounts(words, order, coin, draws);
    InitializedFromBoard(Deck(words, order, coin, draws));
  }

  /** Turning a card keeps the board and lowers exactly the counter of the card's own team. */
  lemma RevealFacts(s: GameState, i: nat)
    requires Valid(s) && i < |s.cards| && !s.cards[i].isRevealed
    ensures var cards := Reveal(s.cards, i);
      && Board(cards, s.startingTeam) && Teams(cards) == Teams(s.cards)
      && Unrevealed(cards, Red) == s.redCardsRemaining - (if s.cards[i].team == Red then 1 else 0)
      && Unrevealed(cards, Blue) == s.blueCardsRemaining - (if s.cards[i].team == Blue then 1 else 0)
      && (s.cards[i].team == CardTeam.Red || s.cards[i].team == CardTeam.Blue
          || s.cards[i].team == CardTeam.Neutral || s.cards[i].team == CardTeam.Assassin)
  {
    RevealCount(s.cards, i, Red);
    RevealCount(s.cards, i, Blue);
    RevealKeepsTeams(s.cards, i);
    RevealKeepsCount(s.cards, i, s.startingTeam);
    RevealKeepsCount(s.cards, i, Opponent(s.startingTeam));
    RevealKeepsCount(s.cards, i, CardTeam.Neutral);
    RevealKeepsCount(s.cards, i, CardTeam.Assassin);
  }

  /** The guard that `ProcessGuess` checks first. */
  predicate GuessBlocked(s: GameState)
  {
    s.result.Some? || s.phase != TeamGuessing || s.guessesRemaining <= 0
  }

  /** A guess that gets past all three rejections; `i` is the card it turns. */
  predicate Turns(s: GameState, word: string, i: nat)
  {
    !GuessBlocked(s) && FirstMatch(s.cards, word) == Some(i) && i < |s.cards| && !s.cards[i].isRevealed
  }

  /**
   * What every guess that turns card i has in common: the card list is the
   * old one with card i turned, the outcome is one of the five that turn a
   * card, and the counters drop by one exactly on a card of a team.
   */
  predicate TurnedCard(s: GameState, t: GameState, r: GuessResult, i: nat)
    requires i < |s.cards|
  {
    && t.cards == Reveal(s.cards, i)
    && (r == CorrectTeam || r == CorrectTeamTurnEnds || r == GuessResult.Neutral
        || r == EnemyTeam || r == GuessResult.Assassin)
    && t.redCardsRemaining + t.blueCardsRemaining
       == s.redCardsRemaining + s.blueCardsRemaining
          - (if r == CorrectTeam || r == CorrectTeamTurnEnds || r == EnemyTeam then 1 else 0)
    && t.redCardsRemaining <= s.redCardsRemaining && t.blueCardsRemaining <= s.blueCardsRemaining
  }

  /** Revealing the assassin hands the win to the other team and touches no counter. */
  lemma GuessAssassin(s: GameState, word: string, now: Instant, i: nat)
    requires Valid(s) && Turns(s, word, i) && s.cards[i].team == CardTeam.Assassin
    ensures var (t, r) := Guess(s, word, now);
      && Valid(t) && TurnedCard(s, t, r, i)
      && r == GuessResult.Assassin
      && t.result == Some(GameResult(Opponent(s.currentTeam), "Assassin revealed", AssassinRevealed))
      && t.phase == GameOver && t.endedAt == Some(now)
      && t.redCardsRemaining == s.redCardsRemaining && t.blueCardsRemaining == s.blueCardsRemaining
      && t.guessesRemaining == s.guessesRemaining && t.currentTeam == s.currentTeam
  {
    RevealFacts(s, i);
  }

  /**
   * A card of the current team lowers its counter by one. At zero the team
   * wins (`CorrectTeam`, guesses untouched); otherwise one guess is used, and
   * using the last one passes the turn (`CorrectTeamTurnEnds`).
   */
  lemma GuessCorrectTeam(s: GameState, word: string, now: Instant, i: nat)
    requires Valid(s) && Turns(s, word, i) && s.cards[i].team == s.currentTeam
    ensures var (t, r) := Guess(s, word, now);
      var team := s.currentTeam;
      && Valid(t) && TurnedCard(s, t, r, i)
      && Remaining(t, team) == Remaining(s, team) - 1
      && Remaining(t, Opponent(team)) == Remaining(s, Opponent(team))
      && (Remaining(s, team) == 1 ==>
            && r == CorrectTeam && t.result == Some(AllRevealedWin(team)) && t.phase == GameOver
            && t.guessesRemaining == s.guessesRemaining && t.endedAt == Some(now))
      && (Remaining(s, team) > 1 && s.guessesRemaining == 1 ==>
            && r == CorrectTeamTurnEnds && t.result.None?
            && t.currentTeam == Opponent(team) && t.phase == SpymasterClue
            && t.currentClue.None? && t.currentClueNumber == 0 && t.guessesRemaining == 0)
      && (Remaining(s, team) > 1 && s.guessesRemaining > 1 ==>
            && r == CorrectTeam && t.result.None? && t.currentTeam == team && t.phase == TeamGuessing
            && t.guessesRemaining == s.guessesRemaining - 1 && t.currentClue == s.currentClue)
  {
    RevealFacts(s, i);
  }

  /** A neutral card passes the turn and changes no counter. */
  lemma GuessNeutral(s: GameState, word: string, now: Instant, i: nat)
    requires Valid(s) && Turns(s, word, i) && s.cards[i].team == CardTeam.Neutral
    ensures var (t, r) := Guess(s, word, now);
      && Valid(t) && TurnedCard(s, t, r, i)
      && r == GuessResult.Neutral
      && t.redCardsRemaining == s.redCardsRemaining && t.blueCardsRemaining == s.blueCardsRemaining
      && t.result.None? && t.currentTeam == Opponent(s.currentTeam) && t.phase == SpymasterClue
      && t.currentClue.None? && t.currentClueNumber == 0 && t.guessesRemaining == 0
  {
    RevealFacts(s, i);
  }

  /**
   * An opponent's card lowers the opponent's counter by one and always
   * yields `EnemyTeam`; at zero the opponent wins, otherwise the turn passes.
   */
  lemma GuessEnemyTeam(s: GameState, word: string, now: Instant, i: nat)
    requires Valid(s) && Turns(s, word, i) && s.cards[i].team == Opponent(s.currentTeam)
    ensures var (t, r) := Guess(s, word, now);
      var enemy := Opponent(s.currentTeam);
      && Valid(t) && TurnedCard(s, t, r, i)
      && r == EnemyTeam
      && Remaining(t, enemy) == Remaining(s, enemy) - 1
      && Remaining(t, s.currentTeam) == Remaining(s, s.currentTeam)
      && (Remaining(s, enemy) == 1 ==>
            t.result == Some(AllRevealedWin(enemy)) && t.phase == GameOver && t.currentTeam == s.currentTeam)
      && (Remaining(s, enemy) > 1 ==>
            && t.result.None? && t.currentTeam == enemy && t.phase == SpymasterClue
            && t.currentClue.None? && t.currentClueNumber == 0 && t.guessesRemaining == 0)
  {
    RevealFacts(s, i);
  }

  /**
   * The three rejections are exactly the outcomes that leave the game as it
   * was: a finished game, a phase other than `TeamGuessing` or no guesses
   * left give `InvalidPhase`; then no matching word gives `NotFound`; then a
   * face-up match gives `AlreadyRevealed`.
   */
  lemma GuessRejections(s: GameState, word: string, now: Instant)
    ensures var (t, r) := Guess(s, word, now);
      var m := FirstMatch(s.cards, word);
      && (r == InvalidPhase <==> GuessBlocked(s))
      && (r == NotFound <==> !GuessBlocked(s) && m.None?)
      && (r == AlreadyRevealed <==> !GuessBlocked(s) && m.Some? && s.cards[m.value].isRevealed)
      && (r == InvalidPhase || r == NotFound || r == AlreadyRevealed <==> t == s)
  {
    var m := FirstMatch(s.cards, word);
    if !GuessBlocked(s) && m.Some? && !s.cards[m.value].isRevealed {
      assert Guess(s, word, now).0.cards[m.value].isRevealed;
    }
  }

  /**
   * Every guess keeps the invariant. One that passes the checks turns exactly
   * the first card whose word matches ignoring case, leaves every other card
   * as it was and never yields `Unknown`; the red and blue counters together
   * drop by one exactly on `CorrectTeam`, `CorrectTeamTurnEnds` and
   * `EnemyTeam`, and neither ever rises.
   */
  lemma GuessPreservesValid(s: GameState, word: string, now: Instant)
    requires Valid(s)
    ensures var (t, r) := Guess(s, word, now);
      && Valid(t)
      && (t == s || exists i :: Turns(s, word, i) && TurnedCard(s, t, r, i))
      && (t == s ==> r == InvalidPhase || r == NotFound || r == AlreadyRevealed)
  {
    GuessRejections(s, word, now);
    var m := FirstMatch(s.cards, word);
    if !GuessBlocked(s) && m.Some? && !s.cards[m.value].isRevealed {
      var i := m.value;
      assert Turns(s, word, i);
      RevealFacts(s, i);
      var team := s.cards[i].team;
      if team == CardTeam.Assassin {
        GuessAssassin(s, word, now, i);
      } else if team == s.currentTeam {
        GuessCorrectTeam(s, word, now, i);
      } else if team == CardTeam.Neutral {
        GuessNeutral(s, word, now, i);
      } else {
        GuessEnemyTeam(s, word, now, i);
      }
    }
  }

  /**
   * `SetClue` rejects a finished game or the wrong phase first, then a blank
   * clue, then a number below 1. A clue it accepts keeps the invariant,
   * starts `TeamGuessing` with the clue and its number, and touches neither
   * the board, the counters nor the teams; below `int.MaxValue` it grants
   * number + 1 guesses.
   */
  lemma SetCluePreservesValid(s: GameState, clue: string, number: Int32)
    requires Valid(s)
    ensures match SetClueOutcome(s, clue, number)
      case Failure(e) =>
        && (e == WrongPhase <==> s.result.Some? || s.phase != SpymasterClue)
        && (e == ClueRequired <==> s.result.None? && s.phase == SpymasterClue && IsBlank(clue))
        && (e == NumberTooSmall <==> s.result.None? && s.phase == SpymasterClue && !IsBlank(clue) && number < 1)
      case Success(t) =>
        && s.result.None? && s.phase == SpymasterClue && !IsBlank(clue) && number >= 1
        && Valid(t)
        && t.phase == TeamGuessing && t.currentClue == Some(clue) && t.currentClueNumber == number
        && (number < Int32Max ==> t.guessesRemaining == number + 1)
        && t.cards == s.cards && t.currentTeam == s.currentTeam && t.startingTeam == s.startingTeam
        && t.redCardsRemaining == s.redCardsRemaining && t.blueCardsRemaining == s.blueCardsRemaining
  {
  }

  /**
   * The unchecked `number + 1` at `int.MaxValue` wraps to `int.MinValue`:
   * the clue is accepted, and then every guess fails with `InvalidPhase`
   * until the turn is ended.
   */
  lemma MaxClueNumberBlocksGuessing(s: GameState, clue: string, word: string, now: Instant)
    requires SetClueOutcome(s, clue, Int32Max).Success?
    ensures var t := SetClueOutcome(s, clue, Int32Max).value;
      && t.phase == TeamGuessing
      && t.guessesRemaining == Int32Min
      && Guess(t, word, now) == (t, InvalidPhase)
  {
  }

  /**
   * `EndTurn` has no guard: it always passes play to the other team with a
   * fresh `SpymasterClue` phase, keeps the invariant, and leaves the board,
   * the counters and the result alone, also on a finished game.
   */
  lemma EndTurnPreservesValid(s: GameState)
    requires Valid(s)
    ensures var t := EndTurnState(s);
      && Valid(t)
      && t.currentTeam == Opponent(s.currentTeam) && t.currentTeam != s.currentTeam
      && t.phase == SpymasterClue && t.currentClue.None? && t.guessesRemaining == 0
      && t.cards == s.cards && t.result == s.result
      && t.redCardsRemaining == s.redCardsRemaining && t.blueCardsRemaining == s.blueCardsRemaining
  {
  }

  // ----- Sequences of operations -----

  /** One call on a game: `ProcessGuess`, `SetClue` or `EndTurn`. */
  datatype Move =
    | GuessMove(word: string, now: Instant)
    | ClueMove(clue: string, number: Int32)
    | EndTurnMove

  /** The game after one call; a rejected `SetClue` leaves it as it was. */
  function Apply(s: GameState, m: Move): GameState
  {
    match m
      case GuessMove(word, now) => Guess(s, word, now).0
      case ClueMove(clue, number) =>
        (match SetClueOutcome(s, clue, number)
           case Success(t) => t
           case Failure(_) => s)
      case EndTurnMove => EndTurnState(s)
  }

  function Run(s: GameState, ms: seq<Move>): GameState
    decreases |ms|
  {
    if |ms| == 0 then s else Run(Apply(s, ms[0]), ms[1..])
  }

  lemma ApplyPreservesValid(s: GameState, m: Move)
    requires Valid(s)
    ensures Valid(Apply(s, m))
  {
    match m
      case GuessMove(word, now) => GuessPreservesValid(s, word, now);
      case ClueMove(clue, number) => SetCluePreservesValid(s, clue, number);
      case EndTurnMove => EndTurnPreservesValid(s);
  }

  /** The invariant holds after any sequence of calls. */
  lemma {:induction false} RunPreservesValid(s: GameState, ms: seq<Move>)
    requires Valid(s)
    ensures Valid(Run(s, ms))
    decreases |ms|
  {
    if |ms| > 0 {
      ApplyPreservesValid(s, ms[0]);
      RunPreservesValid(Apply(s, ms[0]), ms[1..]);
    }
  }

  /**
   * Once a game has a result, no sequence of calls turns a card, moves a
   * counter or changes the result; every guess is rejected with
   * `InvalidPhase` and every clue with `WrongPhase`.
   */
  lemma {:induction false} FinishedGameFrozen(s: GameState, ms: seq<Move>, word: string, now: Instant, clue: string, number: Int32)
    requires s.result.Some?
    ensures var t := Run(s, ms);
      && t.cards == s.cards && t.result == s.result
      && t.redCardsRemaining == s.redCardsRemaining && t.blueCardsRemaining == s.blueCardsRemaining
      && Guess(t, word, now) == (t, InvalidPhase)
      && SetClueOutcome(t, clue, number) == Failure(WrongPhase)
    decreases |ms|
  {
    if |ms| > 0 {
      var s1 := Apply(s, ms[0]);
      assert s1.cards == s.cards && s1.result == s.result;
      assert s1.redCardsRemaining == s.redCardsRemaining && s1.blueCardsRemaining == s.blueCardsRemaining;
      FinishedGameFrozen(s1, ms[1..], word, now, clue, number);
    }
  }

  /** Card by card, `t` has the words and labels of `s`, and every card face up in `s` is face up in `t`. */
  ghost predicate Follows(s: seq<Card>, t: seq<Card>)
  {
    && |t| == |s|
    && (forall k :: 0 <= k < |s| ==>
          && t[k].word == s[k].word
          && t[k].team == s[k].team
          && (s[k].isRevealed ==> t[k].isRevealed))
  }

  /** One call leaves the cards alone or turns the one card the guess finds. */
  lemma ApplyFollows(s: GameState, m: Move)
    ensures Follows(s.cards, Apply(s, m).cards)
  {
    if m.GuessMove? {
      var f := FirstMatch(s.cards, m.word);
      if !GuessBlocked(s) && f.Some? && !s.cards[f.value].isRevealed {
        assert Apply(s, m).cards == Reveal(s.cards, f.value);
      } else {
        assert Apply(s, m).cards == s.cards;
      }
    }
  }

  /** No call changes a word or a label or turns a card back face down. */
  lemma {:induction false} RunFollows(s: GameState, ms: seq<Move>)
    ensures Follows(s.cards, Run(s, ms).cards)
    decreases |ms|
  {
    if |ms| > 0 {
      var s1 := Apply(s, ms[0]);
      ApplyFollows(s, ms[0]);
      RunFollows(s1, ms[1..]);
    }
  }

  // ----- Repeated words on one board -----

  /** Two cards whose words are equal ignoring case, the later one face down. */
  ghost predicate Shadowed(cards: seq<Card>, i: nat, j: nat)
  {
    i < j < |cards| && EqualsIgnoreCase(cards[i].word, cards[j].word) && !cards[j].isRevealed
  }

  /** Guessing the shared word always finds the earlier card, so no call turns the later one. */
  lemma ApplyKeepsShadowed(s: GameState, m: Move, i: nat, j: nat)
    requires Shadowed(s.cards, i, j)
    ensures Shadowed(Apply(s, m).cards, i, j)
  {
    if m.GuessMove? {
      if EqualsIgnoreCase(s.cards[j].word, m.word) {
        assert EqualsIgnoreCase(s.cards[i].word, m.word);
      }
    }
  }

  /**
   * When two cards carry the same word ignoring case, the later one stays
   * face down whatever sequence of calls follows.
   */
  lemma {:induction false} RepeatedWordStaysHidden(s: GameState, ms: seq<Move>, i: nat, j: nat)
    requires Shadowed(s.cards, i, j)
    ensures Shadowed(Run(s, ms).cards, i, j)
    ensures !Run(s, ms).cards[j].isRevealed
    decreases |ms|
  {
    if |ms| > 0 {
      ApplyKeepsShadowed(s, ms[0], i, j);
      RepeatedWordStaysHidden(Apply(s, ms[0]), ms[1..], i, j);
    }
  }

  /**
   * So when the later card of such a pair belongs to a team, that team's
   * counter never reaches zero: it cannot win by revealing all its cards.
   */
  lemma RepeatedWordBlocksWin(s: GameState, ms: seq<Move>, i: nat, j: nat)
    requires Valid(s) && Shadowed(s.cards, i, j) && IsTeam(s.cards[j].team)
    ensures Remaining(Run(s, ms), s.cards[j].team) >= 1
  {
    var t := Run(s, ms);
    RunPreservesValid(s, ms);
    RunFollows(s, ms);
    RepeatedWordStaysHidden(s, ms, i, j);
    HiddenCardCounts(t.cards, j);
  }

  /** A deal whose first two cards share a word starts a game in that state. */
  lemma DealtRepeatIsShadowed(order: seq<nat>, coin: nat, draws: seq<nat>)
    requires IsOrdering(order, |WordList|) && coin < 2 && ValidDraws(draws, 25)
    requires order[0] == 36 && order[1] == 77
    ensures Shadowed(Initialized(Deck(WordList, order, coin, draws)).cards, 0, 1)
  {
    DeckCanRepeatAWord(order, coin, draws);
    DeckShape(WordList, order, coin, draws);
  }

  /** On a board without repeated words, guessing a card's own word finds that card. */
  lemma DistinctBoardIsGuessable(cards: seq<Card>, i: nat)
    requires forall a, b :: 0 <= a < b < |cards| ==> Fold(cards[a].word) != Fold(cards[b].word)
    requires i < |cards|
    ensures FirstMatch(cards, cards[i].word) == Some(i)
  {
  }
}
