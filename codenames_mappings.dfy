/**
 * The game snapshot sent to clients (backend/Contracts/CodenamesMappings.cs
 * and the records of backend/Contracts/CodenamesGameResponse.cs). Without
 * `revealKey` only the cards already turned show their team.
 */
module CodenamesMappings {
  import opened Wrappers
  import opened Ids
  import opened Cards
  import opened GameRules
  import opened Game

  datatype CardResponse = CardResponse(word: string, isRevealed: bool, team: Option<CardTeam>)

  datatype ResultResponse = ResultResponse(winnerTeam: CardTeam, reason: string, endReason: EndReason)

  datatype GameResponse = GameResponse(
    roomId: Guid,
    startingTeam: CardTeam,
    currentTeam: CardTeam,
    phase: GamePhase,
    currentClue: Option<string>,
    currentClueNumber: Int32,
    guessesRemaining: Int32,
    redCardsRemaining: int,
    blueCardsRemaining: int,
    cards: seq<CardResponse>,
    result: Option<ResultResponse>,
    createdAt: Instant,
    endedAt: Option<Instant>)

  /** One card of the projection: the team only under `revealKey || card.IsRevealed`. */
  function CardView(card: Card, revealKey: bool): CardResponse
  {
    CardResponse(card.word, card.isRevealed, if revealKey || card.isRevealed then Some(card.team) else None)
  }

  /** The `Select` over the cards: same length, same order. */
  function CardsView(cards: seq<Card>, revealKey: bool): (r: seq<CardResponse>)
    ensures |r| == |cards|
    ensures forall i :: 0 <= i < |cards| ==> r[i] == CardView(cards[i], revealKey)
  {
    seq(|cards|, i requires 0 <= i < |cards| => CardView(cards[i], revealKey))
  }

  function ResultView(result: Option<GameResult>): Option<ResultResponse>
  {
    match result
    case None => None
    case Some(r) => Some(ResultResponse(r.winnerTeam, r.reason, r.endReason))
  }

  /** The response built from a game's ids, creation time and fields. */
  function Project(roomId: Guid, createdAt: Instant, s: GameState, revealKey: bool): GameResponse
  {
    GameResponse(roomId, s.startingTeam, s.currentTeam, s.phase, s.currentClue, s.currentClueNumber,
                 s.guessesRemaining, s.redCardsRemaining, s.blueCardsRemaining,
                 CardsView(s.cards, revealKey), ResultView(s.result), createdAt, s.endedAt)
  }

  /**
   * `game.ToResponse(revealKey)`: it only reads the game, lists the cards in
   * board order, shows a card's team only when the key is asked for or the
   * card is face up, and hands every other field over as it is.
   */
  function ToResponse(game: CodenamersGame, revealKey: bool): (r: GameResponse)
    reads game
    ensures |r.cards| == |game.cards|
    ensures forall i :: 0 <= i < |game.cards| ==>
      && r.cards[i].word == game.cards[i].word
      && r.cards[i].isRevealed == game.cards[i].isRevealed
      && (r.cards[i].team.Some? <==> revealKey || game.cards[i].isRevealed)
      && (r.cards[i].team.Some? ==> r.cards[i].team.value == game.cards[i].team)
    ensures r.roomId == game.roomId && r.createdAt == game.createdAt && r.endedAt == game.endedAt
    ensures r.startingTeam == game.startingTeam && r.currentTeam == game.currentTeam && r.phase == game.phase
    ensures r.currentClue == game.currentClue && r.currentClueNumber == game.currentClueNumber
    ensures r.redCardsRemaining == game.redCardsRemaining && r.blueCardsRemaining == game.blueCardsRemaining
    ensures r.guessesRemaining == game.guessesRemaining && (r.result.Some? <==> game.result.Some?)
    ensures game.result.Some? ==>
      && r.result.value.winnerTeam == game.result.value.winnerTeam
      && r.result.value.reason == game.result.value.reason
      && r.result.value.endReason == game.result.value.endReason
  {
    Project(game.roomId, game.createdAt, game.State(), revealKey)
  }

  /**
   * Every card keeps its word and face-up flag, and shows its team exactly
   * when the key is revealed or the card is face up, and then its true team.
   */
  lemma CardViewShowsTeamExactly(cards: seq<Card>, revealKey: bool, i: nat)
    requires i < |cards|
    ensures var v := CardsView(cards, revealKey)[i];
      && v.word == cards[i].word && v.isRevealed == cards[i].isRevealed
      && (v.team.Some? <==> revealKey || cards[i].isRevealed)
      && (v.team.Some? ==> v.team.value == cards[i].team)
  {
  }

  /** Two boards that differ only in the teams of face-down cards look the same without the key. */
  lemma OperativeViewHidesKey(a: seq<Card>, b: seq<Card>)
    requires |a| == |b|
    requires forall i :: 0 <= i < |a| ==>
      a[i].word == b[i].word && a[i].isRevealed == b[i].isRevealed
      && (a[i].isRevealed ==> a[i].team == b[i].team)
    ensures CardsView(a, false) == CardsView(b, false)
  {
  }

  /** How many cards of a view show a team. */
  function VisibleTeams(view: seq<CardResponse>): nat
  {
    if |view| == 0 then 0 else (if view[0].team.Some? then 1 else 0) + VisibleTeams(view[1..])
  }

  function RevealedCount(cards: seq<Card>): nat
  {
    if |cards| == 0 then 0 else (if cards[0].isRevealed then 1 else 0) + RevealedCount(cards[1..])
  }

  /** With the key every card shows its team; without it exactly the face-up ones do. */
  lemma {:induction false} VisibleTeamsCount(cards: seq<Card>, revealKey: bool)
    ensures VisibleTeams(CardsView(cards, revealKey)) == if revealKey then |cards| else RevealedCount(cards)
  {
    if |cards| > 0 {
      assert CardsView(cards, revealKey)[1..] == CardsView(cards[1..], revealKey);
      VisibleTeamsCount(cards[1..], revealKey);
    }
  }

  /**
   * The rest of the snapshot is the game's own: ids, teams, phase, clue,
   * guesses and counters copied, and a result exactly when the game has one,
   * with its winner, reason and end reason.
   */
  lemma ProjectCopiesFields(roomId: Guid, createdAt: Instant, s: GameState, revealKey: bool)
    ensures var r := Project(roomId, createdAt, s, revealKey);
      && r.roomId == roomId && r.createdAt == createdAt && r.endedAt == s.endedAt
      && r.startingTeam == s.startingTeam && r.currentTeam == s.currentTeam && r.phase == s.phase
      && r.currentClue == s.currentClue && r.currentClueNumber == s.currentClueNumber
      && r.guessesRemaining == s.guessesRemaining
      && r.redCardsRemaining == s.redCardsRemaining && r.blueCardsRemaining == s.blueCardsRemaining
      && (r.result.None? <==> s.result.None?)
      && (s.result.Some? ==>
            r.result.value.winnerTeam == s.result.value.winnerTeam
            && r.result.value.reason == s.result.value.reason
            && r.result.value.endReason == s.result.value.endReason)
  {
  }

  /** The face-down count of each team can be read off the view with the key. */
  lemma {:induction false} KeyViewCounters(cards: seq<Card>, t: CardTeam)
    ensures Unrevealed(cards, t) == HiddenOfTeam(CardsView(cards, true), t)
  {
    if |cards| > 0 {
      assert CardsView(cards, true)[1..] == CardsView(cards[1..], true);
      KeyViewCounters(cards[1..], t);
    }
  }

  /** How many face-down cards of a view show team `t`. */
  function HiddenOfTeam(view: seq<CardResponse>, t: CardTeam): nat
  {
    if |view| == 0 then 0
    else (if !view[0].isRevealed && view[0].team == Some(t) then 1 else 0) + HiddenOfTeam(view[1..], t)
  }

  /**
   * On a valid game the red and blue counters a spymaster sees equal the
   * face-down red and blue cards of the same snapshot.
   */
  lemma ValidGameCounters(roomId: Guid, createdAt: Instant, s: GameState)
    requires Valid(s)
    ensures var r := Project(roomId, createdAt, s, true);
      r.redCardsRemaining == HiddenOfTeam(r.cards, Red) && r.blueCardsRemaining == HiddenOfTeam(r.cards, Blue)
  {
    KeyViewCounters(s.cards, Red);
    KeyViewCounters(s.cards, Blue);
  }
}
