/**
 * The client-side decoding of the game snapshot and the clue history kept
 * beside it (frontend/src/pages/GamePage.tsx). A JSON field arrives either
 * as an enum name or as the enum's ordinal, so each decoder accepts both.
 */
module GamePage {
  import opened Wrappers
  import opened Cards
  import opened Players
  import opened GameRules

  /** A JSON value as the decoders see it: a string, a number, or anything else. */
  datatype Value = Str(s: string) | Num(n: real) | Other

  // ----- Decoders -----

  /** `normalizeRole`. */
  function NormalizeRole(v: Value): Option<PlayerRole>
  {
    if v == Str("Operative") then Some(Operative)
    else if v == Str("Spymaster") then Some(Spymaster)
    else if v == Str("Tester") then Some(Tester)
    else if v.Num? then
      if v.n == 0.0 then Some(Operative)
      else if v.n == 1.0 then Some(Spymaster)
      else if v.n == 2.0 then Some(Tester)
      else None
    else None
  }

  /** `normalizeTeam`. */
  function NormalizeTeam(v: Value): Option<Team>
  {
    if v == Str("Red") then Some(Team.Red)
    else if v == Str("Blue") then Some(Team.Blue)
    else if v.Num? then
      if v.n == 0.0 then Some(Team.Red)
      else if v.n == 1.0 then Some(Team.Blue)
      else None
    else None
  }

  /** `normalizeGamePhase`. */
  function NormalizeGamePhase(v: Value): Option<GamePhase>
  {
    if v == Str("SpymasterClue") then Some(SpymasterClue)
    else if v == Str("TeamGuessing") then Some(TeamGuessing)
    else if v == Str("GameOver") then Some(GameOver)
    else if v.Num? then
      if v.n == 0.0 then Some(SpymasterClue)
      else if v.n == 1.0 then Some(TeamGuessing)
      else if v.n == 2.0 then Some(GameOver)
      else None
    else None
  }

  /** `normalizeCardTeam`. */
  function NormalizeCardTeam(v: Value): Option<CardTeam>
  {
    if v == Str("Red") then Some(CardTeam.Red)
    else if v == Str("Blue") then Some(CardTeam.Blue)
    else if v == Str("Neutral") then Some(CardTeam.Neutral)
    else if v == Str("Assassin") then Some(CardTeam.Assassin)
    else if v.Num? then
      if v.n == 0.0 then Some(CardTeam.Red)
      else if v.n == 1.0 then Some(CardTeam.Blue)
      else if v.n == 2.0 then Some(CardTeam.Neutral)
      else if v.n == 3.0 then Some(CardTeam.Assassin)
      else None
    else None
  }

  /** `normalizeGuessResult`: total, with `Unknown` for everything it does not recognise. */
  function NormalizeGuessResult(v: Value): GuessResult
  {
    if v == Str("InvalidPhase") then InvalidPhase
    else if v == Str("NotFound") then NotFound
    else if v == Str("AlreadyRevealed") then AlreadyRevealed
    else if v == Str("CorrectTeam") then CorrectTeam
    else if v == Str("CorrectTeamTurnEnds") then CorrectTeamTurnEnds
    else if v == Str("Neutral") then GuessResult.Neutral
    else if v == Str("EnemyTeam") then EnemyTeam
    else if v == Str("Assassin") then GuessResult.Assassin
    else if v == Str("Unknown") then Unknown
    else if v.Num? then
      if v.n == 0.0 then InvalidPhase
      else if v.n == 1.0 then NotFound
      else if v.n == 2.0 then AlreadyRevealed
      else if v.n == 3.0 then CorrectTeam
      else if v.n == 4.0 then CorrectTeamTurnEnds
      else if v.n == 5.0 then GuessResult.Neutral
      else if v.n == 6.0 then EnemyTeam
      else if v.n == 7.0 then GuessResult.Assassin
      else Unknown
    else Unknown
  }

  /** A role decodes from exactly its name and its ordinal. */
  lemma NormalizeRoleDecodes(v: Value, r: PlayerRole)
    ensures NormalizeRole(v) == Some(r) <==> v == Str(RoleName(r)) || v == Num(RoleOrdinal(r) as real)
  {
  }

  /** A team decodes from exactly its name and its ordinal; "Neutral" and 2 decode to nothing. */
  lemma NormalizeTeamDecodes(v: Value, t: Team)
    ensures NormalizeTeam(v) == Some(t) <==> v == Str(TeamName(t)) || v == Num(TeamOrdinal(t) as real)
    ensures NormalizeTeam(Str("Neutral")).None? && NormalizeTeam(Num(2.0)).None?
  {
  }

  /** A phase decodes from exactly its backend name and its backend ordinal. */
  lemma NormalizeGamePhaseDecodes(v: Value, p: GamePhase)
    ensures NormalizeGamePhase(v) == Some(p) <==> v == Str(GamePhaseName(p)) || v == Num(GamePhaseOrdinal(p) as real)
  {
  }

  /** A card team decodes from exactly its backend name and its backend ordinal. */
  lemma NormalizeCardTeamDecodes(v: Value, t: CardTeam)
    ensures NormalizeCardTeam(v) == Some(t) <==> v == Str(CardTeamName(t)) || v == Num(CardTeamOrdinal(t) as real)
  {
  }

  /**
   * Every outcome other than `Unknown` decodes from exactly its backend name
   * and its backend ordinal; `Unknown` is what everything else decodes to.
   */
  lemma NormalizeGuessResultDecodes(v: Value, g: GuessResult)
    ensures g != Unknown ==>
      (NormalizeGuessResult(v) == g <==> v == Str(GuessResultName(g)) || v == Num(GuessResultOrdinal(g) as real))
    ensures NormalizeGuessResult(v) == Unknown <==>
      forall h :: h != Unknown ==> v != Str(GuessResultName(h)) && v != Num(GuessResultOrdinal(h) as real)
  {
    if NormalizeGuessResult(v) != Unknown {
      var h := NormalizeGuessResult(v);
      assert v == Str(GuessResultName(h)) || v == Num(GuessResultOrdinal(h) as real);
    }
  }

  /** What the backend sends, by name or by ordinal, comes back as itself, `Unknown` (ordinal 8) included. */
  lemma GuessResultWireRoundTrip(g: GuessResult)
    ensures NormalizeGuessResult(Str(GuessResultName(g))) == g
    ensures NormalizeGuessResult(Num(GuessResultOrdinal(g) as real)) == g
  {
  }

  // ----- The clue history -----

  /**
   * The `${team}|${clue}|${number}` key, as its three parts: neither a team
   * name nor a rendered number contains '|', so the string determines them.
   */
  datatype Signature = Signature(team: Team, clue: string, number: int)

  datatype ClueHistoryItem = ClueHistoryItem(
    id: string, team: Team, clue: string, number: int, total: int, remaining: int)

  /** The fields of the game snapshot the effect reads. */
  datatype GameDto = GameDto(
    createdAt: string,
    currentClue: Option<string>,
    currentClueNumber: int,
    currentTeam: Value,
    startingTeam: Value,
    redCardsRemaining: int,
    blueCardsRemaining: int)

  /** The history state and the two refs the effect writes. */
  datatype HistoryState = HistoryState(
    history: seq<ClueHistoryItem>,
    activeKey: Option<Signature>,
    lastCreatedAt: Option<string>)

  /** The history before any game has been seen. */
  function InitialHistory(): HistoryState
  {
    HistoryState([], None, None)
  }

  /** `totalForTeam`: 9 for the team that started, 8 for the other. */
  function TotalForTeam(team: Team, startingTeam: Value): int
  {
    if team == Team.Red then (if NormalizeTeam(startingTeam) == Some(Team.Red) then 9 else 8)
    else (if NormalizeTeam(startingTeam) == Some(Team.Blue) then 9 else 8)
  }

  function Take(items: seq<ClueHistoryItem>, n: nat): (r: seq<ClueHistoryItem>)
    ensures |r| == if |items| <= n then |items| else n
    ensures r == items[..|r|]
  {
    if |items| <= n then items else items[..n]
  }

  /** The `previous.map(...)` branch: only a matching head gets the new `remaining`. */
  function UpdateHead(history: seq<ClueHistoryItem>, sig: Signature, remaining: int): seq<ClueHistoryItem>
  {
    seq(|history|, i requires 0 <= i < |history| =>
      if i != 0 || history[i].team != sig.team || history[i].clue != sig.clue || history[i].number != sig.number
      then history[i]
      else history[i].(remaining := remaining))
  }

  /** The signature of a snapshot that shows a clue and a decodable team. */
  function SignatureOf(game: GameDto): Option<Signature>
  {
    if game.currentClue.None? || game.currentClue.value == "" then None
    else match NormalizeTeam(game.currentTeam)
      case None => None
      case Some(team) => Some(Signature(team, game.currentClue.value, game.currentClueNumber))
  }

  /** `remainingForTeam`. */
  function RemainingFor(game: GameDto, team: Team): int
  {
    if team == Team.Red then game.redCardsRemaining else game.blueCardsRemaining
  }

  /** A new game (another `createdAt`) clears the history and the active key. */
  function ResetFor(st: HistoryState, game: GameDto): HistoryState
  {
    if st.lastCreatedAt != Some(game.createdAt) then HistoryState([], None, Some(game.createdAt)) else st
  }

  /**
   * One run of the effect on snapshot `game`. `freshId` stands for
   * `${Date.now()}-${Math.random()}`.
   */
  function ClueHistoryStep(st: HistoryState, game: GameDto, freshId: string): HistoryState
  {
    var st1 := ResetFor(st, game);
    match SignatureOf(game)
      case None => st1
      case Some(sig) =>
        var remaining := RemainingFor(game, sig.team);
        if st1.activeKey != Some(sig) then
          var item := ClueHistoryItem(freshId, sig.team, sig.clue, sig.number,
                                      TotalForTeam(sig.team, game.startingTeam), remaining);
          st1.(activeKey := Some(sig), history := Take([item] + st1.history, 10))
        else
          st1.(history := UpdateHead(st1.history, sig, remaining))
  }

  /** The total shown is 9 exactly for the team that started. */
  lemma TotalForTeamIsNineForStarter(team: Team, startingTeam: Value)
    ensures TotalForTeam(team, startingTeam) == 9 <==> NormalizeTeam(startingTeam) == Some(team)
    ensures TotalForTeam(team, startingTeam) == 9 || TotalForTeam(team, startingTeam) == 8
  {
  }

  /**
   * A new signature puts one item at the front, built from the snapshot, and
   * keeps at most nine of the earlier items behind it, in order.
   */
  lemma NewSignaturePrepends(st: HistoryState, game: GameDto, freshId: string)
    requires SignatureOf(game).Some? && ResetFor(st, game).activeKey != SignatureOf(game)
    ensures var sig := SignatureOf(game).value;
      var before := ResetFor(st, game).history;
      var after := ClueHistoryStep(st, game, freshId);
      && after.activeKey == Some(sig)
      && |after.history| == (if |before| < 10 then |before| + 1 else 10)
      && after.history[0] == ClueHistoryItem(freshId, sig.team, sig.clue, sig.number,
                                             TotalForTeam(sig.team, game.startingTeam), RemainingFor(game, sig.team))
      && after.history[1..] == before[..|after.history| - 1]
  {
    var sig := SignatureOf(game).value;
    var before := ResetFor(st, game).history;
    var item := ClueHistoryItem(freshId, sig.team, sig.clue, sig.number,
                                TotalForTeam(sig.team, game.startingTeam), RemainingFor(game, sig.team));
    var after := Take([item] + before, 10);
    assert after[1..] == ([item] + before)[1..|after|];
  }

  /**
   * An unchanged signature keeps every item but the head, and changes the
   * head's `remaining` only, and only when its team, clue and number match.
   */
  lemma SameSignatureUpdatesHead(st: HistoryState, game: GameDto, freshId: string)
    requires SignatureOf(game).Some? && ResetFor(st, game).activeKey == SignatureOf(game)
    ensures var sig := SignatureOf(game).value;
      var before := ResetFor(st, game).history;
      var after := ClueHistoryStep(st, game, freshId);
      && after.activeKey == Some(sig)
      && |after.history| == |before|
      && (forall i :: 0 < i < |before| ==> after.history[i] == before[i])
      && (|before| > 0 ==>
            after.history[0] == if before[0].team == sig.team && before[0].clue == sig.clue && before[0].number == sig.number
                                then before[0].(remaining := RemainingFor(game, sig.team))
                                else before[0])
  {
  }

  /** A snapshot from another game starts a fresh history holding at most the current clue. */
  lemma NewGameStartsFresh(st: HistoryState, game: GameDto, freshId: string)
    requires st.lastCreatedAt != Some(game.createdAt)
    ensures var after := ClueHistoryStep(st, game, freshId);
      && after.lastCreatedAt == Some(game.createdAt)
      && |after.history| == (if SignatureOf(game).Some? then 1 else 0)
      && after.activeKey == SignatureOf(game)
  {
  }

  /** The history never grows beyond ten items. */
  lemma HistoryAtMostTen(st: HistoryState, game: GameDto, freshId: string)
    requires |st.history| <= 10
    ensures |ClueHistoryStep(st, game, freshId).history| <= 10
  {
  }

  /** Re-running the effect on the same snapshot changes nothing, whatever id it would draw. */
  lemma ClueHistoryIdempotent(st: HistoryState, game: GameDto, id1: string, id2: string)
    ensures var once := ClueHistoryStep(st, game, id1);
      ClueHistoryStep(once, game, id2) == once
  {
    var once := ClueHistoryStep(st, game, id1);
    assert ResetFor(once, game) == once;
    if SignatureOf(game).Some? {
      var sig := SignatureOf(game).value;
      var h := once.history;
      if |h| > 0 {
        assert h[0].team == sig.team && h[0].clue == sig.clue && h[0].number == sig.number
          ==> h[0].(remaining := RemainingFor(game, sig.team)) == h[0];
      }
      assert UpdateHead(h, sig, RemainingFor(game, sig.team)) == h;
    }
  }

  /**
   * Fed the engine's own starting team, whether sent as its enum name (as the
   * backend's JSON options do) or as its ordinal, the total shown for a team
   * is the number of that team's cards on a valid board.
   */
  lemma TotalMatchesBoard(s: GameState, team: Team)
    requires Valid(s)
    ensures var cards := TeamCount(s.cards, if team == Team.Red then CardTeam.Red else CardTeam.Blue);
      && TotalForTeam(team, Str(CardTeamName(s.startingTeam))) == cards
      && TotalForTeam(team, Num(CardTeamOrdinal(s.startingTeam) as real)) == cards
  {
  }
}
