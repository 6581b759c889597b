/**
 * `InMemoryCodenamesService` (backend/Services/CodenamesService.cs): one
 * game per room id, replaced on every start, with the other calls forwarded
 * to the stored game.
 */
module CodenamesService {
  import opened Wrappers
  import opened Ids
  import opened CardAssignment
  import opened GameRules
  import opened Game
  import opened RoomService

  /** The `InvalidOperationException`s the service throws, and the game's own `SetClue` exceptions. */
  datatype ServiceError =
    | RoomNotFound
    | GameNotFound
    | ClueRejected(error: ClueError)

  /** The exception messages. */
  function ErrorMessage(e: ServiceError): string
  {
    match e
    case RoomNotFound => "Room not found."
    case GameNotFound => "Game not found for room."
    case ClueRejected(WrongPhase) => "Cannot set a clue in the current game phase."
    case ClueRejected(ClueRequired) => "Clue is required."
    case ClueRejected(NumberTooSmall) => "Clue number must be at least 1."
  }

  class InMemoryCodenamesService {
    /** The room service this one is constructed with. */
    const roomService: InMemoryRoomService
    /** `_gamesByRoomId`. */
    var gamesByRoomId: map<Guid, CodenamersGame>

    /** Every stored game belongs to the room it is filed under and keeps the game invariant. */
    ghost predicate Valid()
      reads this, gamesByRoomId.Values
    {
      forall k :: k in gamesByRoomId ==>
        gamesByRoomId[k].roomId == k && GameRules.Valid(gamesByRoomId[k].State())
    }

    constructor (roomService: InMemoryRoomService)
      ensures this.roomService == roomService
      ensures gamesByRoomId == map[]
      ensures Valid()
    {
      this.roomService := roomService;
      gamesByRoomId := map[];
    }

    /**
     * Fails with "Room not found." for an unknown room, leaving the map as
     * it was. Otherwise files a new, initialised game under `roomId`,
     * replacing any earlier one and leaving every other entry alone.
     * `gameId`, `now`, `order`, `coin` and `draws` stand for
     * `Guid.NewGuid()`, `DateTime.UtcNow` and the deal's random values.
     */
    method StartGame(roomId: Guid, gameId: Guid, now: Instant, order: seq<nat>, coin: nat, draws: seq<nat>)
      returns (r: Result<CodenamersGame, ServiceError>)
      requires Valid()
      requires IsOrdering(order, |WordList|) && coin < 2 && ValidDraws(draws, 25)
      modifies this
      ensures Valid()
      ensures roomService.GetRoomById(roomId).None? ==>
        r == Failure(RoomNotFound) && gamesByRoomId == old(gamesByRoomId)
      ensures roomService.GetRoomById(roomId).Some? ==>
        && r.Success? && fresh(r.value)
        && r.value.id == gameId && r.value.roomId == roomId && r.value.createdAt == now
        && r.value.State() == Initialized(Deck(WordList, order, coin, draws))
        && gamesByRoomId == old(gamesByRoomId)[roomId := r.value]
    {
      var room := roomService.GetRoomById(roomId);
      if room.None? {
        return Failure(RoomNotFound);
      }
      var game := new CodenamersGame(gameId, roomId, now);
      game.Initialize(order, coin, draws);
      Store(roomId, game);
      return Success(game);
    }

    /** `_gamesByRoomId[roomId] = game`. */
    method Store(roomId: Guid, game: CodenamersGame)
      requires Valid()
      requires game.roomId == roomId && GameRules.Valid(game.State())
      modifies this
      ensures gamesByRoomId == old(gamesByRoomId)[roomId := game]
      ensures Valid()
    {
      gamesByRoomId := gamesByRoomId[roomId := game];
    }

    /** `GetGame`: the stored game, or `None`. */
    function GetGame(roomId: Guid): (r: Option<CodenamersGame>)
      reads this
      ensures r.Some? <==> roomId in gamesByRoomId
    {
      if roomId in gamesByRoomId then Some(gamesByRoomId[roomId]) else None
    }

    /** A stored game is the game of the room it was asked for, and it is valid. */
    lemma GetGameFindsRoomsGame(roomId: Guid)
      requires Valid()
      ensures GetGame(roomId).Some? ==>
        GetGame(roomId).value.roomId == roomId && GameRules.Valid(GetGame(roomId).value.State())
    {
    }

    /**
     * Forwards to the room's game and returns it, or reports the exception
     * thrown: "Game not found for room." or the game's own. The map never
     * changes, and no other game does either.
     */
    method SetClue(roomId: Guid, clue: string, number: Int32) returns (r: Result<CodenamersGame, ServiceError>)
      requires Valid()
      modifies if roomId in gamesByRoomId then {gamesByRoomId[roomId]} else {}
      ensures gamesByRoomId == old(gamesByRoomId)
      ensures Valid()
      ensures roomId !in gamesByRoomId ==> r == Failure(GameNotFound)
      ensures roomId in gamesByRoomId ==>
        var game := gamesByRoomId[roomId];
        var outcome := SetClueOutcome(old(game.State()), clue, number);
        && (outcome.Success? ==> r == Success(game) && game.State() == outcome.value)
        && (outcome.Failure? ==> r == Failure(ClueRejected(outcome.error)) && game.State() == old(game.State()))
    {
      if roomId !in gamesByRoomId {
        return Failure(GameNotFound);
      }
      var game := gamesByRoomId[roomId];
      SetCluePreservesValid(game.State(), clue, number);
      var err := game.SetClue(clue, number);
      forall k | k in gamesByRoomId
        ensures gamesByRoomId[k].roomId == k && GameRules.Valid(gamesByRoomId[k].State())
      {
        if k != roomId {
          assert gamesByRoomId[k] != game;
        }
      }
      if err.Some? {
        return Failure(ClueRejected(err.value));
      }
      return Success(game);
    }

    /**
     * Forwards the guess to the room's game and returns exactly its
     * `ProcessGuess` outcome together with the game, or "Game not found for
     * room.".
     */
    method GuessWord(roomId: Guid, word: string, now: Instant) returns (r: Result<(GuessResult, CodenamersGame), ServiceError>)
      requires Valid()
      modifies if roomId in gamesByRoomId then {gamesByRoomId[roomId]} else {}
      ensures gamesByRoomId == old(gamesByRoomId)
      ensures Valid()
      ensures roomId !in gamesByRoomId ==> r == Failure(GameNotFound)
      ensures roomId in gamesByRoomId ==>
        var game := gamesByRoomId[roomId];
        var outcome := Guess(old(game.State()), word, now);
        r == Success((outcome.1, game)) && game.State() == outcome.0
    {
      if roomId !in gamesByRoomId {
        return Failure(GameNotFound);
      }
      var game := gamesByRoomId[roomId];
      GuessPreservesValid(game.State(), word, now);
      var g := game.ProcessGuess(word, now);
      forall k | k in gamesByRoomId
        ensures gamesByRoomId[k].roomId == k && GameRules.Valid(gamesByRoomId[k].State())
      {
        if k != roomId {
          assert gamesByRoomId[k] != game;
        }
      }
      return Success((g, game));
    }

    /** Ends the turn of the room's game and returns it, or "Game not found for room.". */
    method EndTurn(roomId: Guid) returns (r: Result<CodenamersGame, ServiceError>)
      requires Valid()
      modifies if roomId in gamesByRoomId then {gamesByRoomId[roomId]} else {}
      ensures gamesByRoomId == old(gamesByRoomId)
      ensures Valid()
      ensures roomId !in gamesByRoomId ==> r == Failure(GameNotFound)
      ensures roomId in gamesByRoomId ==>
        var game := gamesByRoomId[roomId];
        r == Success(game) && game.State() == EndTurnState(old(game.State()))
    {
      if roomId !in gamesByRoomId {
        return Failure(GameNotFound);
      }
      var game := gamesByRoomId[roomId];
      EndTurnPreservesValid(game.State());
      game.EndTurn();
      forall k | k in gamesByRoomId
        ensures gamesByRoomId[k].roomId == k && GameRules.Valid(gamesByRoomId[k].State())
      {
        if k != roomId {
          assert gamesByRoomId[k] != game;
        }
      }
      return Success(game);
    }
  }
}
