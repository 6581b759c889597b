# Codenames core, modelled in Dafny

This project models the game core of a small web portal that hosts a Codenames game with a Bulgarian word list.

**Backend (C#)**
- `CardAssignment.Generate` deals 25 words with a 9/8/7/1 split of red, blue, neutral and assassin labels, shuffled with Fisher-Yates.
- `CodenamersGame` is the game's state machine: `Initialize`, `ProcessGuess`, `SetClue` and `EndTurn`.
- `InMemoryRoomService` creates rooms with random 8-character invite codes, looks them up by code (case-insensitively) and by id, and adds and removes players.
- `InMemoryCodenamesService` keeps one game per room and forwards the calls to it.
- `CodenamesMappings.ToResponse` and `RoomMappings.ToResponse` project games and rooms onto response records. The game projection hides the teams of face-down cards unless the key is requested.

**Frontend (TypeScript)**
- `GamePage.tsx` holds the decoders that accept an enum either by name or by ordinal, and the effect that maintains the clue history.
- `useSignalRLobby.ts` holds the reducers for the other players' hover and selection cursors.

**How it is modelled**
- Pure rules are datatypes and functions:
  - `GameRules` holds the game state as a value and every transition.
  - `CardAssignment` holds the deal.
  - The projections, the decoders and the reducers are functions too.
- Objects whose fields the source updates are classes whose methods are proved against those functions:
  - `CodenamersGame`: every method ensures that its new `State()` is the pure rule applied to `old(State())`.
  - `Room`
  - `InMemoryRoomService`
  - `InMemoryCodenamesService`
- The label list is shuffled in place on an `array`, as the source does.
- The game invariant `GameRules.Valid` holds for every game the service stores. It says:
  - the board has 25 cards with the 9/8/7/1 split;
  - each red and blue counter equals the number of that team's cards still face down;
  - a counter reaches 0 only once the game is over;
  - the phase, clue and guess count agree.

  `Valid` is proved initial for every deal and preserved by every operation.

Randomness, the clock and `Guid.NewGuid()` become parameters:
- the word order is a permutation `order`;
- the coin is 0 or 1;
- the shuffle draws satisfy `draws[k] <= k`;
- the invite-code draws are below 36;
- new ids and timestamps are passed in by the caller.

C# `int` is the subtype `Int32`, and `number + 1` in `SetClue` wraps explicitly (`Wrap32`).

The functions `GameRules.Guess`, `SetClueOutcome`, `EndTurnState`, `Initialized`, `CardAssignment.Deck`, `RoomService.Join`/`Remove` and `GamePage.ClueHistoryStep` are the specifications. The lemmas below state what they do.

### Behaviour of the code worth knowing (modelled as written)

- **Clue number `int.MaxValue`.** `SetClue` accepts `int.MaxValue`, since the controller only rejects numbers below 1. `number + 1` then wraps to `int.MinValue`, so every guess in that turn answers `InvalidPhase` until the turn is ended (`GameRules.MaxClueNumberBlocksGuessing`).
- **`EndTurn` on a finished game.** It still switches the team and resets the phase to `SpymasterClue`. The result stays, so guesses and clues stay rejected (`GameRules.FinishedGameFrozen`).
- **A departing host.** When the host leaves a room, nobody becomes host (`RoomService.RemoveHostLeavesNone`).
- **Collisions.** A repeated room id or invite code overwrites the earlier dictionary entry. Starting a game replaces the room's earlier game.
- **`JoinRoom`.** The object initializer of the new `Player` (backend/Services/RoomService.cs:73-79) does not set `Team` and `Role`, which backend/Domain/Player.cs:9-10 declares `required`. C# rejects such an initializer (error CS9035), so that code does not compile as written. The enum defaults `Red` and `Operative` are an assumption of the model, not the behaviour of the program.

## Model

| member | source | states |
|---|---|---|
| Text.FoldChar | backend/Domain/CodenamersGame.cs:68 | ASCII a-z and Cyrillic а-я fold to the upper-case letter 32 code points lower, ѐ-џ (U+0450..U+045F) to the one 80 lower (U+0400..U+040F); every other character stays as it is; only letters fold into A-Z |
| Text.Fold | backend/Services/RoomService.cs:16 | the folded key has the same length and is folded character by character |
| Text.FoldCharIdempotent | backend/Domain/CodenamersGame.cs:68 | folding a character twice is the same as folding it once |
| Text.FoldIdempotent | backend/Services/RoomService.cs:16 | a folded key is its own fold, so it is a canonical key of the case-insensitive dictionary |
| Text.EqualsIgnoreCase | backend/Domain/CodenamersGame.cs:68 | two strings are equal ignoring case when their folds agree; `FoldIdempotent` and `GameRules.FirstMatch` carry its properties |
| Text.IsBlank | backend/Domain/CodenamersGame.cs:203 | `string.IsNullOrWhiteSpace` on a string: empty or only .NET whitespace; `GameRules.SetCluePreservesValid` states that a blank clue gives ClueRequired |
| Cards.Opponent | backend/Domain/CodenamersGame.cs:149 | the other team is always Red or Blue, and it is Blue exactly when the input is Red |
| Cards.Teams | backend/Domain/Card.cs:6 | one team per card, in board order |
| Cards.TeamCountIsMultiplicity | backend/Domain/Card.cs:6 | the number of cards carrying a label equals that label's multiplicity among the board's teams |
| CardAssignment.Repeat | backend/Domain/CardAssignment.cs:58-59 | a filling loop adds exactly n labels |
| CardAssignment.Swap | backend/Domain/CardAssignment.cs:76 | the tuple swap keeps the list's length |
| CardAssignment.FisherYates | backend/Domain/CardAssignment.cs:73-77 | the shuffle keeps the list's length |
| CardAssignment.Shuffle | backend/Domain/CardAssignment.cs:73-77 | after the in-place loop the array is the Fisher-Yates shuffle of its old contents and a permutation of them |
| CardAssignment.BuildLabels | backend/Domain/CardAssignment.cs:51-70 | a fresh 25-slot array holding the red, blue and neutral runs and the assassin, in that order |
| CardAssignment.BuildCards | backend/Domain/CardAssignment.cs:79-89 | card k is a face-down card with the k-th selected word and the k-th shuffled label, and it is the assassin exactly when that label is |
| CardAssignment.Generate | backend/Domain/CardAssignment.cs:36-97 | returns exactly the deal `Deck` determined by the word order, the coin and the shuffle draws |
| CardAssignment.Deck | backend/Domain/CardAssignment.cs:36-97 | the deal as a function of the word order, the coin and the draws; `DeckShape`, `DeckCounts` and `DeckCards` carry its contract |
| CardAssignment.DeckCards | backend/Domain/CardAssignment.cs:80-90 | card k pairs the k-th selected word with the k-th shuffled label, and red starts exactly when the coin is 0 |
| CardAssignment.RepeatCount | backend/Domain/CardAssignment.cs:57-67 | a run of n labels t holds n copies of t and none of any other label |
| CardAssignment.LabelCounts | backend/Domain/CardAssignment.cs:50-70 | 25 labels: 9 of the starting colour, 8 of the other, 7 neutral, 1 assassin |
| CardAssignment.SwapPermutes | backend/Domain/CardAssignment.cs:76 | a swap is a permutation |
| CardAssignment.FisherYatesPermutes | backend/Domain/CardAssignment.cs:73-77 | the whole shuffle is a permutation of the labels |
| CardAssignment.DeckTeams | backend/Domain/CardAssignment.cs:85 | the teams on the board are the shuffled labels, in order |
| CardAssignment.DeckShape | backend/Domain/CardAssignment.cs:80-90 | 25 face-down cards; a card is the assassin exactly when its label is; card k shows word `order[k]`; the teams are a permutation of the labels |
| CardAssignment.DeckCounts | backend/Domain/CardAssignment.cs:50-90 | a dealt board has 9/8 red, 8/9 blue, 7 neutral and 1 assassin card, following the coin |
| CardAssignment.WordListRepeats | backend/Domain/CardAssignment.cs:8-34 | the vocabulary has 115 entries; "ИСТОРИЯ" appears at 36 and 77, and "ЗЕМЯ" at 18 and 113 |
| CardAssignment.DeckCanRepeatAWord | backend/Domain/CardAssignment.cs:41-44 | some word order puts the same word on two cards |
| CardAssignment.Dedupe | backend/Domain/CardAssignment.cs:8-34 | the corrected vocabulary: no two entries fold alike, every entry comes from the list, and every word of the list is still present |
| CardAssignment.DistinctVocabularyDealsDistinctWords | backend/Domain/CardAssignment.cs:41-44 | a vocabulary without case-insensitive repeats deals 25 pairwise different words |
| GameRules.Wrap32 | backend/Domain/CodenamersGame.cs:215 | unchecked 32-bit arithmetic: the result lies in `int`'s range, differs from the exact value by a multiple of 2^32, and equals it while the exact value is in range |
| GameRules.RevealCount | backend/Domain/CodenamersGame.cs:76 | turning a face-down card lowers the face-down count of its own team by one, and of no other team |
| GameRules.RevealKeepsTeams | backend/Domain/CodenamersGame.cs:76 | revealing keeps the board's size and every card's team |
| GameRules.RevealKeepsCount | backend/Domain/CodenamersGame.cs:76 | revealing a card keeps the number of cards of every label on the board |
| GameRules.AllHiddenCount | backend/Domain/CodenamersGame.cs:44-48 | on a fresh board each team's face-down count is its number of cards |
| GameRules.HiddenCardCounts | backend/Domain/CodenamersGame.cs:93-99 | a face-down card's team has at least one face-down card |
| GameRules.FirstMatch | backend/Domain/CodenamersGame.cs:68-70 | the first card whose word equals the guess ignoring case, or none when no card matches |
| GameRules.Initialized | backend/Domain/CodenamersGame.cs:38-56 | the state `Initialize` leaves for a deal; `InitializedValid` carries its contract |
| GameRules.Guess | backend/Domain/CodenamersGame.cs:58-192 | the new state and outcome of `ProcessGuess`; `GuessRejections`, `GuessAssassin`, `GuessCorrectTeam`, `GuessNeutral`, `GuessEnemyTeam` and `GuessPreservesValid` carry its contract |
| GameRules.SetClueOutcome | backend/Domain/CodenamersGame.cs:194-218 | the new state or the exception of `SetClue`; `SetCluePreservesValid` and `MaxClueNumberBlocksGuessing` carry its contract |
| GameRules.EndTurnState | backend/Domain/CodenamersGame.cs:220-230 | the state after `EndTurn`; `EndTurnPreservesValid` and `FinishedGameFrozen` carry its contract |
| GameRules.InitializedFromBoard | backend/Domain/CodenamersGame.cs:38-56 | a face-down board with the 9/8/7/1 split initialises to a valid game |
| GameRules.InitializedValid | backend/Domain/CodenamersGame.cs:38-56 | for every deal: a valid game; the starting team moves first and has 9 cards, the other 8; spymaster phase; no clue; 0 guesses; no result |
| GameRules.RevealFacts | backend/Domain/CodenamersGame.cs:76 | in a valid game a reveal keeps the board shape and lowers exactly the revealed card's counter |
| GameRules.GuessAssassin | backend/Domain/CodenamersGame.cs:79-90 | the assassin ends the game for the other team, records the time and leaves the counters alone |
| GameRules.GuessCorrectTeam | backend/Domain/CodenamersGame.cs:93-139 | an own card lowers the own counter by one. The last one wins. Otherwise the last guess ends the turn (CorrectTeamTurnEnds) and any other guess lowers the guess count. The game stays valid. |
| GameRules.GuessNeutral | backend/Domain/CodenamersGame.cs:142-146 | a neutral card ends the turn and keeps both counters |
| GameRules.GuessEnemyTeam | backend/Domain/CodenamersGame.cs:149-188 | an enemy card lowers the enemy counter. The enemy's last card makes the enemy win; otherwise the turn passes to the enemy. |
| GameRules.GuessRejections | backend/Domain/CodenamersGame.cs:62-74 | InvalidPhase, NotFound and AlreadyRevealed each happen exactly under their guard, and exactly these three leave the state unchanged |
| GameRules.GuessPreservesValid | backend/Domain/CodenamersGame.cs:58-192 | every guess keeps a valid game valid; it either changes nothing (a rejection) or turns exactly one matching card with a turning outcome |
| GameRules.SetCluePreservesValid | backend/Domain/CodenamersGame.cs:194-218 | the three errors occur exactly in source order; on success the game stays valid, the clue and number are set, guesses = number + 1 below `int.MaxValue`, and nothing else changes |
| GameRules.MaxClueNumberBlocksGuessing | backend/Domain/CodenamersGame.cs:215 | a clue number of `int.MaxValue` wraps the guess count to `int.MinValue`, and every guess is then InvalidPhase |
| GameRules.EndTurnPreservesValid | backend/Domain/CodenamersGame.cs:220-230 | EndTurn passes the turn to the other team, clears the clue and the guesses, and keeps the board, counters and result |
| GameRules.ApplyPreservesValid | backend/Domain/CodenamersGame.cs:58-230 | any single guess, clue or end of turn keeps the game valid |
| GameRules.RunPreservesValid | backend/Domain/CodenamersGame.cs:58-230 | every sequence of operations keeps the game valid |
| GameRules.FinishedGameFrozen | backend/Domain/CodenamersGame.cs:62-65 | once a result is set, no sequence of operations changes the board, the result or the counters, and guesses and clues are rejected |
| GameRules.RunFollows | backend/Domain/CodenamersGame.cs:76 | operations never change a word or a team, and a face-up card stays face up |
| GameRules.ApplyKeepsShadowed | backend/Domain/CodenamersGame.cs:68-76 | a card whose word an earlier card already carries is never the one a guess turns |
| GameRules.RepeatedWordStaysHidden | backend/Domain/CodenamersGame.cs:68-70 | such a shadowed card stays face down through every sequence of operations |
| GameRules.RepeatedWordBlocksWin | backend/Domain/CodenamersGame.cs:102-126 | if the shadowed card is red or blue, that team's counter never reaches 0, so that team can never win by clearing its cards |
| GameRules.DealtRepeatIsShadowed | backend/Domain/CodenamersGame.cs:43-44 | a deal that draws both copies of "ИСТОРИЯ" first gives a game with a shadowed card |
| GameRules.DistinctBoardIsGuessable | backend/Domain/CodenamersGame.cs:68-70 | on a board without case-insensitive repeats, guessing a card's word finds that card |
| Game.CodenamersGame.constructor | backend/Domain/CodenamersGame.cs:5-36 | a new game holds the property initialisers: red to move, 9/8 counters, spymaster phase, no cards |
| Game.CodenamersGame.Initialize | backend/Domain/CodenamersGame.cs:38-56 | the new state is the dealt game, and it is valid |
| Game.CodenamersGame.Deal | backend/Domain/CodenamersGame.cs:42-54 | the board becomes the dealt cards, the starting and current team follow the coin with 9/8 counters, and clue, guesses, result and end time are cleared |
| Game.CodenamersGame.Finish | backend/Domain/CodenamersGame.cs:81-88 | sets the result, the GameOver phase and the end time |
| Game.CodenamersGame.ProcessGuess | backend/Domain/CodenamersGame.cs:58-192 | the new state and the returned outcome are `Guess` of the old state |
| Game.CodenamersGame.OwnCard | backend/Domain/CodenamersGame.cs:93-139 | the current team's counter drops by one; a counter at 0 ends the game in that team's favour; otherwise the guess count drops and the turn ends when it reaches 0 |
| Game.CodenamersGame.EnemyCard | backend/Domain/CodenamersGame.cs:149-188 | the opponent's counter drops by one; a counter at 0 sets that team's win; the turn passes only while no result is set; the outcome is always EnemyTeam |
| Game.CodenamersGame.SetClue | backend/Domain/CodenamersGame.cs:194-218 | on an error, returns it and the state is unchanged; otherwise the state is `SetClueOutcome` of the old one |
| Game.CodenamersGame.EndTurn | backend/Domain/CodenamersGame.cs:220-230 | the new state is `EndTurnState` of the old one |
| Rooms.Room.constructor | backend/Domain/Room.cs:3-11 | a new room has the given id, game key, code and time, and no players |
| RoomService.AlphabetLayout | backend/Services/RoomService.cs:112 | the 36 characters are A-Z followed by 0-9 |
| RoomService.InviteCode | backend/Services/RoomService.cs:110-117 | a code has 8 characters, all from the alphabet |
| RoomService.InviteCodeRoundTrip | backend/Services/RoomService.cs:114-116 | the draws can be read back from the code, so different draws give different codes |
| RoomService.InviteCodeIsFolded | backend/Services/RoomService.cs:110-117 | a generated code is already in folded form |
| RoomService.IndexOfId | backend/Services/RoomService.cs:98 | the first player with the id, or none when no player has it |
| RoomService.Join | backend/Services/RoomService.cs:57-85 | the player list after `JoinRoom`, or none for a taken name; `JoinKeepsRoster` and `JoinThenRemove` carry its contract |
| RoomService.Remove | backend/Services/RoomService.cs:87-108 | the player list after `RemovePlayerFromRoom`, or none for an unknown id; `RemoveDropsFirstMatch`, `RemoveKeepsRoster` and `RemoveHostLeavesNone` carry its contract |
| RoomService.JoinKeepsRoster | backend/Services/RoomService.cs:57-85 | a join is refused exactly for a taken name. Otherwise it appends one player with the given id, name and time, host exactly when the room was empty, and keeps names distinct with the host first. |
| RoomService.RemoveDropsFirstMatch | backend/Services/RoomService.cs:98-105 | removal fails exactly when no player has the id; otherwise it drops the first such player and keeps the others in order |
| RoomService.RemoveKeepsRoster | backend/Services/RoomService.cs:87-108 | removing a player keeps the roster invariant and shortens it by one |
| RoomService.RemoveHostLeavesNone | backend/Services/RoomService.cs:104 | when the host is removed, nobody left is host |
| RoomService.JoinThenRemove | backend/Services/RoomService.cs:73-104 | joining with a fresh id and then removing that id gives back the earlier roster |
| RoomService.ApplyRosterKeepsRoster | backend/Services/RoomService.cs:57-108 | one join or removal keeps the roster invariant |
| RoomService.RunRosterKeepsRoster | backend/Services/RoomService.cs:57-108 | every sequence of joins and removals keeps the roster invariant |
| RoomService.InMemoryRoomService.constructor | backend/Services/RoomService.cs:16-17 | both dictionaries start empty |
| RoomService.InMemoryRoomService.CreateRoom | backend/Services/RoomService.cs:20-39 | a fresh room with the given id, key, generated code and time, filed under both keys; the service stays valid |
| RoomService.InMemoryRoomService.GetRoomByInviteCode | backend/Services/RoomService.cs:41-47 | a room is found exactly when the folded code is a key |
| RoomService.InMemoryRoomService.GetRoomById | backend/Services/RoomService.cs:49-55 | a room is found exactly when the id is a key |
| RoomService.InMemoryRoomService.InviteCodeLookup | backend/Services/RoomService.cs:41-47 | codes that are equal ignoring case find the same room, and the room's own code matches the one asked for |
| RoomService.InMemoryRoomService.RoomIdLookup | backend/Services/RoomService.cs:49-55 | the room found by id has that id |
| RoomService.InMemoryRoomService.JoinRoom | backend/Services/RoomService.cs:57-85 | unknown room or taken name gives null and no change; otherwise the roster is `Join` of the old one and the new player is returned |
| RoomService.InMemoryRoomService.RemovePlayerFromRoom | backend/Services/RoomService.cs:87-108 | false with no change for an unknown room or player; otherwise true and the roster is `Remove` of the old one |
| CodenamesService.InMemoryCodenamesService.constructor | backend/Services/CodenamesService.cs:14-17 | no games are stored |
| CodenamesService.InMemoryCodenamesService.StartGame | backend/Services/CodenamesService.cs:19-39 | "Room not found." leaves the map unchanged; otherwise a fresh dealt game is filed under the room's id, replacing any earlier one |
| CodenamesService.InMemoryCodenamesService.Store | backend/Services/CodenamesService.cs:36 | the game is filed under the room id, replacing any earlier entry, and every other entry stays |
| CodenamesService.InMemoryCodenamesService.GetGame | backend/Services/CodenamesService.cs:41-47 | a game is found exactly when one is stored for the room |
| CodenamesService.InMemoryCodenamesService.GetGameFindsRoomsGame | backend/Services/CodenamesService.cs:41-47 | the game found belongs to that room and is valid |
| CodenamesService.InMemoryCodenamesService.SetClue | backend/Services/CodenamesService.cs:49-61 | "Game not found for room." or the game's clue error with that game unchanged; otherwise that game moves by `SetClueOutcome`; the map of games is unchanged |
| CodenamesService.InMemoryCodenamesService.GuessWord | backend/Services/CodenamesService.cs:63-74 | "Game not found for room.", or the game's own guess outcome together with the game; the map of games is unchanged |
| CodenamesService.InMemoryCodenamesService.EndTurn | backend/Services/CodenamesService.cs:76-88 | "Game not found for room.", or that game's turn ends; the map of games is unchanged |
| CodenamesMappings.CardsView | backend/Contracts/CodenamesMappings.cs:11-16 | one response per card, in board order |
| CodenamesMappings.CardView | backend/Contracts/CodenamesMappings.cs:12-16 | one card's response; `CardViewShowsTeamExactly` and `OperativeViewHidesKey` carry its contract |
| CodenamesMappings.Project | backend/Contracts/CodenamesMappings.cs:7-37 | the snapshot built from a game's fields; `ProjectCopiesFields` and `ValidGameCounters` carry its contract |
| CodenamesMappings.ToResponse | backend/Contracts/CodenamesMappings.cs:7-37 | reads only the game; each card keeps its word and face-up flag, and shows its team exactly when the key is requested or the card is face up; the room id, both teams, the phase, the clue and its number, the guesses, both counters, the creation and end times, and the result's winner, reason and end reason are passed through |
| CodenamesMappings.CardViewShowsTeamExactly | backend/Contracts/CodenamesMappings.cs:12-15 | a card's team is visible exactly under `revealKey` or face up, and then it is the true team |
| CodenamesMappings.OperativeViewHidesKey | backend/Contracts/CodenamesMappings.cs:15 | two boards that differ only in the teams of face-down cards give the same operative view |
| CodenamesMappings.VisibleTeamsCount | backend/Contracts/CodenamesMappings.cs:11-16 | the key view shows every team; the operative view shows as many as there are face-up cards |
| CodenamesMappings.ProjectCopiesFields | backend/Contracts/CodenamesMappings.cs:18-35 | room id, times, teams, phase, clue, counters and result are passed through unchanged |
| CodenamesMappings.KeyViewCounters | backend/Contracts/CodenamesMappings.cs:11-16 | in the key view, a team's face-down cards can be counted from the response alone |
| CodenamesMappings.ValidGameCounters | backend/Contracts/CodenamesMappings.cs:22-35 | for a valid game the key view's counters agree with the face-down cards it lists |
| RoomMappings.PlayersView | backend/Contracts/RoomMappings.cs:11-19 | one response per player, in roster order |
| RoomMappings.PlayerView | backend/Contracts/RoomMappings.cs:11-19 | one player's response; `PlayerViewInjective` and `NamesAreDistinct` carry its contract |
| RoomMappings.ToResponse | backend/Contracts/RoomMappings.cs:7-28 | reads only the room and passes its id, key, code, time and players through |
| RoomMappings.NamesAreDistinct | backend/Contracts/RoomMappings.cs:17-18 | `ToString()` of the team and of the role is injective |
| RoomMappings.PlayerViewInjective | backend/Contracts/RoomMappings.cs:11-19 | the player projection loses nothing: equal responses come from equal players |
| RoomMappings.ViewKeepsRoster | backend/Contracts/RoomMappings.cs:11-19 | the response of a valid roster has distinct names and at most the first player as host |
| GamePage.NormalizeRole | frontend/src/pages/GamePage.tsx:10-18 | the role decoder; `NormalizeRoleDecodes` carries its contract |
| GamePage.NormalizeTeam | frontend/src/pages/GamePage.tsx:20-27 | the team decoder; `NormalizeTeamDecodes` carries its contract |
| GamePage.NormalizeGamePhase | frontend/src/pages/GamePage.tsx:29-37 | the phase decoder; `NormalizeGamePhaseDecodes` carries its contract |
| GamePage.NormalizeCardTeam | frontend/src/pages/GamePage.tsx:39-48 | the card-team decoder; `NormalizeCardTeamDecodes` carries its contract |
| GamePage.NormalizeGuessResult | frontend/src/pages/GamePage.tsx:61-89 | the outcome decoder; `NormalizeGuessResultDecodes` and `GuessResultWireRoundTrip` carry its contract |
| GamePage.NormalizeRoleDecodes | frontend/src/pages/GamePage.tsx:10-18 | a role decodes from exactly its name or its ordinal |
| GamePage.NormalizeTeamDecodes | frontend/src/pages/GamePage.tsx:20-27 | a team decodes from exactly its name or its ordinal; "Neutral" and 2 decode to nothing |
| GamePage.NormalizeGamePhaseDecodes | frontend/src/pages/GamePage.tsx:29-37 | a phase decodes from exactly its name or its ordinal |
| GamePage.NormalizeCardTeamDecodes | frontend/src/pages/GamePage.tsx:39-48 | a card team decodes from exactly its name or its ordinal |
| GamePage.NormalizeGuessResultDecodes | frontend/src/pages/GamePage.tsx:61-89 | each known outcome decodes from exactly its name or ordinal; Unknown is the answer for everything else |
| GamePage.GuessResultWireRoundTrip | frontend/src/pages/GamePage.tsx:61-89 | every backend outcome, sent by name or by ordinal, decodes back to itself |
| GamePage.Take | frontend/src/pages/GamePage.tsx:297 | `slice(0, n)` is the prefix of length min(n, length) |
| GamePage.ClueHistoryStep | frontend/src/pages/GamePage.tsx:267-311 | one run of the clue-history effect; `NewSignaturePrepends`, `SameSignatureUpdatesHead`, `NewGameStartsFresh`, `HistoryAtMostTen` and `ClueHistoryIdempotent` carry its contract |
| GamePage.TotalForTeamIsNineForStarter | frontend/src/pages/GamePage.tsx:281-283 | the total is 9 exactly for the starting team, else 8 |
| GamePage.NewSignaturePrepends | frontend/src/pages/GamePage.tsx:287-297 | a new clue signature puts one item built from the snapshot at the front and keeps at most nine earlier items behind it, in order |
| GamePage.SameSignatureUpdatesHead | frontend/src/pages/GamePage.tsx:300-309 | the same signature only refreshes `remaining` on a matching first item; the length and the other items stay |
| GamePage.NewGameStartsFresh | frontend/src/pages/GamePage.tsx:270-274 | another `createdAt` clears the history and the key before the clue is looked at |
| GamePage.HistoryAtMostTen | frontend/src/pages/GamePage.tsx:297 | the history never grows past ten items |
| GamePage.ClueHistoryIdempotent | frontend/src/pages/GamePage.tsx:267-311 | running the effect again on the same snapshot changes nothing |
| GamePage.TotalMatchesBoard | frontend/src/pages/GamePage.tsx:281-283 | for a valid game, the total shown for a team is its number of cards on the board, whether the starting team arrives as a name or an ordinal |
| LobbyCursors.Without | frontend/src/hooks/useSignalRLobby.ts:33-34 | the player's key is gone and every other entry is untouched |
| LobbyCursors.PlayerLeft | frontend/src/hooks/useSignalRLobby.ts:30-42 | the player-left reducer; `PlayerLeftRemovesOnlyThatPlayer` carries its contract |
| LobbyCursors.SelectionUpdated | frontend/src/hooks/useSignalRLobby.ts:63-83 | the selection reducer; `SelectAppendsOnce`, `DeselectRemovesAll`, `SelectionIdempotent`, `SelectThenDeselect` and `SelectionKeepsNoDuplicates` carry its contract |
| LobbyCursors.PlayerLeftRemovesOnlyThatPlayer | frontend/src/hooks/useSignalRLobby.ts:30-42 | a departing player loses its hover and its selection and nobody else's change |
| LobbyCursors.HoverUpdated | frontend/src/hooks/useSignalRLobby.ts:56-61 | the player's hover becomes the word (or null), and the others are untouched |
| LobbyCursors.Filter | frontend/src/hooks/useSignalRLobby.ts:80 | the word is gone, nothing new appears, and a list without the word is returned unchanged |
| LobbyCursors.FilterAppend | frontend/src/hooks/useSignalRLobby.ts:80 | filtering distributes over concatenation |
| LobbyCursors.FilterCounts | frontend/src/hooks/useSignalRLobby.ts:80 | filtering removes every copy of the word and keeps every other word as often as before |
| LobbyCursors.SelectAppendsOnce | frontend/src/hooks/useSignalRLobby.ts:64-76 | selecting a word already selected changes nothing; otherwise it is appended at the end; other players are untouched |
| LobbyCursors.SelectionIdempotent | frontend/src/hooks/useSignalRLobby.ts:63-83 | delivering the same selection event twice is the same as once |
| LobbyCursors.DeselectRemovesAll | frontend/src/hooks/useSignalRLobby.ts:78-81 | deselecting removes every copy of the word from that player's list and keeps the other words; other players are untouched |
| LobbyCursors.SelectThenDeselect | frontend/src/hooks/useSignalRLobby.ts:63-83 | selecting a new word and deselecting it gives back the player's list |
| LobbyCursors.FilterKeepsNoDuplicates | frontend/src/hooks/useSignalRLobby.ts:80 | filtering a list without duplicates leaves none |
| LobbyCursors.SelectionKeepsNoDuplicates | frontend/src/hooks/useSignalRLobby.ts:63-83 | if no player's selection has a duplicate, none has one after any selection event |

## Left out

- Locking (`SyncRoot`, `_syncRoot`) is left out. Every operation is modelled as one atomic step.
- `Random`, `DateTime.UtcNow`, `Date.now()`, `Math.random()` and `Guid.NewGuid()` are parameters, for the reasons given above. `OrderBy(_ => random.Next())` becomes an arbitrary permutation `order`, so the distribution of deals is not modelled.
- Card objects become values in the game's card sequence, and `IsRevealed = true` becomes a sequence update. Nothing outside the game holds a card, so no aliasing is lost.
- Text.Fold folds only ASCII a-z and U+0430..U+045F, which cover the vocabulary and the invite alphabet. .NET's ordinal case mapping upper-cases other lower-case letters too (é, ñ, ґ U+0491, the U+0460..U+04FF pairs); those stay unchanged in the model.
- Text.FoldChar: the same limit; its contract states the fold for those two ranges and the identity elsewhere, which differs from .NET for the other lower-case letters.
- Text.IsBlank covers only non-null strings. It is `string.IsNullOrWhiteSpace` with .NET's whitespace characters listed; a clue in the model is always a string, so the null case is not modelled.
- Exceptions become `Failure` results (`ServiceError`, `ClueError`), with the source's messages in `ErrorMessage`. Which exception type is thrown is not modelled.
- The red and blue counters are unbounded integers. The game invariant keeps them between 0 and 9, so a 32-bit decrement could not wrap.
- In the GamePage clue history, the refs `activeHistoryKeyRef` and `lastGameCreatedAtRef` are fields of the history state. The signature string `${team}|${clue}|${number}` is the triple it encodes; this loses nothing, since a team name and a rendered number contain no '|'. React's scheduling of the effect is not modelled: one run is the function `ClueHistoryStep`.
- JavaScript numbers are `real`. `NaN`, infinities and other non-string and non-number values are the single case `Other`, which every decoder rejects.
- The controllers, the SignalR hub, `Program.cs`, the API client, the React rendering and the remaining event handlers of `useSignalRLobby.ts` lie outside the core and are not part of this model. They only log a message or store the room they receive.

## Findings

| source | as written | input that shows it | evidently intended | confidence | as-written member | corrected member |
|---|---|---|---|---|---|---|
| backend/Domain/CardAssignment.cs:8-34 | the vocabulary lists "ИСТОРИЯ" twice (lines 18 and 26) and "ЗЕМЯ" twice (lines 14 and 33), and `Generate` draws 25 entries without removing repeats | a word order that starts with entries 36 and 77 deals "ИСТОРИЯ" on cards 0 and 1. A guess of that word always finds card 0, so card 1 can never be turned, and if it is red or blue that team can never clear its cards | every board shows 25 different words, so that each card can be guessed | not executed | CardAssignment.WordListRepeats, CardAssignment.DeckCanRepeatAWord, GameRules.DealtRepeatIsShadowed, GameRules.RepeatedWordStaysHidden, GameRules.RepeatedWordBlocksWin | CardAssignment.Dedupe, CardAssignment.DistinctVocabularyDealsDistinctWords, GameRules.DistinctBoardIsGuessable |

Notes on the corrected members:
- The deal `CardAssignment.Deck` takes any vocabulary as a parameter. The proofs of distinct words and of guessable cards hold for every vocabulary without case-insensitive repeats, such as `Dedupe(WordList)`.
- `CodenamersGame.Initialize` still uses `WordList` as written, to model the code.
- That `Dedupe(WordList)` keeps at least 25 words is not proved.
