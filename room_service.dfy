/**
 * `InMemoryRoomService` (backend/Services/RoomService.cs): the registry of
 * rooms, reachable by id and by invite code ignoring case, and the ordered
 * player list of each room.
 */
module RoomService {
  import opened Wrappers
  import opened Ids
  import opened Text
  import opened Players
  import opened Rooms

  // ----- Invite codes -----

  /** The characters an invite code is drawn from. */
  const Alphabet: string := "ABCDEFGHIJKLMNOPQRSTUVWXYZ0123456789"

  const InviteCodeLength: nat := 8

  /** Where a character sits in `Alphabet`, or -1 for any other character. */
  function AlphabetIndex(c: char): int
  {
    if 'A' <= c <= 'Z' then c as int - 'A' as int
    else if '0' <= c <= '9' then c as int - '0' as int + 26
    else -1
  }

  /** The alphabet is the 26 upper-case ASCII letters followed by the 10 digits. */
  lemma AlphabetLayout(k: nat)
    requires k < |Alphabet|
    ensures |Alphabet| == 36
    ensures k < 26 ==> Alphabet[k] as int == 'A' as int + k
    ensures k >= 26 ==> Alphabet[k] as int == '0' as int + k - 26
  {
  }

  ghost predicate ValidCodeDraws(draws: seq<nat>)
  {
    |draws| == InviteCodeLength && forall k :: 0 <= k < |draws| ==> draws[k] < |Alphabet|
  }

  /** `GenerateInviteCode`, given the 8 values `random.Next(chars.Length)` returns. */
  function InviteCode(draws: seq<nat>): (code: string)
    requires ValidCodeDraws(draws)
    ensures |code| == InviteCodeLength
    ensures forall k :: 0 <= k < |code| ==> code[k] in Alphabet
  {
    seq(InviteCodeLength, k requires 0 <= k < InviteCodeLength => Alphabet[draws[k]])
  }

  /** Reads the draws back off a code. */
  function CodeDraws(code: string): seq<int>
  {
    seq(|code|, k requires 0 <= k < |code| => AlphabetIndex(code[k]))
  }

  /** Different draws give different codes: the code determines the draws. */
  lemma InviteCodeRoundTrip(draws: seq<nat>)
    requires ValidCodeDraws(draws)
    ensures CodeDraws(InviteCode(draws)) == draws
  {
    var code := InviteCode(draws);
    forall k | 0 <= k < |code|
      ensures AlphabetIndex(code[k]) == draws[k]
    {
      AlphabetLayout(draws[k]);
    }
  }

  /** A code is already upper case, so it is its own key in the case-insensitive map. */
  lemma InviteCodeIsFolded(draws: seq<nat>)
    requires ValidCodeDraws(draws)
    ensures Fold(InviteCode(draws)) == InviteCode(draws)
  {
    var code := InviteCode(draws);
    forall k | 0 <= k < |code|
      ensures FoldChar(code[k]) == code[k]
    {
      AlphabetLayout(draws[k]);
    }
  }

  // ----- The player list of one room -----

  /** `room.Players.Any(p => p.Name == playerName)`: an exact, case-sensitive comparison. */
  predicate NameTaken(players: seq<Player>, name: string)
  {
    exists k :: 0 <= k < |players| && players[k].name == name
  }

  /**
   * The player `JoinRoom` creates. It sets neither `Team` nor `Role`, which
   * therefore hold their enum defaults, `Red` and `Operative`.
   */
  function NewPlayer(id: Guid, name: string, isHost: bool, now: Instant): Player
  {
    Player(id, name, isHost, now, Team.Red, Operative)
  }

  /** The list after `JoinRoom`, or `None` for a taken name. */
  function Join(players: seq<Player>, id: Guid, name: string, now: Instant): Option<seq<Player>>
  {
    if NameTaken(players, name) then None
    else Some(players + [NewPlayer(id, name, |players| == 0, now)])
  }

  /** `room.Players.FirstOrDefault(p => p.Id == playerId)`, as an index. */
  function IndexOfId(players: seq<Player>, id: Guid): (r: Option<nat>)
    ensures r.Some? ==> r.value < |players| && players[r.value].id == id
    ensures r.Some? ==> forall k :: 0 <= k < r.value ==> players[k].id != id
    ensures r.None? ==> forall k :: 0 <= k < |players| ==> players[k].id != id
  {
    if |players| == 0 then None
    else if players[0].id == id then Some(0)
    else match IndexOfId(players[1..], id)
      case None => None
      case Some(k) => Some(k + 1)
  }

  /** The list after `RemovePlayerFromRoom`, or `None` when no player has the id. */
  function Remove(players: seq<Player>, id: Guid): Option<seq<Player>>
  {
    match IndexOfId(players, id)
      case None => None
      case Some(k) => Some(players[..k] + players[k + 1..])
  }

  ghost predicate DistinctNames(players: seq<Player>)
  {
    forall a, b :: 0 <= a < b < |players| ==> players[a].name != players[b].name
  }

  /** Only the first player can be the host, so there is at most one. */
  predicate HostFirst(players: seq<Player>)
  {
    forall k :: 0 <= k < |players| && players[k].isHost ==> k == 0
  }

  /** What every room's player list keeps across all joins and removals. */
  ghost predicate Roster(players: seq<Player>)
  {
    DistinctNames(players) && HostFirst(players)
  }

  /**
   * A join fails exactly on a taken name. One that succeeds appends one
   * player at the end, the host exactly when the room was empty, and keeps
   * names distinct and the host first.
   */
  lemma JoinKeepsRoster(players: seq<Player>, id: Guid, name: string, now: Instant)
    requires Roster(players)
    ensures Join(players, id, name, now).None? <==> NameTaken(players, name)
    ensures match Join(players, id, name, now)
      case None => true
      case Some(q) =>
        && Roster(q)
        && |q| == |players| + 1 && q[..|players|] == players
        && q[|players|].id == id && q[|players|].name == name && q[|players|].joinedAtUtc == now
        && (q[|players|].isHost <==> |players| == 0)
  {
    if !NameTaken(players, name) {
      var q := players + [NewPlayer(id, name, |players| == 0, now)];
      forall a, b | 0 <= a < b < |q|
        ensures q[a].name != q[b].name
      {
        if b == |players| {
          assert players[a].name != name;
        }
      }
    }
  }

  /**
   * A removal fails exactly when no player has the id; otherwise it drops
   * the first player with that id and keeps the others in order.
   */
  lemma RemoveDropsFirstMatch(players: seq<Player>, id: Guid)
    ensures Remove(players, id).None? <==> forall k :: 0 <= k < |players| ==> players[k].id != id
    ensures match Remove(players, id)
      case None => true
      case Some(q) =>
        exists k :: 0 <= k < |players| && players[k].id == id
          && (forall a :: 0 <= a < k ==> players[a].id != id)
          && q == players[..k] + players[k + 1..]
  {
    var m := IndexOfId(players, id);
    if m.Some? {
      var k := m.value;
      assert Remove(players, id) == Some(players[..k] + players[k + 1..]);
      assert players[k].id == id && forall a :: 0 <= a < k ==> players[a].id != id;
    }
  }

  /** Removing a player keeps names distinct and the host first. */
  lemma RemoveKeepsRoster(players: seq<Player>, id: Guid)
    requires Roster(players)
    ensures match Remove(players, id)
      case None => true
      case Some(q) => Roster(q) && |q| == |players| - 1
  {
    var m := IndexOfId(players, id);
    if m.Some? {
      var k := m.value;
      var q := players[..k] + players[k + 1..];
      assert forall a :: 0 <= a < |q| ==> q[a] == if a < k then players[a] else players[a + 1];
    }
  }

  /** Removing the host leaves the room with no host at all. */
  lemma RemoveHostLeavesNone(players: seq<Player>, id: Guid)
    requires Roster(players)
    requires IndexOfId(players, id).Some? && players[IndexOfId(players, id).value].isHost
    ensures Remove(players, id).Some?
    ensures forall k :: 0 <= k < |Remove(players, id).value| ==> !Remove(players, id).value[k].isHost
  {
    assert IndexOfId(players, id).value == 0;
    assert Remove(players, id).value == players[1..];
  }

  /** Joining under an id nobody holds and then removing that id restores the list. */
  lemma JoinThenRemove(players: seq<Player>, id: Guid, name: string, now: Instant)
    requires forall k :: 0 <= k < |players| ==> players[k].id != id
    requires !NameTaken(players, name)
    ensures Remove(Join(players, id, name, now).value, id) == Some(players)
  {
    var q := Join(players, id, name, now).value;
    assert forall k :: 0 <= k < |players| ==> q[k].id != id;
    assert q[|players|].id == id;
    assert IndexOfId(q, id) == Some(|players|);
    assert q[..|players|] == players && q[|players| + 1..] == [];
    assert Remove(q, id) == Some(q[..|players|] + q[|players| + 1..]);
    assert q[..|players|] + q[|players| + 1..] == players;
  }

  /** One call that touches a player list. */
  datatype RosterMove =
    | JoinMove(id: Guid, name: string, now: Instant)
    | RemoveMove(id: Guid)

  /** A call that fails leaves the list as it was. */
  function ApplyRoster(players: seq<Player>, m: RosterMove): seq<Player>
  {
    match m
      case JoinMove(id, name, now) => Join(players, id, name, now).GetOr(players)
      case RemoveMove(id) => Remove(players, id).GetOr(players)
  }

  lemma ApplyRosterKeepsRoster(players: seq<Player>, m: RosterMove)
    requires Roster(players)
    ensures Roster(ApplyRoster(players, m))
  {
    match m
      case JoinMove(id, name, now) => JoinKeepsRoster(players, id, name, now);
      case RemoveMove(id) => RemoveKeepsRoster(players, id);
  }

  function RunRoster(players: seq<Player>, ms: seq<RosterMove>): seq<Player>
    decreases |ms|
  {
    if |ms| == 0 then players else RunRoster(ApplyRoster(players, ms[0]), ms[1..])
  }

  /** Names stay distinct, and the host first, across any sequence of joins and removals. */
  lemma {:induction false} RunRosterKeepsRoster(players: seq<Player>, ms: seq<RosterMove>)
    requires Roster(players)
    ensures Roster(RunRoster(players, ms))
    decreases |ms|
  {
    if |ms| > 0 {
      ApplyRosterKeepsRoster(players, ms[0]);
      RunRosterKeepsRoster(ApplyRoster(players, ms[0]), ms[1..]);
    }
  }

  // ----- The registry -----

  class InMemoryRoomService {
    /** `_roomsByInviteCode`; its comparer ignores case, so each key is stored folded. */
    var roomsByInviteCode: map<string, Room>
    /** `_roomsById`. */
    var roomsById: map<Guid, Room>

    /**
     * Each room is filed under its own id and its own folded code, and the
     * player list of every room reachable by id keeps `Roster`.
     */
    ghost predicate Valid()
      reads this, roomsById.Values
    {
      && (forall k :: k in roomsById ==> roomsById[k].id == k && Roster(roomsById[k].players))
      && (forall c :: c in roomsByInviteCode ==> c == Fold(roomsByInviteCode[c].inviteCode))
    }

    constructor ()
      ensures Valid()
      ensures roomsByInviteCode == map[] && roomsById == map[]
    {
      roomsByInviteCode := map[];
      roomsById := map[];
    }

    /**
     * Files a new empty room under both its id and its code. `roomId`,
     * `codeDraws` and `now` stand for `Guid.NewGuid()`, the invite-code draws
     * and `DateTime.UtcNow`. An id or code already in use is overwritten.
     */
    method CreateRoom(gameKey: string, roomId: Guid, codeDraws: seq<nat>, now: Instant) returns (room: Room)
      requires Valid() && ValidCodeDraws(codeDraws)
      modifies this
      ensures Valid()
      ensures fresh(room)
      ensures room.id == roomId && room.gameKey == gameKey && room.createdAtUtc == now
      ensures room.inviteCode == InviteCode(codeDraws) && room.players == []
      ensures roomsById == old(roomsById)[roomId := room]
      ensures roomsByInviteCode == old(roomsByInviteCode)[room.inviteCode := room]
    {
      var inviteCode := InviteCode(codeDraws);
      room := new Room(roomId, gameKey, inviteCode, now);
      InviteCodeIsFolded(codeDraws);
      roomsByInviteCode := roomsByInviteCode[Fold(inviteCode) := room];
      roomsById := roomsById[roomId := room];
    }

    /** `GetRoomByInviteCode`: a lookup under the folded code. */
    function GetRoomByInviteCode(inviteCode: string): (r: Option<Room>)
      reads this
      ensures r.Some? <==> Fold(inviteCode) in roomsByInviteCode
    {
      if Fold(inviteCode) in roomsByInviteCode then Some(roomsByInviteCode[Fold(inviteCode)]) else None
    }

    /** `GetRoomById`: an exact lookup. */
    function GetRoomById(roomId: Guid): (r: Option<Room>)
      reads this
      ensures r.Some? <==> roomId in roomsById
    {
      if roomId in roomsById then Some(roomsById[roomId]) else None
    }

    /**
     * A code lookup ignores case, and whatever it finds carries that code up
     * to case.
     */
    lemma InviteCodeLookup(a: string, b: string)
      requires Valid()
      ensures EqualsIgnoreCase(a, b) ==> GetRoomByInviteCode(a) == GetRoomByInviteCode(b)
      ensures GetRoomByInviteCode(a).Some? ==> EqualsIgnoreCase(GetRoomByInviteCode(a).value.inviteCode, a)
    {
      if Fold(a) in roomsByInviteCode {
        FoldIdempotent(roomsByInviteCode[Fold(a)].inviteCode);
      }
    }

    /** An id lookup finds the room with exactly that id. */
    lemma RoomIdLookup(roomId: Guid)
      requires Valid()
      ensures GetRoomById(roomId).Some? ==> GetRoomById(roomId).value.id == roomId
    {
    }

    /**
     * Adds a player named `name` at the end of the room's list, the host
     * exactly when the list was empty. Returns `None`, and changes nothing,
     * for an unknown room or a name already present. `playerId` and `now`
     * stand for `Guid.NewGuid()` and `DateTime.UtcNow`. No other room changes.
     */
    method JoinRoom(roomId: Guid, name: string, playerId: Guid, now: Instant) returns (player: Option<Player>)
      requires Valid()
      modifies if roomId in roomsById then {roomsById[roomId]} else {}
      ensures Valid()
      ensures roomId !in roomsById ==> player.None?
      ensures roomId in roomsById ==>
        var room := roomsById[roomId];
        match Join(old(room.players), playerId, name, now)
          case None => player.None? && room.players == old(room.players)
          case Some(q) => room.players == q && player == Some(q[|q| - 1])
    {
      if roomId !in roomsById {
        return None;
      }
      var room := roomsById[roomId];
      if NameTaken(room.players, name) {
        return None;
      }
      var p := NewPlayer(playerId, name, |room.players| == 0, now);
      JoinKeepsRoster(room.players, playerId, name, now);
      room.players := room.players + [p];
      return Some(p);
    }

    /**
     * Drops the first player with `playerId` from the room's list, keeping
     * the others in order, and returns true; returns false, changing
     * nothing, for an unknown room or player. No other room changes.
     */
    method RemovePlayerFromRoom(roomId: Guid, playerId: Guid) returns (removed: bool)
      requires Valid()
      modifies if roomId in roomsById then {roomsById[roomId]} else {}
      ensures Valid()
      ensures roomId !in roomsById ==> !removed
      ensures roomId in roomsById ==>
        var room := roomsById[roomId];
        match Remove(old(room.players), playerId)
          case None => !removed && room.players == old(room.players)
          case Some(q) => removed && room.players == q
    {
      if roomId !in roomsById {
        return false;
      }
      var room := roomsById[roomId];
      var found := IndexOfId(room.players, playerId);
      if found.None? {
        return false;
      }
      var k := found.value;
      RemoveKeepsRoster(room.players, playerId);
      room.players := room.players[..k] + room.players[k + 1..];
      return true;
    }
  }
}
