/**
 * The room details sent to clients (backend/Contracts/RoomMappings.cs, with
 * the records of PlayerResponse.cs and RoomDetailsResponse.cs).
 */
module RoomMappings {
  import opened Ids
  import opened Players
  import opened Rooms
  import opened RoomService

  datatype PlayerResponse = PlayerResponse(
    playerId: Guid, name: string, isHost: bool, joinedAtUtc: Instant, team: string, role: string)

  datatype RoomDetailsResponse = RoomDetailsResponse(
    roomId: Guid, gameKey: string, inviteCode: string, createdAtUtc: Instant, players: seq<PlayerResponse>)

  /** One player, with team and role rendered by `ToString()`. */
  function PlayerView(p: Player): PlayerResponse
  {
    PlayerResponse(p.id, p.name, p.isHost, p.joinedAtUtc, TeamName(p.team), RoleName(p.role))
  }

  /** The `Select` over the players: same length, same order. */
  function PlayersView(players: seq<Player>): (r: seq<PlayerResponse>)
    ensures |r| == |players|
    ensures forall i :: 0 <= i < |players| ==> r[i] == PlayerView(players[i])
  {
    seq(|players|, i requires 0 <= i < |players| => PlayerView(players[i]))
  }

  /** `room.ToResponse()`: it only reads the room. */
  function ToResponse(room: Room): (r: RoomDetailsResponse)
    reads room
    ensures r.roomId == room.id && r.gameKey == room.gameKey
    ensures r.inviteCode == room.inviteCode && r.createdAtUtc == room.createdAtUtc
    ensures r.players == PlayersView(room.players)
  {
    RoomDetailsResponse(room.id, room.gameKey, room.inviteCode, room.createdAtUtc, PlayersView(room.players))
  }

  /** The rendered names of teams and roles tell the values apart. */
  lemma NamesAreDistinct(p: Player, q: Player)
    ensures TeamName(p.team) == TeamName(q.team) ==> p.team == q.team
    ensures RoleName(p.role) == RoleName(q.role) ==> p.role == q.role
  {
    if p.team != q.team {
      assert TeamName(p.team)[0] != TeamName(q.team)[0];
    }
    if p.role != q.role {
      assert RoleName(p.role)[0] != RoleName(q.role)[0];
    }
  }

  /** The view loses nothing: a player is recovered from its response. */
  lemma PlayerViewInjective(p: Player, q: Player)
    requires PlayerView(p) == PlayerView(q)
    ensures p == q
  {
    NamesAreDistinct(p, q);
  }

  /** A room's roster invariant shows through: distinct names, and only the first entry may be the host. */
  lemma ViewKeepsRoster(players: seq<Player>)
    requires Roster(players)
    ensures var v := PlayersView(players);
      && (forall a, b :: 0 <= a < b < |v| ==> v[a].name != v[b].name)
      && (forall k :: 0 <= k < |v| && v[k].isHost ==> k == 0)
  {
  }
}
