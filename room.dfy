/** A room and its ordered player list (backend/Domain/Room.cs). */
module Rooms {
  import opened Ids
  import opened Players

  class Room {
    const id: Guid
    const gameKey: string
    const inviteCode: string
    const createdAtUtc: Instant
    /** `Players`, a list the room service appends to and removes from. */
    var players: seq<Player>

    constructor (id: Guid, gameKey: string, inviteCode: string, createdAtUtc: Instant)
      ensures this.id == id && this.gameKey == gameKey
      ensures this.inviteCode == inviteCode && this.createdAtUtc == createdAtUtc
      ensures players == []
    {
      this.id := id;
      this.gameKey := gameKey;
      this.inviteCode := inviteCode;
      this.createdAtUtc := createdAtUtc;
      players := [];
    }
  }
}
