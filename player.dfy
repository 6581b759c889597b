/** Players of a room (backend/Domain/Player.cs). */
module Players {
  import opened Ids

  /** `Team`, in declaration order. */
  datatype Team = Red | Blue

  /** `PlayerRole`, in declaration order. */
  datatype PlayerRole = Operative | Spymaster | Tester

  function TeamOrdinal(t: Team): nat
  {
    match t
    case Red => 0
    case Blue => 1
  }

  /** `Team.ToString()`. */
  function TeamName(t: Team): string
  {
    match t
    case Red => "Red"
    case Blue => "Blue"
  }

  function RoleOrdinal(r: PlayerRole): nat
  {
    match r
    case Operative => 0
    case Spymaster => 1
    case Tester => 2
  }

  /** `PlayerRole.ToString()`. */
  function RoleName(r: PlayerRole): string
  {
    match r
    case Operative => "Operative"
    case Spymaster => "Spymaster"
    case Tester => "Tester"
  }

  /**
   * A player. No operation of the core changes a player after it joins,
   * so it is a value.
   */
  datatype Player = Player(
    id: Guid,
    name: string,
    isHost: bool,
    joinedAtUtc: Instant,
    team: Team,
    role: PlayerRole)
}
