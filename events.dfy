/**
 * The socket.io messages the legacy manager and the presence tracker send. Sending a message
 * is modelled as appending an `Event` to an output log: who it is addressed to (one socket,
 * the room named after a game id, or every connected client) and its payload.
 */
module Events {
  import opened Board
  import opened GameModel

  datatype Payload =
    | GameCreated(gameId: string, symbol: Symbol)
    | GameStarted(gameId: string, player1: string, player2: string, board: seq<Cell>, currentTurn: Symbol)
    | Error(message: string)
    | MoveMade(position: int, symbol: Symbol, board: seq<Cell>, currentTurn: Symbol)
    | GameEnded(winner: string, board: seq<Cell>)
    | PlayerDisconnected(winner: string, message: string)
    | OnlineUsersUpdated(users: seq<string>)
    | ActiveGamesUpdated(games: seq<Listing>)

  /** The event name each payload is emitted under. */
  function Name(p: Payload): string {
    match p
    case GameCreated(_, _) => "game_created"
    case GameStarted(_, _, _, _, _) => "game_started"
    case Error(_) => "error"
    case MoveMade(_, _, _, _) => "move_made"
    case GameEnded(_, _) => "game_ended"
    case PlayerDisconnected(_, _) => "player_disconnected"
    case OnlineUsersUpdated(_) => "online_users_updated"
    case ActiveGamesUpdated(_) => "active_games_updated"
  }

  datatype Event =
    | ToSocket(socketId: string, payload: Payload)
    | ToRoom(room: string, payload: Payload)
    | ToAll(payload: Payload)

  /** The placeholder name the creator sees for the missing second player. */
  const WaitingName := "Waiting..."

  const ForfeitMessage := "Opponent disconnected. You win!"
}
