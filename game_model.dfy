/**
 * The records of `server/game/types.js`: a Player, a Game and the result of a move, plus the
 * invariants every game held by the server keeps.
 */
module GameModel {
  import opened Wrappers
  import opened Board
  import opened InsertionOrder

  datatype Status = Waiting | Playing | Finished

  /** A player is identified by the socket id of its connection. */
  datatype Player = Player(id: string, name: string, symbol: Symbol)

  /** The value of a game object at one moment. */
  datatype GameData = GameData(
    id: string,
    player1: Player,
    player2: Option<Player>,
    board: seq<Cell>,
    currentTurn: Symbol,
    status: Status)

  /** The string-tagged errors of the rule engine. */
  datatype GameError =
    | GameNotFound
    | AlreadyInProgress
    | GameFull
    | GameNotActive
    | NotInGame
    | NotYourTurn
    | PositionTaken

  function Message(e: GameError): string {
    match e
    case GameNotFound => "Game not found"
    case AlreadyInProgress => "Game already in progress"
    case GameFull => "Game is full"
    case GameNotActive => "Game is not active"
    case NotInGame => "You are not in this game"
    case NotYourTurn => "Not your turn"
    case PositionTaken => "Position already taken"
  }

  /** `MoveResult` with its optional `error`: an accepted move, or a rejection. */
  datatype MoveResult =
    | Moved(symbol: Symbol, winner: Option<Outcome>, board: seq<Cell>, currentTurn: Symbol)
    | Rejected(error: GameError, board: seq<Cell>, currentTurn: Symbol)

  /** An entry of the lobby's list of games that can be joined. */
  datatype Listing = Listing(id: string, player1: string, playerCount: nat, status: Status)

  function Rank(s: Status): nat {
    match s
    case Waiting => 0
    case Playing => 1
    case Finished => 2
  }

  /** The socket ids of a game's players. */
  function PlayerIds(g: GameData): (ids: set<string>)
    ensures g.player1.id in ids
    ensures g.player2.Some? ==> g.player2.value.id in ids
    ensures forall id :: id in ids ==> id == g.player1.id || (g.player2.Some? && id == g.player2.value.id)
  {
    {g.player1.id} + if g.player2.Some? then {g.player2.value.id} else {}
  }

  /**
   * What holds of every game the server keeps: nine cells; player1 plays X and player2 O;
   * player2 is present exactly when the game is no longer waiting; turns alternate.
   */
  ghost predicate WellFormed(g: GameData) {
    && |g.board| == Cells
    && g.player1.symbol == X
    && (g.player2.Some? ==> g.player2.value.symbol == O)
    && (g.player2.Some? <==> g.status != Waiting)
    && TurnConsistent(g.board, g.currentTurn)
  }

  /**
   * How a game may change: same id and creator, status only moves forward
   * (waiting, playing, finished), a second player once present stays, and a cell once set
   * keeps its symbol.
   */
  ghost predicate Evolves(g: GameData, g': GameData) {
    && g'.id == g.id
    && g'.player1 == g.player1
    && Rank(g.status) <= Rank(g'.status)
    && (g.player2.Some? ==> g'.player2 == g.player2)
    && |g'.board| == |g.board|
    && (forall i :: 0 <= i < |g.board| && g.board[i] != Empty ==> g'.board[i] == g.board[i])
  }

  /** Every game present before and after an operation has evolved. */
  ghost predicate Progressed(before: map<string, GameData>, after: map<string, GameData>) {
    forall id :: id in before && id in after ==> Evolves(before[id], after[id])
  }

  /** Deleting games, or changing one that evolves, is progress; so is changing nothing. */
  lemma ProgressedBy(before: map<string, GameData>, after: map<string, GameData>, id: string)
    requires forall k :: k in after && k != id ==> k in before && after[k] == before[k]
    requires id in before && id in after ==> Evolves(before[id], after[id])
    ensures Progressed(before, after)
  {
  }

  /** Every stored game is well formed and is stored under its own id. */
  ghost predicate Consistent(model: map<string, GameData>) {
    forall id :: id in model ==> model[id].id == id && WellFormed(model[id])
  }

  /** Storing a well-formed game under its own id keeps a registry consistent. */
  lemma ConsistentStore(model: map<string, GameData>, g: GameData)
    requires Consistent(model) && WellFormed(g)
    ensures Consistent(model[g.id := g])
  {
  }

  /** The index holds a truthy game id for the socket. */
  predicate Indexed(playerToGame: map<string, string>, socketId: string) {
    socketId in playerToGame && playerToGame[socketId] != ""
  }

  /** The player left in the game when `socketId` goes: the other one of the two. */
  function Remaining(g: GameData, socketId: string): Option<Player> {
    if g.player1.id == socketId then g.player2 else Some(g.player1)
  }

  /** On a well-formed playing game, either player's disconnect is a forfeit won by the other player. */
  lemma ForfeitGoesToOpponent(g: GameData, socketId: string)
    requires WellFormed(g) && g.status == Playing
    ensures Remaining(g, socketId).Some?
    ensures socketId == g.player1.id ==> Remaining(g, socketId) == g.player2
    ensures socketId != g.player1.id ==> Remaining(g, socketId) == Some(g.player1)
  {
  }

  /** A game object: its fields, the board included, are assigned in place. */
  class Game {
    const id: string
    const player1: Player
    var player2: Option<Player>
    var board: seq<Cell>
    var currentTurn: Symbol
    var status: Status

    constructor (id: string, player1: Player, player2: Option<Player>, board: seq<Cell>, currentTurn: Symbol, status: Status)
      ensures this.id == id && this.player1 == player1 && this.player2 == player2 && this.board == board
      ensures this.currentTurn == currentTurn && this.status == status
    {
      this.id := id;
      this.player1 := player1;
      this.player2 := player2;
      this.board := board;
      this.currentTurn := currentTurn;
      this.status := status;
    }

    function Data(): GameData
      reads this
    {
      GameData(id, player1, player2, board, currentTurn, status)
    }
  }
}
