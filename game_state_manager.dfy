/**
 * The registry of `server/game/game-state-manager.js`: the games by id and the index from a
 * player's socket id to its game id. Every operation keeps each stored game well formed and
 * only lets games evolve (status forward, cells never overwritten, players fixed).
 */
module StateManager {
  import opened Wrappers
  import opened Board
  import opened InsertionOrder
  import opened GameModel
  import GameService

  /** The `{ forfeit, winner?, gameId? }` of `handleDisconnect`. */
  datatype DisconnectResult = NoForfeit | Forfeit(winner: string, gameId: string)

  class GameStateManager {
    /** The stored games by id; a change the rule engine makes to a game replaces its value. */
    var games: map<string, GameData>
    /** The keys of `games` in insertion order. */
    var gameOrder: seq<string>
    var playerToGame: map<string, string>

    ghost predicate Valid()
      reads this`games, this`gameOrder
    {
      Orders(gameOrder, games) && Consistent(games)
    }

    constructor ()
      ensures Valid() && games == map[] && gameOrder == [] && playerToGame == map[]
    {
      games := map[];
      gameOrder := [];
      playerToGame := map[];
    }

    /**
     * `createGame`: stores a new game under its id and points the creator's socket at it;
     * nothing else changes. `gameId` stands for `uuidv4()`, so it names no stored game.
     */
    method CreateGame(gameId: string, socketId: string, playerName: string) returns (game: GameData)
      requires Valid() && gameId !in games
      modifies this
      ensures Valid()
      ensures game == GameService.NewGame(gameId, socketId, playerName)
      ensures games == old(games)[gameId := game] && gameOrder == old(gameOrder) + [gameId]
      ensures playerToGame == old(playerToGame)[socketId := gameId]
      ensures Progressed(old(games), games)
    {
      game := GameService.NewGame(gameId, socketId, playerName);
      games := games[game.id := game];
      gameOrder := Insert(gameOrder, game.id);
      playerToGame := playerToGame[socketId := game.id];
    }

    /** `joinGame`: the joiner's socket is indexed only when the join succeeds. */
    method JoinGame(gameId: string, socketId: string, playerName: string) returns (r: Result<GameData, GameError>)
      requires Valid()
      modifies this
      ensures Valid()
      ensures games.Keys == old(games.Keys) && gameOrder == old(gameOrder)
      ensures gameId !in games ==>
        r == Failure(GameNotFound) && games == old(games) && playerToGame == old(playerToGame)
      ensures gameId in games ==>
        var g := old(games)[gameId];
        match GameService.JoinCheck(g)
        case Some(e) =>
          r == Failure(e) && games == old(games) && playerToGame == old(playerToGame)
        case None =>
          && r == Success(GameService.Joined(g, socketId, playerName))
          && games == old(games)[gameId := GameService.Joined(g, socketId, playerName)]
          && playerToGame == old(playerToGame)[socketId := gameId]
      ensures Progressed(old(games), games)
    {
      if gameId !in games {
        return Failure(GameNotFound);
      }
      var game := games[gameId];
      GameService.JoinStep(game, socketId, playerName);
      match GameService.JoinCheck(game)
      case Some(e) =>
        r := Failure(e);
      case None =>
        var joined := GameService.Joined(game, socketId, playerName);
        games := games[gameId := joined];
        playerToGame := playerToGame[socketId := gameId];
        r := Success(joined);
      ProgressedBy(old(games), games, gameId);
    }

    /** `makeMove`: adds and removes no entries; the rule engine decides the move. */
    method MakeMove(gameId: string, socketId: string, position: int) returns (r: MoveResult)
      requires Valid()
      modifies this
      ensures Valid()
      ensures games.Keys == old(games.Keys) && gameOrder == old(gameOrder) && playerToGame == old(playerToGame)
      ensures gameId !in games ==> r == Rejected(GameNotFound, [], X) && games == old(games)
      ensures gameId in games ==>
        var g := old(games)[gameId];
        && r == GameService.MoveOutcome(g, socketId, position)
        && games == old(games)[gameId := GameService.AfterMove(g, socketId, position)]
      ensures Progressed(old(games), games)
    {
      if gameId !in games {
        return Rejected(GameNotFound, [], X);
      }
      var game := games[gameId];
      GameService.MoveStep(game, socketId, position);
      r := GameService.MoveOutcome(game, socketId, position);
      games := games[gameId := GameService.AfterMove(game, socketId, position)];
      ProgressedBy(old(games), games, gameId);
    }

    /**
     * `endGame` up to its first `await`: an unknown id changes nothing; otherwise the game is
     * finished and the winner's name returned. The source reads player2's name unconditionally,
     * so it needs a second player.
     */
    method EndGame(gameId: string, winner: Outcome) returns (winnerName: Option<string>)
      requires Valid()
      requires gameId in games ==> games[gameId].player2.Some?
      modifies this
      ensures Valid()
      ensures games.Keys == old(games.Keys) && gameOrder == old(gameOrder) && playerToGame == old(playerToGame)
      ensures gameId !in games ==> winnerName == None && games == old(games)
      ensures gameId in games ==>
        && winnerName == Some(GameService.GetWinnerName(old(games)[gameId], winner))
        && games == old(games)[gameId := old(games)[gameId].(status := Finished)]
      ensures Progressed(old(games), games)
    {
      if gameId !in games {
        return None;
      }
      var game := games[gameId];
      games := games[gameId := game.(status := Finished)];
      winnerName := Some(GameService.GetWinnerName(games[gameId], winner));
      ProgressedBy(old(games), games, gameId);
    }

    /**
     * `cleanupGame`: removes the game and the index entries of both its players; for an id
     * not stored it does nothing, so calling it again is harmless.
     */
    method CleanupGame(gameId: string)
      requires Valid()
      modifies this
      ensures Valid()
      ensures games == old(games) - {gameId} && gameOrder == Remove(old(gameOrder), gameId)
      ensures gameId !in old(games) ==> playerToGame == old(playerToGame)
      ensures gameId in old(games) ==> playerToGame == old(playerToGame) - PlayerIds(old(games)[gameId])
      ensures Progressed(old(games), games)
    {
      if gameId !in games {
        assert games - {gameId} == games;
        return;
      }
      var game := games[gameId];
      playerToGame := playerToGame - {game.player1.id};
      if game.player2.Some? {
        playerToGame := playerToGame - {game.player2.value.id};
      }
      games := games - {gameId};
      gameOrder := Remove(gameOrder, gameId);
      ProgressedBy(old(games), games, gameId);
    }

    /** `getGame`: the stored game, well formed and carrying the id it is stored under. */
    function GetGame(gameId: string): (game: Option<GameData>)
      requires Valid()
      reads this
      ensures game.Some? <==> gameId in games
      ensures game.Some? ==> game.value == games[gameId] && game.value.id == gameId && WellFormed(game.value)
    {
      if gameId in games then Some(games[gameId]) else None
    }

    /**
     * `getActiveGames`: one listing per waiting game, in insertion order, and none for a
     * playing or finished game.
     */
    method GetActiveGames() returns (listings: seq<Listing>)
      requires Valid()
      ensures listings == GameService.ActiveListings(gameOrder, games)
      ensures GameService.Lobby(listings, games)
    {
      listings := [];
      for i := 0 to |gameOrder|
        invariant listings == GameService.ActiveListings(gameOrder[..i], games)
      {
        assert gameOrder[i] in gameOrder;
        var dto := GameService.ToActiveGameDTO(games[gameOrder[i]]);
        if dto.Some? {
          listings := listings + [dto.value];
        }
        assert gameOrder[..i + 1][..i] == gameOrder[..i];
      }
      assert gameOrder[..|gameOrder|] == gameOrder;
      GameService.ActiveListingsLobby(gameOrder, games);
    }

    /**
     * `handleDisconnect` up to its first `await`. Without a truthy index entry nothing changes;
     * an entry naming no game is dropped; a waiting game is cleaned up; a playing game is
     * finished and the other player wins by forfeit, with both index entries left for the
     * delayed cleanup; otherwise only the caller's entry is dropped.
     */
    method HandleDisconnect(socketId: string) returns (r: DisconnectResult)
      requires Valid()
      modifies this
      ensures Valid()
      ensures Progressed(old(games), games)
      ensures !Indexed(old(playerToGame), socketId) ==>
        && r == NoForfeit
        && games == old(games) && gameOrder == old(gameOrder) && playerToGame == old(playerToGame)
      ensures Indexed(old(playerToGame), socketId) ==>
        var gameId := old(playerToGame)[socketId];
        if gameId !in old(games) then
          && r == NoForfeit
          && games == old(games) && gameOrder == old(gameOrder)
          && playerToGame == old(playerToGame) - {socketId}
        else
          var g := old(games)[gameId];
          if g.status == Waiting then
            && r == NoForfeit
            && games == old(games) - {gameId} && gameOrder == Remove(old(gameOrder), gameId)
            && playerToGame == old(playerToGame) - PlayerIds(g)
          else if g.status == Playing && Remaining(g, socketId).Some? then
            && r == Forfeit(Remaining(g, socketId).value.name, gameId)
            && games == old(games)[gameId := g.(status := Finished)]
            && gameOrder == old(gameOrder) && playerToGame == old(playerToGame)
          else
            && r == NoForfeit
            && games == old(games) && gameOrder == old(gameOrder)
            && playerToGame == old(playerToGame) - {socketId}
    {
      if !Indexed(playerToGame, socketId) {
        return NoForfeit;
      }
      var gameId := playerToGame[socketId];
      if gameId !in games {
        playerToGame := playerToGame - {socketId};
        return NoForfeit;
      }
      var game := games[gameId];
      var remaining := if game.player1.id == socketId then game.player2 else Some(game.player1);
      if game.status == Waiting {
        CleanupGame(gameId);
        return NoForfeit;
      }
      if game.status == Playing && remaining.Some? {
        games := games[gameId := game.(status := Finished)];
        ProgressedBy(old(games), games, gameId);
        return Forfeit(remaining.value.name, game.id);
      }
      playerToGame := playerToGame - {socketId};
      r := NoForfeit;
    }
  }
}
