/**
 * The game manager of `server/game/manager.js`, the one the server runs: the games by id, the
 * index from a player's socket id to its game id, and the online users, with the rules of the
 * game checked inline. Every message it sends is appended to `outbox`.
 */
module LegacyManager {
  import opened Wrappers
  import opened Board
  import opened InsertionOrder
  import opened GameModel
  import opened Events
  import GameService

  /**
   * The registry and the messages after the accepted move `position` by `socketId` in `g`: the
   * room hears the move with the symbol whose turn it was; if the move decides the game, the
   * game is finished and the room hears the winner's name.
   */
  ghost predicate Accepted(g: GameData, socketId: string, position: int,
                           games: map<string, GameData>, games': map<string, GameData>,
                           outbox: seq<Event>, outbox': seq<Event>)
    requires WellFormed(g) && GameService.MoveCheck(g, socketId, position) == None
  {
    var g' := GameService.Placed(g, socketId, position);
    var moved := ToRoom(g.id, MoveMade(position, g.currentTurn, g'.board, g'.currentTurn));
    match CheckWinner(g'.board)
    case None =>
      games' == games[g.id := g'] && outbox' == outbox + [moved]
    case Some(w) =>
      && games' == games[g.id := g'.(status := Finished)]
      && outbox' == outbox + [moved, ToRoom(g.id, GameEnded(GameService.GetWinnerName(g', w), g'.board))]
  }

  /**
   * The game part of a disconnect of `socketId`, from the registry `games`, `gameOrder`,
   * `playerToGame` with the messages `outbox` to the primed ones, where `lobby` is the lobby
   * listing afterwards. Without a truthy index entry nothing changes. Otherwise the socket's
   * own index entry, and only that one, is dropped, and: an entry naming no game changes
   * nothing else; a waiting game is deleted and the lobby updated; a playing game with
   * another player is finished and that player told of the forfeit, the game staying stored
   * for the delayed cleanup; any other game is left as it is.
   */
  ghost predicate Departed(socketId: string,
                           games: map<string, GameData>, gameOrder: seq<string>,
                           playerToGame: map<string, string>, outbox: seq<Event>,
                           games': map<string, GameData>, gameOrder': seq<string>,
                           playerToGame': map<string, string>, outbox': seq<Event>,
                           lobby: seq<Listing>)
  {
    if !Indexed(playerToGame, socketId) then
      games' == games && gameOrder' == gameOrder && playerToGame' == playerToGame && outbox' == outbox
    else
      var gameId := playerToGame[socketId];
      && playerToGame' == playerToGame - {socketId}
      && if gameId !in games then
        games' == games && gameOrder' == gameOrder && outbox' == outbox
      else
        var g := games[gameId];
        if g.status == Waiting then
          && games' == games - {gameId} && gameOrder' == Remove(gameOrder, gameId)
          && outbox' == outbox + [ToAll(ActiveGamesUpdated(lobby))]
        else if g.status == Playing && Remaining(g, socketId).Some? then
          && games' == games[gameId := g.(status := Finished)] && gameOrder' == gameOrder
          && outbox' == outbox + [ToRoom(gameId, PlayerDisconnected(Remaining(g, socketId).value.name, ForfeitMessage))]
        else
          games' == games && gameOrder' == gameOrder && outbox' == outbox
  }

  class GameManager {
    /** The stored games by id; a change to a game replaces its value. */
    var games: map<string, GameData>
    /** The keys of `games` in insertion order. */
    var gameOrder: seq<string>
    var playerToGame: map<string, string>
    /** Socket id to player name. */
    var onlineUsers: map<string, string>
    /** The keys of `onlineUsers` in insertion order. */
    var userOrder: seq<string>
    /** The messages sent so far. */
    var outbox: seq<Event>

    ghost predicate Valid()
      reads this`games, this`gameOrder, this`onlineUsers, this`userOrder
    {
      Orders(gameOrder, games) && Consistent(games) && Orders(userOrder, onlineUsers)
    }

    constructor ()
      ensures Valid() && games == map[] && gameOrder == [] && playerToGame == map[]
      ensures onlineUsers == map[] && userOrder == [] && outbox == []
    {
      games := map[];
      gameOrder := [];
      playerToGame := map[];
      onlineUsers := map[];
      userOrder := [];
      outbox := [];
    }

    /** The payload of `broadcastOnlineUsers`: the names of the online users, in connection order. */
    ghost function OnlineNames(): seq<string>
      requires Valid()
      reads this`games, this`gameOrder, this`onlineUsers, this`userOrder
    {
      ValuesInOrder(userOrder, onlineUsers)
    }

    /** The payload of `broadcastActiveGames`. */
    ghost function Lobby(): seq<Listing>
      requires Valid()
      reads this`games, this`gameOrder, this`onlineUsers, this`userOrder
    {
      GameService.ActiveListings(gameOrder, games)
    }

    method BroadcastOnlineUsers()
      requires Valid()
      modifies this`outbox
      ensures outbox == old(outbox) + [ToAll(OnlineUsersUpdated(OnlineNames()))]
    {
      var users := ValuesInOrder(userOrder, onlineUsers);
      outbox := outbox + [ToAll(OnlineUsersUpdated(users))];
    }

    method BroadcastActiveGames()
      requires Valid()
      modifies this`outbox
      ensures outbox == old(outbox) + [ToAll(ActiveGamesUpdated(Lobby()))]
    {
      var activeGames := GetActiveGames();
      outbox := outbox + [ToAll(ActiveGamesUpdated(activeGames))];
    }

    /** `addOnlineUser`: sets the socket's name, leaving every other entry, and broadcasts. */
    method AddOnlineUser(socketId: string, playerName: string)
      requires Valid()
      modifies this`onlineUsers, this`userOrder, this`outbox
      ensures Valid()
      ensures onlineUsers == old(onlineUsers)[socketId := playerName]
      ensures userOrder == Insert(old(userOrder), socketId)
      ensures outbox == old(outbox) + [ToAll(OnlineUsersUpdated(OnlineNames()))]
    {
      InsertOrders(userOrder, onlineUsers, socketId, playerName);
      onlineUsers := onlineUsers[socketId := playerName];
      userOrder := Insert(userOrder, socketId);
      BroadcastOnlineUsers();
    }

    /** `removeOnlineUser`: deletes the socket's entry, leaving every other entry, and broadcasts. */
    method RemoveOnlineUser(socketId: string)
      requires Valid()
      modifies this`onlineUsers, this`userOrder, this`outbox
      ensures Valid()
      ensures onlineUsers == old(onlineUsers) - {socketId}
      ensures userOrder == Remove(old(userOrder), socketId)
      ensures outbox == old(outbox) + [ToAll(OnlineUsersUpdated(OnlineNames()))]
    {
      RemoveOrders(userOrder, onlineUsers, socketId);
      onlineUsers := onlineUsers - {socketId};
      userOrder := Remove(userOrder, socketId);
      BroadcastOnlineUsers();
    }

    /**
     * `createGame`: stores a waiting game with the creator as X on an empty board, points the
     * creator's socket at it, tells the creator, then updates the lobby. `gameId` stands for
     * `uuidv4()`, so it names no stored game.
     */
    method CreateGame(gameId: string, socketId: string, playerName: string)
      requires Valid() && gameId !in games
      modifies this`games, this`gameOrder, this`playerToGame, this`outbox
      ensures Valid()
      ensures games == old(games)[gameId := GameService.NewGame(gameId, socketId, playerName)]
      ensures gameOrder == old(gameOrder) + [gameId]
      ensures playerToGame == old(playerToGame)[socketId := gameId]
      ensures outbox == old(outbox) + [
        ToSocket(socketId, GameCreated(gameId, X)),
        ToSocket(socketId, GameStarted(gameId, playerName, WaitingName, seq(Cells, _ => Empty), X)),
        ToAll(ActiveGamesUpdated(Lobby()))]
    {
      var game := GameService.NewGame(gameId, socketId, playerName);
      games := games[gameId := game];
      gameOrder := Insert(gameOrder, gameId);
      playerToGame := playerToGame[socketId := gameId];
      outbox := outbox + [ToSocket(socketId, GameCreated(gameId, X))];
      outbox := outbox + [ToSocket(socketId, GameStarted(gameId, game.player1.name, WaitingName, game.board, game.currentTurn))];
      BroadcastActiveGames();
    }

    /**
     * `joinGame`: a missing, started or full game is refused with an error to the joiner and
     * nothing changes; otherwise the joiner becomes player O, the game starts, the joiner's
     * socket is pointed at it, the room is told and the lobby updated.
     */
    method JoinGame(socketId: string, gameId: string, playerName: string)
      requires Valid()
      modifies this`games, this`playerToGame, this`outbox
      ensures Valid()
      ensures games.Keys == old(games.Keys)
      ensures gameId !in old(games) ==>
        && games == old(games) && playerToGame == old(playerToGame)
        && outbox == old(outbox) + [ToSocket(socketId, Error(Message(GameNotFound)))]
      ensures gameId in old(games) ==>
        var g := old(games)[gameId];
        match GameService.JoinCheck(g)
        case Some(e) =>
          && games == old(games) && playerToGame == old(playerToGame)
          && outbox == old(outbox) + [ToSocket(socketId, Error(Message(e)))]
        case None =>
          && games == old(games)[gameId := GameService.Joined(g, socketId, playerName)]
          && playerToGame == old(playerToGame)[socketId := gameId]
          && outbox == old(outbox) + [
            ToRoom(gameId, GameStarted(gameId, g.player1.name, playerName, g.board, g.currentTurn)),
            ToAll(ActiveGamesUpdated(Lobby()))]
    {
      if gameId !in games {
        outbox := outbox + [ToSocket(socketId, Error(Message(GameNotFound)))];
        return;
      }
      var game := games[gameId];
      // The status check, then the second-player check.
      match GameService.JoinCheck(game)
      case Some(e) =>
        outbox := outbox + [ToSocket(socketId, Error(Message(e)))];
        return;
      case None =>
      GameService.JoinStep(game, socketId, playerName);
      var joined := game.(player2 := Some(Player(socketId, playerName, O)), status := Playing);
      games := games[gameId := joined];
      playerToGame := playerToGame[socketId := gameId];
      outbox := outbox + [ToRoom(gameId, GameStarted(gameId, joined.player1.name, joined.player2.value.name, joined.board, joined.currentTurn))];
      BroadcastActiveGames();
    }

    /**
     * `makeMove`: a refused move sends the mover an error and changes nothing. An accepted one
     * writes the symbol whose turn it was into the chosen cell, passes the turn and tells the
     * room; a move that decides the game then ends it.
     */
    method MakeMove(socketId: string, gameId: string, position: int)
      requires Valid()
      modifies this`games, this`outbox
      ensures Valid()
      ensures games.Keys == old(games.Keys)
      ensures gameId !in old(games) ==>
        games == old(games) && outbox == old(outbox) + [ToSocket(socketId, Error(Message(GameNotFound)))]
      ensures gameId in old(games) ==>
        var g := old(games)[gameId];
        match GameService.MoveCheck(g, socketId, position)
        case Some(e) =>
          games == old(games) && outbox == old(outbox) + [ToSocket(socketId, Error(Message(e)))]
        case None =>
          Accepted(g, socketId, position, old(games), games, old(outbox), outbox)
    {
      if gameId !in games {
        outbox := outbox + [ToSocket(socketId, Error(Message(GameNotFound)))];
        return;
      }
      var game := games[gameId];
      // Not active, not in the game, not this player's turn, cell not free: in that order.
      match GameService.MoveCheck(game, socketId, position)
      case Some(e) =>
        outbox := outbox + [ToSocket(socketId, Error(Message(e)))];
      case None =>
        Settle(socketId, gameId, position);
    }

    /** An accepted move of `makeMove`: the mark is placed and announced, then the game ends if decided. */
    method Settle(socketId: string, gameId: string, position: int)
      requires Valid() && gameId in games
      requires GameService.MoveCheck(games[gameId], socketId, position) == None
      modifies this`games, this`outbox
      ensures Valid()
      ensures Accepted(old(games)[gameId], socketId, position, old(games), games, old(outbox), outbox)
    {
      Play(socketId, gameId, position);
      var winner := CheckWinner(games[gameId].board);
      if winner.Some? {
        EndGame(gameId, winner.value);
      }
    }

    /**
     * The accepted half of `makeMove` up to the outcome check: the mover's symbol, which is
     * the one whose turn it was, goes into the cell, the turn passes and the room is told.
     */
    method Play(socketId: string, gameId: string, position: int)
      requires Valid() && gameId in games
      requires GameService.MoveCheck(games[gameId], socketId, position) == None
      modifies this`games, this`outbox
      ensures Valid()
      ensures
        var g' := GameService.Placed(old(games)[gameId], socketId, position);
        && games == old(games)[gameId := g']
        && outbox == old(outbox) + [ToRoom(gameId, MoveMade(position, old(games)[gameId].currentTurn, g'.board, g'.currentTurn))]
    {
      var game := games[gameId];
      var player := GameService.Mover(game, socketId);
      GameService.MoveStep(game, socketId, position);
      var played := game.(board := game.board[position := Mark(player.value.symbol)], currentTurn := Other(player.value.symbol));
      assert played == GameService.Placed(game, socketId, position) && player.value.symbol == game.currentTurn;
      ConsistentStore(games, played);
      InsertOrders(gameOrder, games, gameId, played);
      games := games[gameId := played];
      outbox := outbox + [ToRoom(gameId, MoveMade(position, player.value.symbol, played.board, played.currentTurn))];
    }

    /**
     * `endGame` up to its first `await`: the game is finished and the room told the winner's
     * name. The source reads player2's name unconditionally, so it needs a second player.
     */
    method EndGame(gameId: string, winner: Outcome)
      requires Valid() && gameId in games && games[gameId].player2.Some?
      modifies this`games, this`outbox
      ensures Valid()
      ensures games == old(games)[gameId := old(games)[gameId].(status := Finished)]
      ensures outbox == old(outbox) + [
        ToRoom(gameId, GameEnded(GameService.GetWinnerName(old(games)[gameId], winner), old(games)[gameId].board))]
    {
      var game := games[gameId];
      games := games[gameId := game.(status := Finished)];
      var winnerName;
      if winner == Draw {
        winnerName := "Draw";
      } else if winner == Win(X) {
        winnerName := game.player1.name;
      } else {
        winnerName := game.player2.value.name;
      }
      outbox := outbox + [ToRoom(game.id, GameEnded(winnerName, game.board))];
    }

    /**
     * The body of the delayed cleanup that `endGame` and a forfeit schedule: the game and the
     * index entries of its players go, and the lobby is updated. `game` is the game as the
     * timer captured it.
     */
    method Expire(game: GameData)
      requires Valid()
      modifies this`games, this`gameOrder, this`playerToGame, this`outbox
      ensures Valid()
      ensures games == old(games) - {game.id} && gameOrder == Remove(old(gameOrder), game.id)
      ensures playerToGame == old(playerToGame) - PlayerIds(game)
      ensures outbox == old(outbox) + [ToAll(ActiveGamesUpdated(Lobby()))]
    {
      RemoveOrders(gameOrder, games, game.id);
      games := games - {game.id};
      gameOrder := Remove(gameOrder, game.id);
      playerToGame := playerToGame - {game.player1.id};
      if game.player2.Some? {
        playerToGame := playerToGame - {game.player2.value.id};
      }
      assert playerToGame == old(playerToGame) - PlayerIds(game);
      BroadcastActiveGames();
    }

    /**
     * `handleDisconnect`: the socket leaves the online users first, and the online list is
     * broadcast; then the game part follows, as `Departed` states.
     */
    method HandleDisconnect(socketId: string)
      requires Valid()
      modifies this`games, this`gameOrder, this`playerToGame, this`onlineUsers, this`userOrder, this`outbox
      ensures Valid()
      ensures onlineUsers == old(onlineUsers) - {socketId} && userOrder == Remove(old(userOrder), socketId)
      ensures Departed(socketId, old(games), old(gameOrder), old(playerToGame),
        old(outbox) + [ToAll(OnlineUsersUpdated(OnlineNames()))], games, gameOrder, playerToGame, outbox, Lobby())
    {
      RemoveOnlineUser(socketId);
      LeaveGame(socketId);
    }

    /** The part of `handleDisconnect` after the online users are updated. */
    method LeaveGame(socketId: string)
      requires Valid()
      modifies this`games, this`gameOrder, this`playerToGame, this`outbox
      ensures Valid()
      ensures Departed(socketId, old(games), old(gameOrder), old(playerToGame), old(outbox),
        games, gameOrder, playerToGame, outbox, Lobby())
    {
      if !Indexed(playerToGame, socketId) {
        return;
      }
      var gameId := playerToGame[socketId];
      if gameId !in games {
        playerToGame := playerToGame - {socketId};
        return;
      }
      var game := games[gameId];
      var remaining := if game.player1.id == socketId then game.player2 else Some(game.player1);
      if game.status == Waiting {
        RemoveOrders(gameOrder, games, gameId);
        games := games - {gameId};
        gameOrder := Remove(gameOrder, gameId);
        playerToGame := playerToGame - {socketId};
        BroadcastActiveGames();
        return;
      }
      if game.status == Playing && remaining.Some? {
        ConsistentStore(games, game.(status := Finished));
        InsertOrders(gameOrder, games, gameId, game.(status := Finished));
        games := games[gameId := game.(status := Finished)];
        outbox := outbox + [ToRoom(gameId, PlayerDisconnected(remaining.value.name, ForfeitMessage))];
      }
      playerToGame := playerToGame - {socketId};
    }

    /**
     * `getActiveGames`: one listing per waiting game, in insertion order, and none for a
     * playing or finished game.
     */
    method GetActiveGames() returns (activeGames: seq<Listing>)
      requires Valid()
      ensures activeGames == Lobby()
      ensures GameService.Lobby(activeGames, games)
    {
      activeGames := [];
      for i := 0 to |gameOrder|
        invariant activeGames == GameService.ActiveListings(gameOrder[..i], games)
      {
        var gameId := gameOrder[i];
        assert gameId in gameOrder;
        var game := games[gameId];
        if game.status == Waiting {
          activeGames := activeGames + [Listing(gameId, game.player1.name, 1, game.status)];
        }
        assert gameOrder[..i + 1][..i] == gameOrder[..i];
      }
      assert gameOrder[..|gameOrder|] == gameOrder;
      GameService.ActiveListingsLobby(gameOrder, games);
    }
  }
}
