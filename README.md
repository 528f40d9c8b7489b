# Tic-tac-toe server core in Dafny

This project models the server side of a two-player tic-tac-toe game played over socket.io. The server has four parts:

- **The rule engine** (`server/game/game-service.js`, module `GameService`):
  - builds a new game and joins a second player;
  - checks and applies a move, with its errors in a fixed order: not found, not active, not in the game, not your turn, position taken;
  - names the winner and turns a game into a lobby listing.
- **The registry** (`server/game/game-state-manager.js`, module `StateManager`, class `GameStateManager`):
  - a map from game id to game, and an index from a player's socket id to its game id;
  - creation, joining, moves, ending, cleanup, the lobby and disconnects.
- **The game manager the server runs** (`server/game/manager.js`, module `LegacyManager`, class `GameManager`):
  - the same registry with the rules checked inline;
  - the online-user map;
  - every message it emits.
- **The presence tracker** (`server/game/user-manager.js`, module `Presence`, class `UserManager`).

Supporting modules:

- `Board`: symbols, cells, the eight lines and the outcome check.
- `GameModel`: players, games, errors, move results, listings, and the invariants a stored game keeps.
- `InsertionOrder`: the insertion order in which a JavaScript `Map` is iterated.
- `Events`: the messages sent.
- `Wrappers`: `Option` and `Result`.
- `Walkthrough`: move requests replayed through the rule engine, with one won game and one drawn game played out move by move.

How the JavaScript is represented:

- **Game objects.** The rule engine changes a game object in place. It is a `class Game` whose fields are assigned. `GameService.CreateGame` allocates one holding `GameService.NewGame`.
- **Specification functions.** The contracts of the methods are written with value functions that carry no contract of their own. Each one models the source lines named here:
  - `GameService.JoinCheck`: the join refusals, in order (`server/game/game-service.js:42-48`).
  - `GameService.Joined`: the game after a join (lines 50-55).
  - `GameService.Mover`: the player a socket moves as (line 76).
  - `GameService.MoveCheck`: the move refusals, in order (lines 72-88).
  - `GameService.Placed` and `GameService.AfterMove`: the game after a move (lines 91-92).
  - `GameService.MoveOutcome`: the move result (lines 94-102).
  - `GameModel.Remaining`: the player left after a disconnect (`server/game/game-state-manager.js:159`, `server/game/manager.js:207`).
  
  The lemmas in the table state what these functions mean.
- **Registries.** The managers hold their games by value in `map` fields. A change to a game replaces its entry.
- **Map order.** Each iterated `Map` has a `seq` of its keys beside it, so `getActiveGames` and `getOnlineUsers` list entries in insertion order.
- **Messages.** A message sent (`socket.emit`, `io.to(room).emit`, `io.emit`) is an `Event` appended to the `outbox` field.

What holds of every stored game (`GameModel.WellFormed`, kept by every registry operation as part of `Valid()`):

- nine cells;
- player1 plays X and player2 plays O;
- player2 is present exactly when the game is no longer waiting;
- X has moved as often as O when X is to move, and once more when O is to move.

In the registry, every operation also lets each surviving game only evolve (`GameModel.Progressed`):

- the status moves only forward, waiting → playing → finished;
- a second player stays once present;
- a cell once set keeps its symbol;
- id and creator stay fixed.

## Model

| member | source | states |
|---|---|---|
| Board.Other | server/game/game-service.js:92 | the turn passes to the symbol that is not the mover's |
| Board.CheckWinnerMeaning | server/game/game-service.js:94 | the outcome check reports a symbol only if that symbol holds a whole line, reports a winner whenever some line is held, reports "Draw" exactly for a full board with no held line, and reports nothing otherwise |
| Board.FirstWinMeaning | server/game/game-service.js:94 | the first held line, scanning the eight lines from `k`, is a held line; none found means no line from `k` is held |
| Board.CountNoMarks | server/game/game-service.js:24 | an empty board holds no mark of either symbol |
| Board.CountPlace | server/game/game-service.js:91 | writing a symbol into an empty cell adds one mark of that symbol and none of the other |
| Board.PlaceKeepsTurnConsistent | server/game/game-service.js:91-92 | writing the symbol to move into an empty cell and passing the turn keeps the mark counts in step with the turn |
| InsertionOrder.Insert | server/game/game-state-manager.js:26 | `Map.set`: a new key goes last, an existing key keeps its place, and no key is listed twice |
| InsertionOrder.Remove | server/game/game-state-manager.js:100 | `Map.delete`: the key leaves the order, the others stay, and deleting an absent key changes nothing |
| InsertionOrder.InsertOrders | server/game/game-state-manager.js:26 | after `set`, the key order still lists each key of the map exactly once |
| InsertionOrder.RemoveKeepsOrder | server/game/game-state-manager.js:100 | after `delete`, any two keys left stand in the order they stood in before |
| InsertionOrder.RemoveOrders | server/game/game-state-manager.js:100 | after `delete`, the key order still lists each key of the map exactly once |
| InsertionOrder.ValuesInOrder | server/game/user-manager.js:35 | `Array.from(map.values())` has one value per key, the value of the key at the same position |
| InsertionOrder.OrderSize | server/game/user-manager.js:35 | a key order has as many elements as the map has entries |
| InsertionOrder.ValuesOnePerKey | server/game/user-manager.js:34-36 | the values list is as long as the map; each key's value stands at that key's position; a value two keys share appears at two positions |
| GameModel.PlayerIds | server/game/game-state-manager.js:96-99 | a game's socket ids are exactly player1's and, when present, player2's |
| GameModel.ProgressedBy | server/game/game-state-manager.js:93-102 | deleting games, or changing one game so that it evolves, lets every surviving game evolve |
| GameModel.ConsistentStore | server/game/manager.js:135-136 | storing a well-formed game under its own id keeps every stored game well formed and under its own id |
| GameModel.ForfeitGoesToOpponent | server/game/manager.js:206-207 | in a playing well-formed game, the remaining player exists: player2 when player1 leaves, otherwise player1 |
| GameModel.Game.constructor | server/game/game-service.js:16-27 | a game object holds exactly the fields it was built with |
| GameService.NewGame | server/game/game-service.js:15-28 | a new game is well formed, under the given id: player1 is the creator as X, no player2, nine empty cells, X to move, waiting |
| GameService.CreateGame | server/game/game-service.js:15-28 | `createGame` gives a new object holding the new game under the fresh id |
| GameService.JoinGame | server/game/game-service.js:37-58 | a missing game gives "Game not found"; otherwise the status check and then the second-player check; a refused join leaves the object untouched; a successful one returns the same object with player2 the joiner as O and status playing |
| GameService.JoinStep | server/game/game-service.js:42-57 | on a well-formed game a join succeeds exactly when it is waiting, "Game is full" never arises, and a join keeps the game well formed and evolving, with board, turn and player1 unchanged |
| GameService.MakeMove | server/game/game-service.js:67-103 | a missing game gives "Game not found" with an empty board and X; otherwise the result and the object afterwards are those of the checks in the source's order and the placement of the mover's symbol |
| GameService.MoveStep | server/game/game-service.js:86-92 | a move keeps a well-formed game well formed and evolving; a refused move changes nothing; an accepted one writes the symbol to move into the one named cell, which was empty, keeps the other cells and passes the turn |
| GameService.NotInGameMeaning | server/game/game-service.js:76-80 | "You are not in this game" arises exactly for a playing game without player2 and a socket that is not player1, so never on a well-formed game |
| GameService.OnlyPlayingGamesMove | server/game/game-service.js:72-74 | a waiting or finished game refuses every move with "Game is not active" and stays as it was |
| GameService.NoTwoMovesInARow | server/game/game-service.js:82-92 | right after a socket's accepted move, that socket's next move is refused with "Not your turn" |
| GameService.WinnerIsHolder | server/game/game-service.js:111-119 | a draw is named "Draw"; a win is named after the player who holds the winning symbol |
| GameService.GetWinnerName | server/game/game-service.js:111-119 | the name is "Draw" or a player's name; for a win in a well-formed game it is the name of the player holding the winning symbol (see `WinnerIsHolder`) |
| GameService.ToActiveGameDTO | server/game/game-service.js:126-137 | a listing exists exactly for a waiting game: its id, its creator's name, one player, waiting |
| GameService.ListingOf | server/game/game-state-manager.js:130-133 | the loop adds at most one listing per game, that game's listing, and exactly one for a waiting game |
| GameService.ActiveListingsSound | server/game/game-state-manager.js:126-137 | every listing built from a key order is the listing of a waiting game of that order, under its own id |
| GameService.ActiveListingsDistinct | server/game/game-state-manager.js:126-137 | no game is listed twice when the key order has no repeated key |
| GameService.ActiveListingsComplete | server/game/game-state-manager.js:126-137 | every waiting game of the key order is listed |
| GameService.ActiveListingsLobby | server/game/game-state-manager.js:126-137 | the listings of a registry are its waiting games, each once, and nothing else |
| Walkthrough.ReplayAppend | server/game/game-service.js:67-103 | replaying two lists of move requests one after the other is replaying them joined, and all are accepted exactly when both lists are |
| Walkthrough.Accept | server/game/game-service.js:72-92 | an accepted request writes the symbol to move into the cell and passes the turn, and the remaining requests are replayed from there |
| Walkthrough.Start | server/game/game-service.js:15-58 | a game created by Ann and joined by Bo is playing, Ann is X, Bo is O, the board is empty and X moves |
| Walkthrough.TopRowWon | server/game/game-service.js:94 | a board whose top row is X's is won by X |
| Walkthrough.FullBoardDrawn | server/game/game-service.js:94 | a full board with no line held is a draw |
| Walkthrough.AnnWinsTopRow | server/game/game-service.js:67-119 | Ann creates, Bo joins, and the moves 0, 3, 1, 4, 2 are all accepted; X holds the top row, the outcome is X, and the winner is named "Ann" |
| Walkthrough.FullBoardIsDraw | server/game/game-service.js:67-119 | nine alternating accepted moves fill the board with no line held; the outcome is a draw, named "Draw" |
| StateManager.GameStateManager.constructor | server/game/game-state-manager.js:9-16 | both maps start empty |
| StateManager.GameStateManager.CreateGame | server/game/game-state-manager.js:24-29 | the new game is stored under its fresh id and the creator's socket points at it; no other entry changes |
| StateManager.GameStateManager.JoinGame | server/game/game-state-manager.js:38-47 | an unknown id gives "Game not found"; a refused join changes neither map; a successful one stores the joined game and points the joiner's socket at it |
| StateManager.GameStateManager.MakeMove | server/game/game-state-manager.js:56-59 | no entry is added or removed; the result and the stored game are the rule engine's |
| StateManager.GameStateManager.EndGame | server/game/game-state-manager.js:67-86 | an unknown id changes nothing; otherwise the game is finished and the winner's name returned |
| StateManager.GameStateManager.CleanupGame | server/game/game-state-manager.js:93-102 | the game and its players' index entries are gone; an unknown id changes nothing, so a second call is harmless |
| StateManager.GameStateManager.GetGame | server/game/game-state-manager.js:109-111 | the game stored under the id, if any, well formed and carrying that id |
| StateManager.GameStateManager.GetActiveGames | server/game/game-state-manager.js:126-137 | the waiting games in insertion order, each listed once, and nothing else |
| StateManager.GameStateManager.HandleDisconnect | server/game/game-state-manager.js:144-193 | no truthy index entry: nothing changes; an entry naming no game is dropped; a waiting game is cleaned up; a playing game with another player is finished and that player wins by forfeit, both entries staying; otherwise only the caller's entry is dropped |
| LegacyManager.GameManager.constructor | server/game/manager.js:5-11 | all maps and the message log start empty |
| LegacyManager.GameManager.BroadcastOnlineUsers | server/game/manager.js:23-26 | everyone is sent the online names in connection order |
| LegacyManager.GameManager.BroadcastActiveGames | server/game/manager.js:265-268 | everyone is sent the lobby listing |
| LegacyManager.GameManager.AddOnlineUser | server/game/manager.js:13-16 | the socket's name is set, every other entry stays, and the new list is broadcast |
| LegacyManager.GameManager.RemoveOnlineUser | server/game/manager.js:18-21 | the socket's entry is deleted, every other entry stays, and the new list is broadcast |
| LegacyManager.GameManager.CreateGame | server/game/manager.js:28-61 | a waiting game with the creator as X, an empty board and X to move is stored under the fresh id; the creator's socket points at it; the creator hears `game_created` and `game_started`, then everyone gets the lobby |
| LegacyManager.GameManager.JoinGame | server/game/manager.js:63-103 | a missing, started or full game sends the joiner the matching error and changes nothing; otherwise the joiner becomes O, the game plays, the joiner's socket points at it, the room hears `game_started` and everyone gets the lobby |
| LegacyManager.GameManager.MakeMove | server/game/manager.js:105-150 | a refused move sends the mover the first failing check's error and changes nothing; an accepted move is as `Accepted` states |
| LegacyManager.GameManager.Settle | server/game/manager.js:135-149 | the mark is placed and the room hears it; if the outcome check reports a result, the game is finished and the room hears the winner's name |
| LegacyManager.GameManager.Play | server/game/manager.js:135-143 | the symbol to move goes into the cell, the turn passes, and the room hears the move with that symbol |
| LegacyManager.GameManager.EndGame | server/game/manager.js:152-167 | the game is finished and the room hears "Draw", player1's name for X, or player2's name for O, with the board |
| LegacyManager.GameManager.Expire | server/game/manager.js:182-187 | the game and the index entries of both its players are gone and everyone gets the lobby |
| LegacyManager.GameManager.HandleDisconnect | server/game/manager.js:190-246 | the socket leaves the online users first and the list is broadcast; then the game part is as `Departed` states |
| LegacyManager.GameManager.LeaveGame | server/game/manager.js:193-245 | no truthy entry: nothing changes; otherwise the caller's entry, and only that one, goes: a waiting game is deleted and the lobby sent; a playing game with another player is finished and the room told of the forfeit; anything else stays |
| LegacyManager.GameManager.GetActiveGames | server/game/manager.js:248-263 | the waiting games in insertion order, each listed once with one player, and nothing else |
| Presence.UserManager.constructor | server/game/user-manager.js:6-9 | no one is online |
| Presence.UserManager.GetOnlineUsers | server/game/user-manager.js:34-36 | one name per connected socket, at that socket's position in connection order, so a name two sockets share is listed twice |
| Presence.UserManager.AddUser | server/game/user-manager.js:16-19 | the socket's name is set or replaced, every other entry stays, the new list is broadcast and contains the name |
| Presence.UserManager.RemoveUser | server/game/user-manager.js:25-28 | the socket's entry is deleted, every other entry stays, an absent socket changes no entry, and the new list is broadcast |

## Left out

- `checkWinner` (`server/game/utils.js`) is not part of this model. `Board.CheckWinner` gives it the usual body: the eight lines in order, then "Draw" for a full board, otherwise nothing. That body is an assumption, and every statement about winners rests on it.
- `uuidv4()` is a parameter. The `requires gameId !in games` on both `CreateGame` methods states that a fresh id names no stored game.
- The 5-second `setTimeout` cleanups are explicit calls the caller makes: `StateManager.GameStateManager.CleanupGame` and `LegacyManager.GameManager.Expire`. The model does not capture when they run, or what else runs first.
- Database writes (`saveGame`, `prisma.game.create`), their `await`s and their failures are not modelled. `EndGame` and `HandleDisconnect` cover the in-memory changes before the first `await`.
- `socket.join`, rooms and delivery are not modelled. A message addressed to a room or to everyone is recorded, not delivered. The `console` logging is dropped.
- `getPlayerGameId` is not modelled. It is a plain map lookup.
- Positions are integers. The source would also take a non-integer or string `position` from the client; that is not modelled.
- The registries hold games by value. A game object shared between a timer closure and the map is therefore not modelled. `Expire` takes the game as the timer captured it.
- GameService.GetWinnerName: requires a second player for an O win. The source reads `game.player2.name` there (`server/game/game-service.js:118`), which throws when player2 is null; that error path is not modelled. Both callers pass only a decided playing game, which has a second player (`server/game/socket-handler.js:113-114`, `server/game/manager.js:147-148`).
- StateManager.GameStateManager.EndGame: requires a second player when the game exists, because the source reads `game.player2.name` while saving.
- LegacyManager.GameManager.EndGame: requires a stored game with a second player. Its only caller passes a game whose move was accepted, so it is playing.
- LegacyManager.GameManager.MakeMove: does not restate the registry-wide "games only evolve" property; only the registry's methods promise it. Each legacy game change is still proved to keep every game well formed, and `GameService.MoveStep` proves the accepted move evolves.
- Where the documented behaviour and the code differ, the model follows the code in two places:
  - A socket that is neither player moves as player2, because `game.player2` is taken for any socket that is not player1 (`server/game/game-service.js:76`). Such a socket's move is accepted when it is O's turn.
  - The status check comes before the second-player check (`server/game/game-service.js:42-48`), so "Game is full" never arises for a well-formed game. `GameService.JoinStep` proves this.
