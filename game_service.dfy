/**
 * The rule engine of `server/game/game-service.js`: creating a game, joining it, validating
 * and applying a move, naming the winner and listing a game in the lobby. `joinGame` and
 * `makeMove` change the game object they are given; the functions below give the value of
 * that object afterwards, and the lemmas state what the rules guarantee.
 */
module GameService {
  import opened Wrappers
  import opened Board
  import opened InsertionOrder
  import opened GameModel

  /** The game `createGame` builds under the fresh id `id`. */
  function NewGame(id: string, socketId: string, playerName: string): (g: GameData)
    ensures WellFormed(g) && g.id == id
    ensures g.player1 == Player(socketId, playerName, X) && g.player2 == None
    ensures g.status == Waiting && g.currentTurn == X
    ensures forall i :: 0 <= i < |g.board| ==> g.board[i] == Empty
  {
    var board := seq(Cells, _ => Empty);
    CountNoMarks(board, X);
    CountNoMarks(board, O);
    GameData(id, Player(socketId, playerName, X), None, board, X, Waiting)
  }

  /** `createGame`: a new game object, holding the new game built under the fresh id `id`. */
  method CreateGame(id: string, socketId: string, playerName: string) returns (game: Game)
    ensures fresh(game) && game.Data() == NewGame(id, socketId, playerName)
  {
    var g := NewGame(id, socketId, playerName);
    game := new Game(g.id, g.player1, g.player2, g.board, g.currentTurn, g.status);
  }

  /** The rejection `joinGame` gives for an existing game, in the order the checks are made. */
  function JoinCheck(g: GameData): Option<GameError> {
    if g.status != Waiting then Some(AlreadyInProgress)
    else if g.player2.Some? then Some(GameFull)
    else None
  }

  /** The game after a successful join. */
  function Joined(g: GameData, socketId: string, playerName: string): GameData {
    g.(player2 := Some(Player(socketId, playerName, O)), status := Playing)
  }

  /** `joinGame`: on success the same object comes back, joined; on failure it is untouched. */
  method JoinGame(game: Game?, socketId: string, playerName: string) returns (r: Result<Game, GameError>)
    modifies game
    ensures game == null ==> r == Failure(GameNotFound)
    ensures game != null ==>
      match JoinCheck(old(game.Data()))
      case Some(e) => r == Failure(e) && game.Data() == old(game.Data())
      case None => r == Success(game) && game.Data() == Joined(old(game.Data()), socketId, playerName)
  {
    if game == null {
      return Failure(GameNotFound);
    }
    if game.status != Waiting {
      return Failure(AlreadyInProgress);
    }
    if game.player2.Some? {
      return Failure(GameFull);
    }
    game.player2 := Some(Player(socketId, playerName, O));
    game.status := Playing;
    r := Success(game);
  }

  /**
   * A join succeeds exactly on a waiting game; on a well-formed game "Game is full" never
   * arises, because a game with a second player is no longer waiting. A successful join keeps
   * the game well formed, lets it evolve, and changes neither board, turn nor player1.
   */
  lemma JoinStep(g: GameData, socketId: string, playerName: string)
    requires WellFormed(g)
    ensures JoinCheck(g) != Some(GameFull)
    ensures JoinCheck(g) == None <==> g.status == Waiting
    ensures JoinCheck(g) == None ==>
      var g' := Joined(g, socketId, playerName);
      && WellFormed(g') && Evolves(g, g')
      && g'.status == Playing && g'.player2 == Some(Player(socketId, playerName, O))
      && g'.board == g.board && g'.currentTurn == g.currentTurn && g'.player1 == g.player1
  {
  }

  /** The player a socket moves as: player1 if the ids match, otherwise player2 (possibly null). */
  function Mover(g: GameData, socketId: string): Option<Player> {
    if g.player1.id == socketId then Some(g.player1) else g.player2
  }

  /** `board[position] === null`; an index outside the board reads `undefined`. */
  predicate Free(b: seq<Cell>, position: int) {
    0 <= position < |b| && b[position] == Empty
  }

  /** The rejection `makeMove` gives for an existing game, in the order the checks are made. */
  function MoveCheck(g: GameData, socketId: string, position: int): Option<GameError> {
    if g.status != Playing then Some(GameNotActive)
    else if Mover(g, socketId).None? then Some(NotInGame)
    else if g.currentTurn != Mover(g, socketId).value.symbol then Some(NotYourTurn)
    else if !Free(g.board, position) then Some(PositionTaken)
    else None
  }

  /** The game after an accepted move. */
  function Placed(g: GameData, socketId: string, position: int): GameData
    requires MoveCheck(g, socketId, position) == None
  {
    var s := Mover(g, socketId).value.symbol;
    g.(board := g.board[position := Mark(s)], currentTurn := Other(s))
  }

  /** The game after `makeMove`, accepted or not. */
  function AfterMove(g: GameData, socketId: string, position: int): GameData {
    if MoveCheck(g, socketId, position) == None then Placed(g, socketId, position) else g
  }

  /** What `makeMove` returns for an existing game. */
  function MoveOutcome(g: GameData, socketId: string, position: int): MoveResult
    requires |g.board| == Cells
  {
    match MoveCheck(g, socketId, position)
    case Some(e) => Rejected(e, g.board, g.currentTurn)
    case None =>
      var g' := Placed(g, socketId, position);
      Moved(Mover(g, socketId).value.symbol, CheckWinner(g'.board), g'.board, g'.currentTurn)
  }

  /** `makeMove`: checks, then writes the mover's symbol and passes the turn. */
  method MakeMove(game: Game?, socketId: string, position: int) returns (r: MoveResult)
    requires game != null ==> |game.board| == Cells
    modifies game
    ensures game == null ==> r == Rejected(GameNotFound, [], X)
    ensures game != null ==>
      && r == MoveOutcome(old(game.Data()), socketId, position)
      && game.Data() == AfterMove(old(game.Data()), socketId, position)
  {
    if game == null {
      return Rejected(GameNotFound, [], X);
    }
    if game.status != Playing {
      return Rejected(GameNotActive, game.board, game.currentTurn);
    }
    var player := if game.player1.id == socketId then Some(game.player1) else game.player2;
    if player.None? {
      return Rejected(NotInGame, game.board, game.currentTurn);
    }
    if game.currentTurn != player.value.symbol {
      return Rejected(NotYourTurn, game.board, game.currentTurn);
    }
    if !(0 <= position < |game.board|) || game.board[position] != Empty {
      return Rejected(PositionTaken, game.board, game.currentTurn);
    }
    game.board := game.board[position := Mark(player.value.symbol)];
    game.currentTurn := Other(player.value.symbol);
    var winner := CheckWinner(game.board);
    r := Moved(player.value.symbol, winner, game.board, game.currentTurn);
  }

  /**
   * On a well-formed game, a move keeps the game well formed and lets it evolve. A rejected
   * move changes nothing. An accepted move writes the mover's symbol, which is the symbol
   * whose turn it was, into exactly the one cell named, which was empty, and passes the turn
   * to the other symbol.
   */
  lemma {:induction false} MoveStep(g: GameData, socketId: string, position: int)
    requires WellFormed(g)
    ensures WellFormed(AfterMove(g, socketId, position)) && Evolves(g, AfterMove(g, socketId, position))
    ensures MoveCheck(g, socketId, position) != None ==> AfterMove(g, socketId, position) == g
    ensures MoveCheck(g, socketId, position) == None ==>
      var g' := AfterMove(g, socketId, position);
      && 0 <= position < Cells && g.board[position] == Empty
      && g'.board[position] == Mark(g.currentTurn)
      && (forall i :: 0 <= i < Cells && i != position ==> g'.board[i] == g.board[i])
      && g'.currentTurn == Other(g.currentTurn)
      && g'.status == g.status && g'.player2 == g.player2
  {
    if MoveCheck(g, socketId, position) == None {
      PlaceKeepsTurnConsistent(g.board, position, g.currentTurn);
    }
  }

  /**
   * A socket that is not player1 moves as player2, so "You are not in this game" arises only
   * while player2 is null, which a well-formed playing game never is.
   */
  lemma NotInGameMeaning(g: GameData, socketId: string, position: int)
    ensures MoveCheck(g, socketId, position) == Some(NotInGame) <==>
      g.status == Playing && g.player1.id != socketId && g.player2.None?
    ensures WellFormed(g) ==> MoveCheck(g, socketId, position) != Some(NotInGame)
  {
  }

  /** Waiting and finished games accept no move, whoever asks and wherever. */
  lemma OnlyPlayingGamesMove(g: GameData, socketId: string, position: int)
    requires g.status != Playing
    ensures MoveCheck(g, socketId, position) == Some(GameNotActive)
    ensures AfterMove(g, socketId, position) == g
  {
  }

  /**
   * Turns alternate: right after an accepted move, the same socket's next move is refused
   * with "Not your turn", and the game is unchanged by it.
   */
  lemma NoTwoMovesInARow(g: GameData, socketId: string, position: int, next: int)
    requires MoveCheck(g, socketId, position) == None
    ensures MoveCheck(Placed(g, socketId, position), socketId, next) == Some(NotYourTurn)
  {
    var g' := Placed(g, socketId, position);
    assert Mover(g', socketId) == Mover(g, socketId);
  }

  /** `getWinnerName`: "Draw" for a draw, player1's name for X, otherwise player2's name. */
  function GetWinnerName(g: GameData, winner: Outcome): (name: string)
    requires winner == Win(O) ==> g.player2.Some?
    ensures name == "Draw" || name == g.player1.name || (g.player2.Some? && name == g.player2.value.name)
    ensures winner.Win? && WellFormed(g) ==>
      (g.player1.symbol == winner.symbol && name == g.player1.name) ||
      (g.player2.Some? && g.player2.value.symbol == winner.symbol && name == g.player2.value.name)
  {
    match winner
    case Draw => "Draw"
    case Win(X) => g.player1.name
    case Win(O) => g.player2.value.name
  }

  /** In a game with both players, the winner's name is the name of the player holding the winning symbol. */
  lemma WinnerIsHolder(g: GameData, s: Symbol)
    requires WellFormed(g) && g.player2.Some?
    ensures GetWinnerName(g, Draw) == "Draw"
    ensures exists p :: (p == g.player1 || Some(p) == g.player2) && p.symbol == s && GetWinnerName(g, Win(s)) == p.name
  {
    if s == X {
      assert g.player1.symbol == s;
    } else {
      assert g.player2.value.symbol == s;
    }
  }

  /** `toActiveGameDTO`: only a waiting game is listed, with its creator and one player. */
  function ToActiveGameDTO(g: GameData): (dto: Option<Listing>)
    ensures dto.Some? <==> g.status == Waiting
    ensures dto.Some? ==> dto.value.id == g.id && dto.value.player1 == g.player1.name
    ensures dto.Some? ==> dto.value.playerCount == 1 && dto.value.status == Waiting
  {
    if g.status != Waiting then None else Some(Listing(g.id, g.player1.name, 1, g.status))
  }

  /** The listings of the games in `order`, in that order: what the registries' loops build. */
  ghost function ActiveListings(order: seq<string>, model: map<string, GameData>): seq<Listing>
    requires forall i :: 0 <= i < |order| ==> order[i] in model
  {
    if order == [] then []
    else
      var last := order[|order| - 1];
      ActiveListings(order[..|order| - 1], model) + ListingOf(last, model)
  }

  /** The listing the loops add for one game id: none, or one. */
  function ListingOf(id: string, model: map<string, GameData>): (ls: seq<Listing>)
    requires id in model
    ensures |ls| <= 1 && forall l :: l in ls ==> ToActiveGameDTO(model[id]) == Some(l)
    ensures model[id].status == Waiting ==> |ls| == 1
  {
    match ToActiveGameDTO(model[id]) case Some(l) => [l] case None => []
  }

  /** Every listing belongs to a waiting game of `order`, under that game's id. */
  lemma {:induction false} ActiveListingsSound(order: seq<string>, model: map<string, GameData>)
    requires forall i :: 0 <= i < |order| ==> order[i] in model
    requires forall id :: id in model ==> model[id].id == id
    ensures forall l :: l in ActiveListings(order, model) ==> l.id in order && ToActiveGameDTO(model[l.id]) == Some(l)
  {
    if order != [] {
      var init := order[..|order| - 1];
      var last := order[|order| - 1];
      ActiveListingsSound(init, model);
      assert ActiveListings(order, model) == ActiveListings(init, model) + ListingOf(last, model);
      assert forall x :: x in init ==> x in order;
    }
  }

  /** No two listings name the same game. */
  predicate UniqueIds(ls: seq<Listing>) {
    forall k, k' :: 0 <= k < k' < |ls| ==> ls[k].id != ls[k'].id
  }

  /** No game is listed twice. */
  lemma {:induction false} ActiveListingsDistinct(order: seq<string>, model: map<string, GameData>)
    requires Distinct(order)
    requires forall i :: 0 <= i < |order| ==> order[i] in model
    requires forall id :: id in model ==> model[id].id == id
    ensures UniqueIds(ActiveListings(order, model))
  {
    if order != [] {
      var init := order[..|order| - 1];
      var last := order[|order| - 1];
      assert Distinct(init);
      ActiveListingsDistinct(init, model);
      ActiveListingsSound(init, model);
      var prev := ActiveListings(init, model);
      var ls := ActiveListings(order, model);
      assert ls == prev + ListingOf(last, model);
      assert last !in init;
      forall k, k' | 0 <= k < k' < |ls|
        ensures ls[k].id != ls[k'].id
      {
        if k' < |prev| {
          assert ls[k] == prev[k] && ls[k'] == prev[k'];
        } else {
          assert ls[k] == prev[k] && prev[k] in prev;
          assert ls[k'] in ListingOf(last, model);
        }
      }
    }
  }

  predicate Listed(ls: seq<Listing>, id: string) {
    exists k :: 0 <= k < |ls| && ls[k].id == id
  }

  /** Every waiting game of `order` is listed. */
  lemma {:induction false} ActiveListingsComplete(order: seq<string>, model: map<string, GameData>)
    requires forall i :: 0 <= i < |order| ==> order[i] in model
    requires forall id :: id in model ==> model[id].id == id
    ensures forall id :: id in order && model[id].status == Waiting ==> Listed(ActiveListings(order, model), id)
  {
    if order != [] {
      var init := order[..|order| - 1];
      var last := order[|order| - 1];
      ActiveListingsComplete(init, model);
      var prev := ActiveListings(init, model);
      var ls := ActiveListings(order, model);
      assert ls == prev + ListingOf(last, model);
      forall id | id in order && model[id].status == Waiting
        ensures Listed(ls, id)
      {
        if id == last {
          assert ls[|ls| - 1] in ListingOf(last, model);
        } else {
          var j :| 0 <= j < |order| && order[j] == id;
          assert init[j] == id;
          assert Listed(prev, id);
          var k :| 0 <= k < |prev| && prev[k].id == id;
          assert ls[k].id == id;
        }
      }
    }
  }

  /** `ls` names each waiting game of `model` once, and nothing else. */
  ghost predicate Lobby(ls: seq<Listing>, model: map<string, GameData>) {
    && UniqueIds(ls)
    && (forall l :: l in ls ==> l.id in model && ToActiveGameDTO(model[l.id]) == Some(l))
    && (forall id :: id in model && model[id].status == Waiting ==> Listed(ls, id))
  }

  /** The listings of a registry's key order are exactly its waiting games, each once. */
  lemma ActiveListingsLobby(order: seq<string>, model: map<string, GameData>)
    requires Orders(order, model)
    requires forall id :: id in model ==> model[id].id == id
    ensures Lobby(ActiveListings(order, model), model)
  {
    assert forall i :: 0 <= i < |order| ==> order[i] in order;
    ActiveListingsSound(order, model);
    ActiveListingsDistinct(order, model);
    ActiveListingsComplete(order, model);
  }
}
