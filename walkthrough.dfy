/**
 * Games played through the rule engine: a list of move requests replayed with `makeMove`, and
 * two worked games, one won and one drawn.
 */
module Walkthrough {
  import opened Wrappers
  import opened Board
  import opened GameModel
  import opened GameService

  /** A socket's move request: who asks, and which cell. */
  datatype Request = Request(socketId: string, position: int)

  /** The game after `makeMove` is applied to each request in turn. */
  function Replay(g: GameData, requests: seq<Request>): GameData
    decreases |requests|
  {
    if requests == [] then g
    else Replay(AfterMove(g, requests[0].socketId, requests[0].position), requests[1..])
  }

  /** Every request is accepted when its turn comes. */
  predicate AllAccepted(g: GameData, requests: seq<Request>)
    decreases |requests|
  {
    if requests == [] then true
    else
      && MoveCheck(g, requests[0].socketId, requests[0].position) == None
      && AllAccepted(AfterMove(g, requests[0].socketId, requests[0].position), requests[1..])
  }

  /** Replaying two lists one after the other is replaying them joined. */
  lemma {:induction false} ReplayAppend(g: GameData, a: seq<Request>, b: seq<Request>)
    ensures Replay(g, a + b) == Replay(Replay(g, a), b)
    ensures AllAccepted(g, a + b) <==> AllAccepted(g, a) && AllAccepted(Replay(g, a), b)
    decreases |a|
  {
    if a != [] {
      assert (a + b)[0] == a[0] && (a + b)[1..] == a[1..] + b;
      ReplayAppend(AfterMove(g, a[0].socketId, a[0].position), a[1..], b);
    } else {
      assert a + b == b;
    }
  }

  /** An accepted request writes the symbol to move and passes the turn; the rest follow from there. */
  lemma Accept(g: GameData, r: Request, rest: seq<Request>)
    requires g.status == Playing && Mover(g, r.socketId).Some? && Mover(g, r.socketId).value.symbol == g.currentTurn
    requires Free(g.board, r.position)
    ensures
      var g' := g.(board := g.board[r.position := Mark(g.currentTurn)], currentTurn := Other(g.currentTurn));
      && Replay(g, [r] + rest) == Replay(g', rest)
      && (AllAccepted(g, [r] + rest) <==> AllAccepted(g', rest))
  {
    assert ([r] + rest)[0] == r && ([r] + rest)[1..] == rest;
  }

  /** Ann, on socket "ann", creates a game; Bo, on socket "bo", joins it. */
  function Start(id: string): (g: GameData)
    ensures g.status == Playing && g.player1 == Player("ann", "Ann", X) && g.player2 == Some(Player("bo", "Bo", O))
    ensures g.board == [Empty, Empty, Empty, Empty, Empty, Empty, Empty, Empty, Empty] && g.currentTurn == X
  {
    Joined(NewGame(id, "ann", "Ann"), "bo", "Bo")
  }

  /** Ann plays 0 and 1 around Bo's 3. */
  lemma AnnWinsOpening(g: GameData)
    requires g.status == Playing && g.player1 == Player("ann", "Ann", X) && g.player2 == Some(Player("bo", "Bo", O))
    requires g.board == [Empty, Empty, Empty, Empty, Empty, Empty, Empty, Empty, Empty] && g.currentTurn == X
    ensures AllAccepted(g, [Request("ann", 0), Request("bo", 3), Request("ann", 1)])
    ensures Replay(g, [Request("ann", 0), Request("bo", 3), Request("ann", 1)]) == g.(board := [Mark(X), Mark(X), Empty, Mark(O), Empty, Empty, Empty, Empty, Empty], currentTurn := O)
  {
    var g0 := g;
    assert [Request("ann", 0)] + [Request("bo", 3), Request("ann", 1)] == [Request("ann", 0), Request("bo", 3), Request("ann", 1)];
    Accept(g0, Request("ann", 0), [Request("bo", 3), Request("ann", 1)]);
    var g1 := g0.(board := g0.board[0 := Mark(g0.currentTurn)], currentTurn := Other(g0.currentTurn));
    assert [Request("bo", 3)] + [Request("ann", 1)] == [Request("bo", 3), Request("ann", 1)];
    Accept(g1, Request("bo", 3), [Request("ann", 1)]);
    var g2 := g1.(board := g1.board[3 := Mark(g1.currentTurn)], currentTurn := Other(g1.currentTurn));
    assert [Request("ann", 1)] + [] == [Request("ann", 1)];
    Accept(g2, Request("ann", 1), []);
    var g3 := g2.(board := g2.board[1 := Mark(g2.currentTurn)], currentTurn := Other(g2.currentTurn));
    assert g3.board == [Mark(X), Mark(X), Empty, Mark(O), Empty, Empty, Empty, Empty, Empty];
  }

  /** Bo plays 4 and Ann completes the top row with 2. */
  lemma AnnWinsClosing(g: GameData)
    requires g.status == Playing && g.player1 == Player("ann", "Ann", X) && g.player2 == Some(Player("bo", "Bo", O))
    requires g.board == [Mark(X), Mark(X), Empty, Mark(O), Empty, Empty, Empty, Empty, Empty] && g.currentTurn == O
    ensures AllAccepted(g, [Request("bo", 4), Request("ann", 2)])
    ensures Replay(g, [Request("bo", 4), Request("ann", 2)]) == g.(board := [Mark(X), Mark(X), Mark(X), Mark(O), Mark(O), Empty, Empty, Empty, Empty], currentTurn := O)
  {
    var g0 := g;
    assert [Request("bo", 4)] + [Request("ann", 2)] == [Request("bo", 4), Request("ann", 2)];
    Accept(g0, Request("bo", 4), [Request("ann", 2)]);
    var g1 := g0.(board := g0.board[4 := Mark(g0.currentTurn)], currentTurn := Other(g0.currentTurn));
    assert [Request("ann", 2)] + [] == [Request("ann", 2)];
    Accept(g1, Request("ann", 2), []);
    var g2 := g1.(board := g1.board[2 := Mark(g1.currentTurn)], currentTurn := Other(g1.currentTurn));
    assert g2.board == [Mark(X), Mark(X), Mark(X), Mark(O), Mark(O), Empty, Empty, Empty, Empty];
  }

  /** The top row held by X: the outcome check reports X. */
  lemma TopRowWon()
    ensures CheckWinner([Mark(X), Mark(X), Mark(X), Mark(O), Mark(O), Empty, Empty, Empty, Empty]) == Some(Win(X))
  {
  }

  /**
   * Ann plays 0, 1 and 2 between Bo's 3 and 4. Every move is accepted, the top row is X's, the
   * outcome check reports X, and the winner's name is Ann's.
   */
  lemma AnnWinsTopRow(g: GameData)
    requires g == Start("g1")
    ensures
      var requests := [Request("ann", 0), Request("bo", 3), Request("ann", 1), Request("bo", 4), Request("ann", 2)];
      var last := Replay(g, requests);
      && AllAccepted(g, requests)
      && last.board == [Mark(X), Mark(X), Mark(X), Mark(O), Mark(O), Empty, Empty, Empty, Empty]
      && CheckWinner(last.board) == Some(Win(X))
      && GetWinnerName(last, Win(X)) == "Ann"
  {
    AnnWinsOpening(g);
    AnnWinsClosing(Replay(g, [Request("ann", 0), Request("bo", 3), Request("ann", 1)]));
    ReplayAppend(g, [Request("ann", 0), Request("bo", 3), Request("ann", 1)], [Request("bo", 4), Request("ann", 2)]);
    assert [Request("ann", 0), Request("bo", 3), Request("ann", 1)] + [Request("bo", 4), Request("ann", 2)] == [Request("ann", 0), Request("bo", 3), Request("ann", 1), Request("bo", 4), Request("ann", 2)];
    TopRowWon();
  }


  /** The first three moves of a drawn game. */
  lemma DrawOpening(g: GameData)
    requires g.status == Playing && g.player1 == Player("ann", "Ann", X) && g.player2 == Some(Player("bo", "Bo", O))
    requires g.board == [Empty, Empty, Empty, Empty, Empty, Empty, Empty, Empty, Empty] && g.currentTurn == X
    ensures AllAccepted(g, [Request("ann", 0), Request("bo", 1), Request("ann", 2)])
    ensures Replay(g, [Request("ann", 0), Request("bo", 1), Request("ann", 2)]) == g.(board := [Mark(X), Mark(O), Mark(X), Empty, Empty, Empty, Empty, Empty, Empty], currentTurn := O)
  {
    var g0 := g;
    assert [Request("ann", 0)] + [Request("bo", 1), Request("ann", 2)] == [Request("ann", 0), Request("bo", 1), Request("ann", 2)];
    Accept(g0, Request("ann", 0), [Request("bo", 1), Request("ann", 2)]);
    var g1 := g0.(board := g0.board[0 := Mark(g0.currentTurn)], currentTurn := Other(g0.currentTurn));
    assert [Request("bo", 1)] + [Request("ann", 2)] == [Request("bo", 1), Request("ann", 2)];
    Accept(g1, Request("bo", 1), [Request("ann", 2)]);
    var g2 := g1.(board := g1.board[1 := Mark(g1.currentTurn)], currentTurn := Other(g1.currentTurn));
    assert [Request("ann", 2)] + [] == [Request("ann", 2)];
    Accept(g2, Request("ann", 2), []);
    var g3 := g2.(board := g2.board[2 := Mark(g2.currentTurn)], currentTurn := Other(g2.currentTurn));
    assert g3.board == [Mark(X), Mark(O), Mark(X), Empty, Empty, Empty, Empty, Empty, Empty];
  }

  /** The middle three moves of a drawn game. */
  lemma DrawMiddle(g: GameData)
    requires g.status == Playing && g.player1 == Player("ann", "Ann", X) && g.player2 == Some(Player("bo", "Bo", O))
    requires g.board == [Mark(X), Mark(O), Mark(X), Empty, Empty, Empty, Empty, Empty, Empty] && g.currentTurn == O
    ensures AllAccepted(g, [Request("bo", 4), Request("ann", 3), Request("bo", 5)])
    ensures Replay(g, [Request("bo", 4), Request("ann", 3), Request("bo", 5)]) == g.(board := [Mark(X), Mark(O), Mark(X), Mark(X), Mark(O), Mark(O), Empty, Empty, Empty], currentTurn := X)
  {
    var g0 := g;
    assert [Request("bo", 4)] + [Request("ann", 3), Request("bo", 5)] == [Request("bo", 4), Request("ann", 3), Request("bo", 5)];
    Accept(g0, Request("bo", 4), [Request("ann", 3), Request("bo", 5)]);
    var g1 := g0.(board := g0.board[4 := Mark(g0.currentTurn)], currentTurn := Other(g0.currentTurn));
    assert [Request("ann", 3)] + [Request("bo", 5)] == [Request("ann", 3), Request("bo", 5)];
    Accept(g1, Request("ann", 3), [Request("bo", 5)]);
    var g2 := g1.(board := g1.board[3 := Mark(g1.currentTurn)], currentTurn := Other(g1.currentTurn));
    assert [Request("bo", 5)] + [] == [Request("bo", 5)];
    Accept(g2, Request("bo", 5), []);
    var g3 := g2.(board := g2.board[5 := Mark(g2.currentTurn)], currentTurn := Other(g2.currentTurn));
    assert g3.board == [Mark(X), Mark(O), Mark(X), Mark(X), Mark(O), Mark(O), Empty, Empty, Empty];
  }

  /** The last three moves of a drawn game, which fill the board. */
  lemma DrawClosing(g: GameData)
    requires g.status == Playing && g.player1 == Player("ann", "Ann", X) && g.player2 == Some(Player("bo", "Bo", O))
    requires g.board == [Mark(X), Mark(O), Mark(X), Mark(X), Mark(O), Mark(O), Empty, Empty, Empty] && g.currentTurn == X
    ensures AllAccepted(g, [Request("ann", 7), Request("bo", 6), Request("ann", 8)])
    ensures Replay(g, [Request("ann", 7), Request("bo", 6), Request("ann", 8)]) == g.(board := [Mark(X), Mark(O), Mark(X), Mark(X), Mark(O), Mark(O), Mark(O), Mark(X), Mark(X)], currentTurn := O)
  {
    var g0 := g;
    assert [Request("ann", 7)] + [Request("bo", 6), Request("ann", 8)] == [Request("ann", 7), Request("bo", 6), Request("ann", 8)];
    Accept(g0, Request("ann", 7), [Request("bo", 6), Request("ann", 8)]);
    var g1 := g0.(board := g0.board[7 := Mark(g0.currentTurn)], currentTurn := Other(g0.currentTurn));
    assert [Request("bo", 6)] + [Request("ann", 8)] == [Request("bo", 6), Request("ann", 8)];
    Accept(g1, Request("bo", 6), [Request("ann", 8)]);
    var g2 := g1.(board := g1.board[6 := Mark(g1.currentTurn)], currentTurn := Other(g1.currentTurn));
    assert [Request("ann", 8)] + [] == [Request("ann", 8)];
    Accept(g2, Request("ann", 8), []);
    var g3 := g2.(board := g2.board[8 := Mark(g2.currentTurn)], currentTurn := Other(g2.currentTurn));
    assert g3.board == [Mark(X), Mark(O), Mark(X), Mark(X), Mark(O), Mark(O), Mark(O), Mark(X), Mark(X)];
  }

  /** A full board with no line held: the outcome check reports a draw. */
  lemma FullBoardDrawn()
    ensures CheckWinner([Mark(X), Mark(O), Mark(X), Mark(X), Mark(O), Mark(O), Mark(O), Mark(X), Mark(X)]) == Some(Draw)
  {
  }

  /**
   * Nine accepted moves that fill the board with no line held: the outcome check reports a
   * draw, named "Draw".
   */
  lemma FullBoardIsDraw(g: GameData)
    requires g == Start("g2")
    ensures
      var requests := [Request("ann", 0), Request("bo", 1), Request("ann", 2), Request("bo", 4), Request("ann", 3), Request("bo", 5), Request("ann", 7), Request("bo", 6), Request("ann", 8)];
      var last := Replay(g, requests);
      && AllAccepted(g, requests)
      && last.board == [Mark(X), Mark(O), Mark(X), Mark(X), Mark(O), Mark(O), Mark(O), Mark(X), Mark(X)]
      && CheckWinner(last.board) == Some(Draw)
      && GetWinnerName(last, Draw) == "Draw"
  {
    DrawOpening(g);
    DrawMiddle(Replay(g, [Request("ann", 0), Request("bo", 1), Request("ann", 2)]));
    ReplayAppend(g, [Request("ann", 0), Request("bo", 1), Request("ann", 2)], [Request("bo", 4), Request("ann", 3), Request("bo", 5)]);
    assert [Request("ann", 0), Request("bo", 1), Request("ann", 2)] + [Request("bo", 4), Request("ann", 3), Request("bo", 5)] == [Request("ann", 0), Request("bo", 1), Request("ann", 2), Request("bo", 4), Request("ann", 3), Request("bo", 5)];
    DrawClosing(Replay(g, [Request("ann", 0), Request("bo", 1), Request("ann", 2), Request("bo", 4), Request("ann", 3), Request("bo", 5)]));
    ReplayAppend(g, [Request("ann", 0), Request("bo", 1), Request("ann", 2), Request("bo", 4), Request("ann", 3), Request("bo", 5)], [Request("ann", 7), Request("bo", 6), Request("ann", 8)]);
    assert [Request("ann", 0), Request("bo", 1), Request("ann", 2), Request("bo", 4), Request("ann", 3), Request("bo", 5)] + [Request("ann", 7), Request("bo", 6), Request("ann", 8)] == [Request("ann", 0), Request("bo", 1), Request("ann", 2), Request("bo", 4), Request("ann", 3), Request("bo", 5), Request("ann", 7), Request("bo", 6), Request("ann", 8)];
    FullBoardDrawn();
  }
}
