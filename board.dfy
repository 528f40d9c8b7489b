/**
 * The 3x3 board: nine cells, each `null` or a player's symbol, and the outcome check the
 * rule engine imports from `server/game/utils.js`.
 */
module Board {
  import opened Wrappers

  /** "X" moves first, "O" second. */
  datatype Symbol = X | O

  /** A board cell: `null` (Empty) or a symbol. */
  datatype Cell = Empty | Mark(symbol: Symbol)

  /** What `checkWinner` reports when the game is over: a symbol, or "Draw". Its `null` is `None`. */
  datatype Outcome = Win(symbol: Symbol) | Draw

  const Cells: nat := 9

  type Index = i: nat | i < Cells

  datatype Line = Line(a: Index, b: Index, c: Index)

  /** The eight winning lines: three rows, three columns, two diagonals. */
  const Lines: seq<Line> := [
    Line(0, 1, 2), Line(3, 4, 5), Line(6, 7, 8),
    Line(0, 3, 6), Line(1, 4, 7), Line(2, 5, 8),
    Line(0, 4, 8), Line(2, 4, 6)
  ]

  /** The symbol that follows `s` in turn order. */
  function Other(s: Symbol): (t: Symbol)
    ensures t != s
  {
    if s == X then O else X
  }

  predicate WonBy(b: seq<Cell>, l: Line, s: Symbol)
    requires |b| == Cells
  {
    b[l.a] == Mark(s) && b[l.b] == Mark(s) && b[l.c] == Mark(s)
  }

  ghost predicate SomeLineWonBy(b: seq<Cell>, s: Symbol)
    requires |b| == Cells
  {
    exists j :: 0 <= j < |Lines| && WonBy(b, Lines[j], s)
  }

  predicate Full(b: seq<Cell>) {
    forall i :: 0 <= i < |b| ==> b[i] != Empty
  }

  /** The symbol on the first of `Lines[k..]` whose three cells hold the same symbol. */
  function FirstWin(b: seq<Cell>, k: nat): Option<Symbol>
    requires |b| == Cells && k <= |Lines|
    decreases |Lines| - k
  {
    if k == |Lines| then None
    else
      var l := Lines[k];
      if b[l.a].Mark? && b[l.b] == b[l.a] && b[l.c] == b[l.a] then Some(b[l.a].symbol)
      else FirstWin(b, k + 1)
  }

  /**
   * `checkWinner(board)`. Its source is not part of this model; the body here is the usual one
   * (the eight lines in order, then "Draw" for a full board, else null) and is an assumption.
   */
  function CheckWinner(b: seq<Cell>): Option<Outcome>
    requires |b| == Cells
  {
    match FirstWin(b, 0)
    case Some(s) => Some(Win(s))
    case None => if Full(b) then Some(Draw) else None
  }

  lemma {:induction false} FirstWinMeaning(b: seq<Cell>, k: nat)
    requires |b| == Cells && k <= |Lines|
    ensures FirstWin(b, k).Some? ==> exists j :: k <= j < |Lines| && WonBy(b, Lines[j], FirstWin(b, k).value)
    ensures FirstWin(b, k).None? ==> forall j, s :: k <= j < |Lines| ==> !WonBy(b, Lines[j], s)
    decreases |Lines| - k
  {
    if k < |Lines| {
      FirstWinMeaning(b, k + 1);
    }
  }

  /**
   * The outcome check names a winner only when one of the eight lines is held by that symbol,
   * names a winner whenever some line is held, reports "Draw" exactly for a full board with no
   * held line, and reports nothing otherwise.
   */
  lemma CheckWinnerMeaning(b: seq<Cell>)
    requires |b| == Cells
    ensures forall s :: CheckWinner(b) == Some(Win(s)) ==> SomeLineWonBy(b, s)
    ensures (SomeLineWonBy(b, X) || SomeLineWonBy(b, O)) <==> CheckWinner(b).Some? && CheckWinner(b).value.Win?
    ensures CheckWinner(b) == Some(Draw) <==> Full(b) && !SomeLineWonBy(b, X) && !SomeLineWonBy(b, O)
    ensures CheckWinner(b) == None <==> !Full(b) && !SomeLineWonBy(b, X) && !SomeLineWonBy(b, O)
  {
    FirstWinMeaning(b, 0);
    match FirstWin(b, 0)
    case Some(s) =>
      assert CheckWinner(b) == Some(Win(s));
      assert SomeLineWonBy(b, s);
      assert s == X || s == O;
    case None =>
      assert !SomeLineWonBy(b, X) && !SomeLineWonBy(b, O);
  }

  /** The number of cells holding `s`. */
  function Count(b: seq<Cell>, s: Symbol): nat {
    if b == [] then 0 else (if b[0] == Mark(s) then 1 else 0) + Count(b[1..], s)
  }

  lemma {:induction false} CountNoMarks(b: seq<Cell>, s: Symbol)
    requires forall i :: 0 <= i < |b| ==> b[i] == Empty
    ensures Count(b, s) == 0
  {
    if b != [] {
      CountNoMarks(b[1..], s);
    }
  }

  /** Writing `s` into an empty cell adds one to the count of `s` and leaves the other count alone. */
  lemma {:induction false} CountPlace(b: seq<Cell>, i: nat, s: Symbol)
    requires i < |b| && b[i] == Empty
    ensures Count(b[i := Mark(s)], s) == Count(b, s) + 1
    ensures Count(b[i := Mark(s)], Other(s)) == Count(b, Other(s))
  {
    var b' := b[i := Mark(s)];
    if i == 0 {
      assert b'[1..] == b[1..];
    } else {
      assert b'[1..] == b[1..][i - 1 := Mark(s)];
      CountPlace(b[1..], i - 1, s);
    }
  }

  /** Turns alternate: X has moved as often as O when X is to move, once more when O is. */
  ghost predicate TurnConsistent(b: seq<Cell>, turn: Symbol) {
    Count(b, X) == Count(b, O) + (if turn == X then 0 else 1)
  }

  lemma PlaceKeepsTurnConsistent(b: seq<Cell>, i: nat, turn: Symbol)
    requires TurnConsistent(b, turn) && i < |b| && b[i] == Empty
    ensures TurnConsistent(b[i := Mark(turn)], Other(turn))
  {
    CountPlace(b, i, turn);
  }
}
