/** The board: a fixed-size grid of piece symbols (the `Board` class of script.js without its DOM). */
module Boards {
  import opened Wrappers
  import opened Geometry
  import opened Pieces

  /** A snapshot of the board's cells; `cells[r][c]` is a piece symbol or EMPTY. */
  datatype Grid = Grid(cells: seq<seq<char>>, numRows: nat, numCols: nat) {

    ghost predicate Valid() {
      |cells| == numRows &&
      (forall r | 0 <= r < |cells| :: |cells[r]| == numCols) &&
      (forall r, c | 0 <= r < |cells| && 0 <= c < |cells[r]| :: cells[r][c] == EMPTY || IsPieceSymbol(cells[r][c]))
    }

    /** Row in [0, numRows) and column in [0, numCols). */
    predicate IsOnBoard(p: Vector) {
      0 <= p.r < numRows && 0 <= p.c < numCols
    }

    /** The stored symbol, `None` for the empty marker (the board-level `getPiece`). */
    function GetPiece(p: Vector): (s: Option<char>)
      requires Valid() && IsOnBoard(p)
      ensures s.None? <==> cells[p.r][p.c] == EMPTY
      ensures s.Some? ==> IsPieceSymbol(s.value) && s.value == cells[p.r][p.c]
    {
      if cells[p.r][p.c] == EMPTY then None else Some(cells[p.r][p.c])
    }

    /** Overwrites one cell (`setPiece`). */
    function SetPiece(p: Vector, ch: char): (g: Grid)
      requires Valid() && IsOnBoard(p)
      requires ch == EMPTY || IsPieceSymbol(ch)
      ensures g.Valid() && g.numRows == numRows && g.numCols == numCols
      ensures g.GetPiece(p) == (if ch == EMPTY then None else Some(ch))
      ensures forall q | IsOnBoard(q) && q != p :: g.GetPiece(q) == GetPiece(q)
    {
      Grid(cells[p.r := cells[p.r][p.c := ch]], numRows, numCols)
    }

    /** `movePiece`: clear `from`, then write what was there into `to`; no legality check. */
    function Moved(from: Vector, to: Vector): (g: Grid)
      requires Valid() && IsOnBoard(from) && IsOnBoard(to)
      ensures g.Valid() && g.numRows == numRows && g.numCols == numCols
      ensures g.GetPiece(to) == GetPiece(from)
      ensures from != to ==> g.GetPiece(from) == None
      ensures forall q | IsOnBoard(q) && q != from && q != to :: g.GetPiece(q) == GetPiece(q)
    {
      var p := GetPiece(from);
      SetPiece(from, EMPTY).SetPiece(to, if p.Some? then p.value else EMPTY)
    }
  }

  /** Two valid grids of the same size with the same contents on every square are equal. */
  lemma {:induction false} GridExtensionality(g: Grid, h: Grid)
    requires g.Valid() && h.Valid() && g.numRows == h.numRows && g.numCols == h.numCols
    requires forall q | g.IsOnBoard(q) :: g.GetPiece(q) == h.GetPiece(q)
    ensures g == h
  {
    forall r | 0 <= r < g.numRows
      ensures g.cells[r] == h.cells[r]
    {
      forall c | 0 <= c < g.numCols
        ensures g.cells[r][c] == h.cells[r][c]
      {
        assert g.GetPiece(Vector(r, c)) == h.GetPiece(Vector(r, c));
      }
    }
  }

  /** Moving a piece onto an empty square and back restores the board. */
  lemma MoveThenMoveBack(g: Grid, from: Vector, to: Vector)
    requires g.Valid() && g.IsOnBoard(from) && g.IsOnBoard(to)
    requires from != to && g.GetPiece(to) == None
    ensures g.Moved(from, to).Moved(to, from) == g
  {
    GridExtensionality(g.Moved(from, to).Moved(to, from), g);
  }

  /** The first `cols` squares of row `r`, left to right (the inner loop of `updateLegalMoves`). */
  function Row(r: int, cols: nat): (ps: seq<Vector>)
    ensures |ps| == cols && forall c | 0 <= c < cols :: ps[c] == Vector(r, c)
  {
    if cols == 0 then [] else Row(r, cols - 1) + [Vector(r, cols - 1)]
  }

  /** Every square of a rows x cols board in row-major order (the nested loops of `updateLegalMoves`). */
  function RowMajor(rows: nat, cols: nat): seq<Vector> {
    if rows == 0 then [] else RowMajor(rows - 1, cols) + Row(rows - 1, cols)
  }

  /** The row-major walk visits exactly the on-board squares. */
  lemma {:induction false} RowMajorCovers(rows: nat, cols: nat, p: Vector)
    ensures p in RowMajor(rows, cols) <==> 0 <= p.r < rows && 0 <= p.c < cols
  {
    if rows > 0 {
      RowMajorCovers(rows - 1, cols, p);
      if p.r == rows - 1 && 0 <= p.c < cols {
        assert Row(rows - 1, cols)[p.c] == p;
      }
    }
  }

  /** The row-major walk starts at the corner (0,0) and never comes back to it. */
  lemma {:induction false} RowMajorFirst(rows: nat, cols: nat)
    requires rows > 0 && cols > 0
    ensures |RowMajor(rows, cols)| > 0 && RowMajor(rows, cols)[0] == Vector(0, 0)
    ensures forall j | 1 <= j < |RowMajor(rows, cols)| :: RowMajor(rows, cols)[j] != Vector(0, 0)
  {
    var ps, last := RowMajor(rows, cols), Row(rows - 1, cols);
    if rows == 1 {
      assert ps == RowMajor(0, cols) + last == last;
    } else {
      var init := RowMajor(rows - 1, cols);
      RowMajorFirst(rows - 1, cols);
      assert ps == init + last;
      forall j | 1 <= j < |ps|
        ensures ps[j] != Vector(0, 0)
      {
        if j >= |init| {
          assert ps[j] == last[j - |init|];
        }
      }
    }
  }

  /** Symbols other than the twelve piece letters are stored as empty, as the cell encoding does. */
  function Normalize(ch: char): (n: char)
    ensures n == EMPTY || IsPieceSymbol(n)
    ensures IsPieceSymbol(ch) ==> n == ch
  {
    if IsPieceSymbol(ch) then ch else EMPTY
  }

  predicate Rectangular(rows: seq<seq<char>>) {
    forall i | 0 <= i < |rows| :: |rows[i]| == |rows[0]|
  }

  /** The board a description of rows yields; the width is the first row's (`board.at(0)?.length`). */
  function FromRows(rows: seq<seq<char>>): (g: Grid)
    requires Rectangular(rows)
    ensures g.Valid() && g.numRows == |rows| && g.numCols == (if |rows| == 0 then 0 else |rows[0]|)
    ensures forall p | g.IsOnBoard(p) :: g.cells[p.r][p.c] == Normalize(rows[p.r][p.c])
  {
    Grid(seq(|rows|, r requires 0 <= r < |rows| => seq(|rows[r]|, c requires 0 <= c < |rows[r]| => Normalize(rows[r][c]))),
         |rows|, if |rows| == 0 then 0 else |rows[0]|)
  }

  /** The board object; its cells are the only state it changes. */
  class Board {
    const numRows: nat
    const numCols: nat
    var cells: seq<seq<char>>

    function View(): Grid
      reads this
    {
      Grid(cells, numRows, numCols)
    }

    ghost predicate Valid()
      reads this
    {
      View().Valid()
    }

    constructor (rows: seq<seq<char>>)
      requires Rectangular(rows)
      ensures Valid() && View() == FromRows(rows)
    {
      var g := FromRows(rows);
      numRows, numCols := g.numRows, g.numCols;
      cells := g.cells;
    }

    /** `movePiece(from, to)`. */
    method MovePiece(from: Vector, to: Vector)
      requires Valid() && View().IsOnBoard(from) && View().IsOnBoard(to)
      modifies this
      ensures Valid()
      ensures View() == old(View()).Moved(from, to)
    {
      var p := View().GetPiece(from);
      cells := View().SetPiece(from, EMPTY).cells;
      cells := View().SetPiece(to, if p.Some? then p.value else EMPTY).cells;
    }
  }
}
