/**
 * The stateful part of script.js: the `Game` object (side to move, orientation, pending
 * selection, the per-turn legal-move index) and the loops of `legalMoves`,
 * `legalMovesByCondition`, `legalMovesByRay`, `isPositionUnderAttack` and `updateLegalMoves`,
 * each proved against its counterpart in Rules.
 */
module Chess {
  import opened Wrappers
  import opened Geometry
  import opened Pieces
  import opened Boards
  import opened Rules
  import opened RuleFacts

  class Game {
    var board: Board
    var currentPlayer: Color
    var orient: int
    var positionToMoveFrom: Option<Vector>
    var legalMoves: map<Vector, seq<Move>>

    /** The snapshot the move generator reads. */
    function Snapshot(): State
      reads this, board
    {
      State(board.View(), currentPlayer, orient, legalMoves)
    }

    /** Enough for generating moves: a well-formed board, and orientation +1 exactly when white moves. */
    ghost predicate Ready()
      reads this, board
    {
      board.Valid() && (orient == 1 || orient == -1) && (orient == 1 <==> currentPlayer == White)
    }

    /**
     * Between clicks: every occupied square has an index entry, every key is on the board,
     * and a pending selection holds a piece of the side to move.
     */
    ghost predicate Valid()
      reads this, board
    {
      Ready() &&
      (forall p | GetPiece(Snapshot(), p).Some? :: p in legalMoves) &&
      (forall p | p in legalMoves :: board.View().IsOnBoard(p)) &&
      (positionToMoveFrom.Some? ==> OwnedBy(Snapshot(), positionToMoveFrom.value, currentPlayer))
    }

    /** White to move with orientation +1, no selection, and the index built over the new board. */
    constructor (rows: seq<seq<char>>)
      requires Rectangular(rows)
      ensures Valid() && fresh(board)
      ensures board.View() == FromRows(rows)
      ensures currentPlayer == White && orient == 1 && positionToMoveFrom == None
      ensures legalMoves == Rebuild(State(FromRows(rows), White, 1, map[])).index
    {
      board := new Board(rows);
      currentPlayer := White;
      orient := 1;
      positionToMoveFrom := None;
      legalMoves := map[];
      new;
      UpdateLegalMoves();
      RebuildKeys(State(FromRows(rows), White, 1, map[]));
    }

    /** Scans the index for a capture of `position` listed under a square that does not hold a piece of the side to move. */
    method IsPositionUnderAttack(position: Vector) returns (attacked: bool)
      requires Ready()
      ensures attacked == UnderAttack(Snapshot(), position)
    {
      var keys := legalMoves.Keys;
      while keys != {}
        invariant keys <= legalMoves.Keys
        invariant forall from | from in legalMoves && from !in keys ::
          OwnedBy(Snapshot(), from, currentPlayer) || !HasCaptureOn(legalMoves[from], position)
        decreases keys
      {
        var from :| from in keys;
        keys := keys - {from};
        var p := GetPiece(Snapshot(), from);
        if p.Some? && p.value.color == currentPlayer {
          continue;
        }
        var moves := legalMoves[from];
        for i := 0 to |moves|
          invariant forall j | 0 <= j < i :: !(moves[j].kind == Capture && moves[j].dest == position)
        {
          if moves[i].kind == Capture && moves[i].dest.IsEqualTo(position) {
            return true;
          }
        }
      }
      return false;
    }

    /** One pass of the inner loop of `updateLegalMoves`: an occupied square's entry is (re)computed. */
    method RefreshSquare(position: Vector)
      requires Ready()
      modifies this
      ensures board == old(board) && currentPlayer == old(currentPlayer) && orient == old(orient)
      ensures positionToMoveFrom == old(positionToMoveFrom)
      ensures legalMoves == Refresh(old(Snapshot()), position).index
    {
      if GetPiece(Snapshot(), position).Some? {
        var moves := LegalMoves(position, this);
        legalMoves := legalMoves[position := moves];
      }
    }

    /** The inner loop of `updateLegalMoves`: refresh the squares of row `r` from left to right. */
    method RefreshRow(r: int)
      requires Ready()
      modifies this
      ensures board == old(board) && currentPlayer == old(currentPlayer) && orient == old(orient)
      ensures positionToMoveFrom == old(positionToMoveFrom)
      ensures legalMoves == RebuildOver(old(Snapshot()), Row(r, board.numCols)).index
    {
      ghost var s0 := Snapshot();
      var c := 0;
      while c < board.numCols
        invariant 0 <= c <= board.numCols
        invariant board == old(board) && currentPlayer == old(currentPlayer) && orient == old(orient)
        invariant positionToMoveFrom == old(positionToMoveFrom)
        invariant legalMoves == RebuildOver(s0, Row(r, c)).index
      {
        ghost var row := Row(r, c + 1);
        assert row[..c] == Row(r, c) && row[c] == Vector(r, c);
        assert Snapshot() == RebuildOver(s0, Row(r, c));
        RefreshSquare(Vector(r, c));
        assert RebuildOver(s0, row) == Refresh(RebuildOver(s0, Row(r, c)), Vector(r, c));
        c := c + 1;
      }
    }

    /** `updateLegalMoves`: the nested row/column loop; entries of squares that are now empty stay. */
    method UpdateLegalMoves()
      requires Ready()
      modifies this
      ensures Ready()
      ensures board == old(board) && currentPlayer == old(currentPlayer) && orient == old(orient)
      ensures positionToMoveFrom == old(positionToMoveFrom)
      ensures legalMoves == Rebuild(old(Snapshot())).index
    {
      ghost var s0 := Snapshot();
      var r := 0;
      while r < board.numRows
        invariant 0 <= r <= board.numRows
        invariant board == old(board) && currentPlayer == old(currentPlayer) && orient == old(orient)
        invariant positionToMoveFrom == old(positionToMoveFrom)
        invariant legalMoves == RebuildOver(s0, RowMajor(r, board.numCols)).index
      {
        ghost var before, row := RowMajor(r, board.numCols), Row(r, board.numCols);
        assert Snapshot() == RebuildOver(s0, before);
        RefreshRow(r);
        RebuildOverAppend(s0, before, row);
        assert RowMajor(r + 1, board.numCols) == before + row;
        r := r + 1;
      }
      assert s0.grid.numRows == r && s0.grid.numCols == board.numCols;
    }

    /** `toggleTurn`: the other player moves and the orientation flips. */
    method ToggleTurn()
      modifies this
      ensures currentPlayer == Opponent(old(currentPlayer)) && orient == -old(orient)
      ensures board == old(board) && positionToMoveFrom == old(positionToMoveFrom) && legalMoves == old(legalMoves)
    {
      currentPlayer := if currentPlayer == White then Black else White;
      orient := orient * -1;
    }

    /** `makeMove`: moves the piece on the board, unconditionally. */
    method MakeMove(from: Vector, to: Vector)
      requires board.Valid() && board.View().IsOnBoard(from) && board.View().IsOnBoard(to)
      modifies board
      ensures board.Valid() && board.View() == old(board.View()).Moved(from, to)
    {
      board.MovePiece(from, to);
    }

    /**
     * `highlightMoves(from)`: marks each listed destination's cell. A destination off the board
     * has no cell, and marking it throws; the result says whether every destination was marked.
     */
    method HighlightMoves(from: Vector) returns (ok: bool)
      requires Ready() && from in legalMoves
      ensures ok <==> DestsOnBoard(Snapshot(), from)
    {
      var moves := legalMoves[from];
      for i := 0 to |moves|
        invariant forall j | 0 <= j < i :: board.View().IsOnBoard(moves[j].dest)
      {
        if !board.View().IsOnBoard(moves[i].dest) {
          return false;
        }
      }
      return true;
    }

    /**
     * The last steps of a click on a listed destination: move the piece, hand the turn over,
     * drop the selection and refresh the index over the new board.
     */
    method PlayMove(from: Vector, to: Vector)
      requires Valid() && board.View().IsOnBoard(from) && board.View().IsOnBoard(to)
      modifies this, board
      ensures Valid() && board == old(board)
      ensures board.View() == old(board.View()).Moved(from, to)
      ensures currentPlayer == Opponent(old(currentPlayer)) && orient == -old(orient) && positionToMoveFrom == None
      ensures legalMoves == Rebuild(State(board.View(), currentPlayer, orient, old(legalMoves))).index
    {
      ghost var index := legalMoves;
      MakeMove(from, to);
      ToggleTurn();
      positionToMoveFrom := None;
      ghost var s1 := Snapshot();
      UpdateLegalMoves();
      RebuildKeys(s1);
      forall p | p in legalMoves
        ensures board.View().IsOnBoard(p)
      {
        if p !in index {
          assert GetPiece(s1, p).Some?;
        }
      }
    }

    /**
     * `onCellClick` with the clicked square as input. With nothing selected, a piece of the side
     * to move is selected, unless highlighting its destinations throws first. With a selection:
     * the same square deselects; another own piece is selected instead (by the same rule); a square
     * that is not a listed destination drops the selection; a listed destination moves the piece,
     * hands the turn over and rebuilds the index.
     */
    method OnCellClick(position: Vector)
      requires Valid() && board.View().IsOnBoard(position)
      modifies this, board
      ensures Valid() && board == old(board)
      ensures board.View() != old(board.View()) ==>
        old(positionToMoveFrom).Some? && IsLegalDestination(old(Snapshot()), old(positionToMoveFrom).value, position)
      ensures old(positionToMoveFrom).None? ==>
        board.View() == old(board.View()) && currentPlayer == old(currentPlayer) && orient == old(orient) &&
        legalMoves == old(legalMoves) &&
        positionToMoveFrom == (if Selectable(old(Snapshot()), position) then Some(position) else None)
      ensures (old(positionToMoveFrom).Some? &&
               (old(positionToMoveFrom).value == position ||
                OwnedBy(old(Snapshot()), position, old(currentPlayer)) ||
                !IsLegalDestination(old(Snapshot()), old(positionToMoveFrom).value, position))) ==>
        board.View() == old(board.View()) && currentPlayer == old(currentPlayer) && orient == old(orient) &&
        legalMoves == old(legalMoves) &&
        positionToMoveFrom == (if old(positionToMoveFrom).value != position && Selectable(old(Snapshot()), position)
                               then Some(position) else None)
      ensures (old(positionToMoveFrom).Some? && old(positionToMoveFrom).value != position &&
               !OwnedBy(old(Snapshot()), position, old(currentPlayer)) &&
               IsLegalDestination(old(Snapshot()), old(positionToMoveFrom).value, position)) ==>
        board.View() == old(board.View()).Moved(old(positionToMoveFrom).value, position) &&
        currentPlayer == Opponent(old(currentPlayer)) && orient == -old(orient) &&
        positionToMoveFrom == None &&
        legalMoves == Rebuild(State(board.View(), currentPlayer, orient, old(legalMoves))).index
      decreases if positionToMoveFrom.Some? then 1 else 0
    {
      var piece := GetPiece(Snapshot(), position);
      if positionToMoveFrom.None? {
        if piece.None? || piece.value.color != currentPlayer {
          return;
        }
        var highlighted := HighlightMoves(position);
        if !highlighted {
          return;
        }
        positionToMoveFrom := Some(position);
      } else {
        var from := positionToMoveFrom.value;
        if from.IsEqualTo(position) {
          positionToMoveFrom := None;
          return;
        }
        if piece.Some? && piece.value.color == currentPlayer {
          positionToMoveFrom := None;
          OnCellClick(position);
          return;
        }
        if !IsLegalDestination(Snapshot(), from, position) {
          positionToMoveFrom := None;
          return;
        }
        PlayMove(from, position);
      }
    }
  }

  /** `legalMoves(position, game)`. */
  method LegalMoves(position: Vector, game: Game) returns (moves: seq<Move>)
    requires game.Ready()
    ensures moves == MovesOf(game.Snapshot(), position)
  {
    var p := GetPiece(game.Snapshot(), position);
    if p.None? {
      return [];
    }
    var c := LegalMovesByCondition(position, game, p.value);
    var r := LegalMovesByRay(position, game, p.value);
    return c + r;
  }

  /** `legalMovesByCondition`: evaluate the table's conditions in order, keeping each move produced. */
  method LegalMovesByCondition(position: Vector, game: Game, piece: Piece) returns (moves: seq<Move>)
    requires game.Ready()
    ensures moves == ByCondition(game.Snapshot(), position, piece)
  {
    ghost var s := game.Snapshot();
    var conditions := MoveConditions(piece.kind);
    moves := [];
    for i := 0 to |conditions|
      invariant moves == ConditionMoves(s, position, piece, conditions[..i])
    {
      var move := EvalCondition(conditions[i], position, game, piece);
      assert conditions[..i + 1][..i] == conditions[..i] && conditions[..i + 1][i] == conditions[i];
      if move.Some? {
        moves := moves + [move.value];
      }
    }
    assert conditions[..|conditions|] == conditions;
  }

  /** Evaluates one condition; the king rule is the one that consults the attack query. */
  method EvalCondition(cond: Condition, position: Vector, game: Game, piece: Piece) returns (move: Option<Move>)
    requires game.Ready()
    ensures move == ApplyCondition(cond, game.Snapshot(), position, piece)
  {
    match cond
    case KingMoveRule(direction) =>
      move := KingMoveCondition(direction, position, game, piece);
    case _ =>
      move := ApplyCondition(cond, game.Snapshot(), position, piece);
  }

  /** `kingMove(direction)`: off the board, onto a friendly piece or onto an attacked square yields nothing. */
  method KingMoveCondition(direction: Vector, position: Vector, game: Game, piece: Piece) returns (move: Option<Move>)
    requires game.Ready()
    ensures move == KingMove(game.Snapshot(), direction, position, piece)
  {
    var dest := position.Sum(direction);
    if !game.board.View().IsOnBoard(dest) {
      return None;
    }
    var p := GetPiece(game.Snapshot(), dest);
    if p.Some? && p.value.color == piece.color {
      return None;
    }
    var attacked := game.IsPositionUnderAttack(dest);
    if attacked {
      return None;
    }
    return Some(Move(dest, if p.Some? then Capture else Displace));
  }

  /** `legalMovesByRay`: walk each ray of the table in turn, appending what it yields. */
  method LegalMovesByRay(position: Vector, game: Game, piece: Piece) returns (moves: seq<Move>)
    requires game.Ready() && game.board.View().IsOnBoard(position)
    ensures moves == ByRay(game.Snapshot(), position, piece)
  {
    moves := WalkRays(position, game, piece, MoveRays(piece.kind));
  }

  /** The outer loop of `legalMovesByRay`: walk each ray in table order and append what it yields. */
  method WalkRays(position: Vector, game: Game, piece: Piece, rays: seq<Ray>) returns (moves: seq<Move>)
    requires game.Ready() && game.board.View().IsOnBoard(position)
    requires forall i | 0 <= i < |rays| :: rays[i].direction != Zero
    ensures moves == RayMoves(game.Snapshot(), position, piece.color, rays)
  {
    ghost var s := game.Snapshot();
    moves := [];
    for i := 0 to |rays|
      invariant moves == RayMoves(s, position, piece.color, rays[..i])
    {
      var rayMoves := WalkRay(position, game, piece, rays[i]);
      assert rays[..i + 1][..i] == rays[..i] && rays[..i + 1][i] == rays[i];
      moves := moves + rayMoves;
    }
    assert rays[..|rays|] == rays;
  }

  /**
   * The inner loop of `legalMovesByRay` over the squares `ray` yields: stop off the board; an
   * empty square is a displacement and the walk goes on; an occupied square is a capture when
   * it holds the other colour, and ends the walk either way.
   */
  method WalkRay(position: Vector, game: Game, piece: Piece, ray: Ray) returns (moves: seq<Move>)
    requires game.Ready() && game.board.View().IsOnBoard(position) && ray.direction != Zero
    ensures moves == Walk(game.Snapshot(), position, piece.color, ray, 1)
  {
    ghost var s := game.Snapshot();
    moves := [];
    var step := 1;
    while ray.maxSteps.None? || step <= ray.maxSteps.value
      invariant step >= 1
      invariant Walk(s, position, piece.color, ray, 1) == moves + Walk(s, position, piece.color, ray, step)
      decreases game.board.numRows + game.board.numCols - step
    {
      var d := ray.direction.Scaled(game.orient);
      var dest := position.Sum(d.Scaled(step));
      assert dest == RayDest(s, position, ray, step);
      if !game.board.View().IsOnBoard(dest) {
        assert Walk(s, position, piece.color, ray, step) == [];
        break;
      }
      var destPiece := GetPiece(game.Snapshot(), dest);
      if destPiece.Some? {
        if piece.color != destPiece.value.color {
          assert Walk(s, position, piece.color, ray, step) == [Move(dest, Capture)];
          moves := moves + [Move(dest, Capture)];
        } else {
          assert Walk(s, position, piece.color, ray, step) == [];
        }
        break;
      } else {
        ghost var rest := Walk(s, position, piece.color, ray, step + 1);
        assert Walk(s, position, piece.color, ray, step) == [Move(dest, Displace)] + rest;
        moves := moves + [Move(dest, Displace)];
        assert Walk(s, position, piece.color, ray, 1) == moves + rest;
      }
      StepBound(s, position, ray, step);
      step := step + 1;
    }
  }
}
