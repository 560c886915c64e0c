/** Concrete positions: the starting position of script.js and a king beside an enemy rook. */
module Scenarios {
  import opened Wrappers
  import opened Geometry
  import opened Pieces
  import opened Boards
  import opened Rules
  import opened RuleFacts
  import opened Chess

  /** The board the game is started with, top row first. */
  const StartRows: seq<seq<char>> := [
    "RNBQKBNR",
    "PPPPPPPP",
    "........",
    "........",
    "........",
    "........",
    "pppppppp",
    "rnbqkbnr"
  ]

  lemma StartBoard()
    ensures Rectangular(StartRows)
    ensures FromRows(StartRows) == Grid(StartRows, 8, 8)
  {
    var g := FromRows(StartRows);
    forall r | 0 <= r < 8
      ensures g.cells[r] == StartRows[r]
    {
      forall c | 0 <= c < 8
        ensures g.cells[r][c] == StartRows[r][c]
      {
        assert g.cells[r][c] == Normalize(StartRows[r][c]);
      }
    }
  }

  /** White to move on the starting board, with any index. */
  function Start(index: map<Vector, seq<Move>>): (s: State)
    ensures s.Valid()
  {
    StartBoard();
    State(Grid(StartRows, 8, 8), White, 1, index)
  }

  /** What each pawn condition yields for the pawn at (6,4). */
  lemma StartPawnConditions(index: map<Vector, seq<Move>>)
    ensures var s, pos, pawn, conds := Start(index), Vector(6, 4), Piece('p', White), MoveConditions('p');
      GetPiece(s, pos) == Some(pawn) &&
      ApplyCondition(conds[0], s, pos, pawn) == Some(Move(Vector(5, 4), Displace)) &&
      ApplyCondition(conds[1], s, pos, pawn) == Some(Move(Vector(4, 4), Displace)) &&
      ApplyCondition(conds[2], s, pos, pawn) == None &&
      ApplyCondition(conds[3], s, pos, pawn) == None &&
      ApplyCondition(conds[4], s, pos, pawn) == None &&
      ApplyCondition(conds[5], s, pos, pawn) == None
  {
    var s := Start(index);
    assert GetPiece(s, Vector(5, 4)).None? && GetPiece(s, Vector(4, 4)).None?;
    assert GetPiece(s, Vector(5, 3)).None? && GetPiece(s, Vector(5, 5)).None?;
  }

  /** The white pawn at (6,4) may advance to (5,4) and to (4,4), and nothing else. */
  lemma StartPawnMoves(index: map<Vector, seq<Move>>)
    ensures MovesOf(Start(index), Vector(6, 4)) == [Move(Vector(5, 4), Displace), Move(Vector(4, 4), Displace)]
  {
    var s, pos, pawn, conds := Start(index), Vector(6, 4), Piece('p', White), MoveConditions('p');
    StartPawnConditions(index);
    assert |conds| == 6;
    ConditionMovesInOrder(s, pos, pawn, conds, 2, [Move(Vector(5, 4), Displace), Move(Vector(4, 4), Displace)]);
  }

  /** What each knight ray yields for the knight at (7,1). */
  lemma StartKnightRays(index: map<Vector, seq<Move>>)
    ensures var s, pos, rays := Start(index), Vector(7, 1), KnightRays();
      GetPiece(s, pos) == Some(Piece('n', White)) &&
      Walk(s, pos, White, rays[0], 1) == [Move(Vector(5, 0), Displace)] &&
      Walk(s, pos, White, rays[1], 1) == [Move(Vector(5, 2), Displace)] &&
      Walk(s, pos, White, rays[2], 1) == [] && Walk(s, pos, White, rays[3], 1) == [] &&
      Walk(s, pos, White, rays[4], 1) == [] && Walk(s, pos, White, rays[5], 1) == [] &&
      Walk(s, pos, White, rays[6], 1) == [] && Walk(s, pos, White, rays[7], 1) == []
  {
    var s := Start(index);
    assert GetPiece(s, Vector(5, 0)).None? && GetPiece(s, Vector(5, 2)).None?;
    assert GetPiece(s, Vector(6, 3)) == Some(Piece('p', White));
  }

  /** The white knight at (7,1) may jump to (5,0) and (5,2) only. */
  lemma StartKnightMoves(index: map<Vector, seq<Move>>)
    ensures MovesOf(Start(index), Vector(7, 1)) == [Move(Vector(5, 0), Displace), Move(Vector(5, 2), Displace)]
  {
    var s, pos, rays := Start(index), Vector(7, 1), KnightRays();
    StartKnightRays(index);
    assert |rays| == 8;
    RayMovesOfSingles(s, pos, White, rays, 2, [Move(Vector(5, 0), Displace), Move(Vector(5, 2), Displace)]);
  }

  /** A white king at (4,4) and a black rook at (4,0) on an otherwise empty board. */
  const KingRookRows: seq<seq<char>> := [
    "........",
    "........",
    "........",
    "........",
    "R...k...",
    "........",
    "........",
    "........"
  ]

  lemma KingRookBoard()
    ensures Rectangular(KingRookRows)
    ensures FromRows(KingRookRows) == Grid(KingRookRows, 8, 8)
  {
    var g := FromRows(KingRookRows);
    forall r | 0 <= r < 8
      ensures g.cells[r] == KingRookRows[r]
    {
      forall c | 0 <= c < 8
        ensures g.cells[r][c] == KingRookRows[r][c]
      {
        assert g.cells[r][c] == Normalize(KingRookRows[r][c]);
      }
    }
  }

  /** The eight king steps from (4,4), in the order of the king's condition table. */
  const KingSteps: seq<Move> := [
    Move(Vector(4, 3), Displace), Move(Vector(4, 5), Displace),
    Move(Vector(3, 4), Displace), Move(Vector(5, 4), Displace),
    Move(Vector(3, 3), Displace), Move(Vector(3, 5), Displace),
    Move(Vector(5, 3), Displace), Move(Vector(5, 5), Displace)
  ]

  /** What each king condition yields for the king at (4,4) when the index is fresh. */
  lemma KingConditions(t: State)
    requires t.Valid() && t.grid == Grid(KingRookRows, 8, 8) && t.currentPlayer == White && Fresh(t)
    ensures var pos, king, conds := Vector(4, 4), Piece('k', White), MoveConditions('k');
      GetPiece(t, pos) == Some(king) &&
      (forall i | 0 <= i < 8 :: ApplyCondition(conds[i], t, pos, king) == Some(KingSteps[i])) &&
      ApplyCondition(conds[8], t, pos, king) == None
  {
    var pos, king, conds := Vector(4, 4), Piece('k', White), MoveConditions('k');
    forall i | 0 <= i < 8
      ensures ApplyCondition(conds[i], t, pos, king) == Some(KingSteps[i])
    {
      var direction := conds[i].direction;
      assert GetPiece(t, pos.Sum(direction)).None?;
      FreshIndexNeverBlocksKing(t, direction, pos, king);
      KingMoveSpec(t, direction, pos, king);
    }
  }

  /** The king's moves over any fresh index: all eight neighbours, each a displacement. */
  lemma KingMovesOverFreshIndex(t: State)
    requires t.Valid() && t.grid == Grid(KingRookRows, 8, 8) && t.currentPlayer == White && Fresh(t)
    ensures MovesOf(t, Vector(4, 4)) == KingSteps
  {
    var pos, king, conds := Vector(4, 4), Piece('k', White), MoveConditions('k');
    KingConditions(t);
    assert |conds| == 9;
    ConditionMovesInOrder(t, pos, king, conds, 8, KingSteps);
  }

  /**
   * When the game starts on this board, the king's entry lists all eight neighbours, (4,3) among
   * them: the rook only displaces onto (4,1)..(4,3), and the attack query counts captures alone.
   */
  lemma KingBesideRookMayStepAlongTheRank()
    ensures Rectangular(KingRookRows)
    ensures var s := State(FromRows(KingRookRows), White, 1, map[]);
      s.Valid() && Vector(4, 4) in Rebuild(s).index && Rebuild(s).index[Vector(4, 4)] == KingSteps
  {
    KingRookBoard();
    var s := State(FromRows(KingRookRows), White, 1, map[]);
    assert GetPiece(s, Vector(4, 4)) == Some(Piece('k', White));
    InitialEntry(s, Vector(4, 4));
    var t: State :| t.Valid() && t == s.(index := t.index) && Fresh(t) && Rebuild(s).index[Vector(4, 4)] == MovesOf(t, Vector(4, 4));
    KingMovesOverFreshIndex(t);
  }

  /** A black king at (0,0), a white knight at (1,1) and a black rook at (1,3). */
  const KingKnightRookRows: seq<seq<char>> := ["K...", ".n.R"]

  lemma KingKnightRookBoard()
    ensures Rectangular(KingKnightRookRows)
    ensures FromRows(KingKnightRookRows) == Grid(KingKnightRookRows, 2, 4)
  {
    var g := FromRows(KingKnightRookRows);
    forall r | 0 <= r < 2
      ensures g.cells[r] == KingKnightRookRows[r]
    {
      forall c | 0 <= c < 4
        ensures g.cells[r][c] == KingKnightRookRows[r][c]
      {
        assert g.cells[r][c] == Normalize(KingKnightRookRows[r][c]);
      }
    }
  }

  /** The squares of that board the scenario below looks at. */
  lemma KingKnightRookSquares(s: State)
    requires s.grid == Grid(KingKnightRookRows, 2, 4)
    ensures s.grid.Valid()
    ensures GetPiece(s, Vector(0, 0)) == Some(Piece('k', Black))
    ensures GetPiece(s, Vector(1, 1)) == Some(Piece('n', White))
    ensures GetPiece(s, Vector(1, 2)) == None
    ensures GetPiece(s, Vector(1, 3)) == Some(Piece('r', Black))
  {
  }

  /** Over an empty index nothing is attacked, so a black king at (0,0) may capture a white piece at (1,1). */
  lemma KingCapturesKnightOverEmptyIndex(s: State)
    requires s.Valid() && s.index == map[]
    requires GetPiece(s, Vector(0, 0)) == Some(Piece('k', Black))
    requires GetPiece(s, Vector(1, 1)) == Some(Piece('n', White))
    ensures Move(Vector(1, 1), Capture) in MovesOf(s, Vector(0, 0))
  {
    var king := Piece('k', Black);
    KingStepListed(s, Vector(0, 0), king, 7);
    assert MovesOf(s, Vector(0, 0)) == ByCondition(s, Vector(0, 0), king) + ByRay(s, Vector(0, 0), king);
  }

  /** The eighth entry of the king's table steps from (0,0) down and to the right onto (1,1). */
  lemma KingStepListed(s: State, position: Vector, king: Piece, i: nat)
    requires s.Valid() && s.index == map[] && king.kind == 'k' && i == 7
    requires position == Vector(0, 0) && GetPiece(s, Vector(1, 1)).Some? && GetPiece(s, Vector(1, 1)).value.color != king.color
    ensures Move(Vector(1, 1), Capture) in ByCondition(s, position, king)
  {
    var conds, d := MoveConditions('k'), Back.Sum(Right);
    assert conds[i] == KingMoveRule(d) && position.Sum(d) == Vector(1, 1);
    assert !UnderAttack(s, Vector(1, 1));
    KingMoveSpec(s, d, position, king);
    ConditionMovesIncludes(s, position, king, conds, i);
  }

  /** With orientation +1, a black rook at (1,3) slides left over an empty (1,2) and captures a white piece at (1,1), whatever the index. */
  lemma RookCapturesKnight(s: State)
    requires s.Valid() && s.orient == 1
    requires GetPiece(s, Vector(1, 3)) == Some(Piece('r', Black))
    requires GetPiece(s, Vector(1, 2)) == None
    requires GetPiece(s, Vector(1, 1)) == Some(Piece('n', White))
    ensures Move(Vector(1, 1), Capture) in MovesOf(s, Vector(1, 3))
  {
    var rays := MoveRays('r');
    assert rays[2] == Ray(Left, None);
    assert RayDest(s, Vector(1, 3), rays[2], 1) == Vector(1, 2);
    assert RayDest(s, Vector(1, 3), rays[2], 2) == Vector(1, 1);
    assert Walk(s, Vector(1, 3), Black, rays[2], 2) == [Move(Vector(1, 1), Capture)];
    assert Walk(s, Vector(1, 3), Black, rays[2], 1) == [Move(Vector(1, 2), Displace), Move(Vector(1, 1), Capture)];
    RayMovesIncludes(s, Vector(1, 3), Black, rays, 2, Move(Vector(1, 1), Capture));
    assert MoveConditions('r') == [];
  }

  /** Once the index lists a black capture of (1,1) under (1,3), a black king's step from (0,0) onto (1,1) counts as attacked and is dropped. */
  lemma KingStepDroppedOnceRookListed(t: State)
    requires t.Valid() && t.currentPlayer == White
    requires GetPiece(t, Vector(0, 0)) == Some(Piece('k', Black))
    requires GetPiece(t, Vector(1, 3)) == Some(Piece('r', Black))
    requires Vector(1, 3) in t.index && Move(Vector(1, 1), Capture) in t.index[Vector(1, 3)]
    ensures Move(Vector(1, 1), Capture) !in MovesOf(t, Vector(0, 0))
  {
    var m := Move(Vector(1, 1), Capture);
    assert !OwnedBy(t, Vector(1, 3), White) && HasCaptureOn(t.index[Vector(1, 3)], Vector(1, 1));
    assert MoveRays('k') == [];
    if m in ByCondition(t, Vector(0, 0), Piece('k', Black)) {
      KingNeverStepsOntoAttacked(t, Vector(0, 0), Piece('k', Black), m);
    }
  }

  /**
   * Rebuilding is not idempotent once kings are on the board. In the game started on this board,
   * the king's entry lists the capture of (1,1), because it was computed before the rook had an entry.
   * Rebuilding again drops that capture.
   */
  lemma RebuildNotIdempotentWithKings()
    ensures Rectangular(KingKnightRookRows)
    ensures var s := State(FromRows(KingKnightRookRows), White, 1, map[]);
      s.Valid() && Rebuild(Rebuild(s)) != Rebuild(s)
  {
    KingKnightRookBoard();
    var s := State(FromRows(KingKnightRookRows), White, 1, map[]);
    var t := Rebuild(s);
    KingKnightRookSquares(s);
    assert t.grid == s.grid && t.currentPlayer == White && t.orient == 1;
    KingKnightRookSquares(t);
    RebuildFirstSquare(s);
    KingCapturesKnightOverEmptyIndex(s);
    RebuildNonKingEntry(s, Vector(1, 3));
    RookCapturesKnight(s);
    RebuildFirstSquare(t);
    KingStepDroppedOnceRookListed(t);
    assert Move(Vector(1, 1), Capture) in t.index[Vector(0, 0)];
    assert Move(Vector(1, 1), Capture) !in Rebuild(t).index[Vector(0, 0)];
  }

  /** A lone white pawn on a one-square board, white to move, with any index. */
  ghost predicate LonePawn(s: State) {
    s.grid == Grid(["p"], 1, 1) && s.currentPlayer == White && s.orient == 1
  }

  /** What each pawn condition yields for the lone pawn: both forward squares are off the board and read as empty. */
  lemma LonePawnConditions(s: State)
    requires LonePawn(s)
    ensures s.Valid()
    ensures var pos, pawn, conds := Vector(0, 0), Piece('p', White), MoveConditions('p');
      GetPiece(s, pos) == Some(pawn) &&
      ApplyCondition(conds[0], s, pos, pawn) == Some(Move(Vector(-1, 0), Displace)) &&
      ApplyCondition(conds[1], s, pos, pawn) == Some(Move(Vector(-2, 0), Displace)) &&
      ApplyCondition(conds[2], s, pos, pawn) == None &&
      ApplyCondition(conds[3], s, pos, pawn) == None &&
      ApplyCondition(conds[4], s, pos, pawn) == None &&
      ApplyCondition(conds[5], s, pos, pawn) == None
  {
    assert s.Valid() && GetPiece(s, Vector(0, 0)) == Some(Piece('p', White));
    assert GetPiece(s, Vector(-1, 0)).None? && GetPiece(s, Vector(-2, 0)).None?;
    assert GetPiece(s, Vector(-1, -1)).None? && GetPiece(s, Vector(-1, 1)).None?;
  }

  /** Folding the lone pawn's conditions: the two forward steps, in table order. */
  lemma LonePawnConditionMoves(s: State)
    requires LonePawn(s)
    ensures s.Valid()
    ensures ByCondition(s, Vector(0, 0), Piece('p', White)) == [Move(Vector(-1, 0), Displace), Move(Vector(-2, 0), Displace)]
  {
    var pos, pawn, conds := Vector(0, 0), Piece('p', White), MoveConditions('p');
    LonePawnConditions(s);
    assert |conds| == 6;
    ConditionMovesInOrder(s, pos, pawn, conds, 2, [Move(Vector(-1, 0), Displace), Move(Vector(-2, 0), Displace)]);
  }

  /** The one-step and two-step pawn moves are not checked against the board's edge. */
  lemma PawnStepsOffTheBoard(s: State)
    requires LonePawn(s)
    ensures s.Valid()
    ensures MovesOf(s, Vector(0, 0)) == [Move(Vector(-1, 0), Displace), Move(Vector(-2, 0), Displace)]
  {
    LonePawnConditionMoves(s);
    assert GetPiece(s, Vector(0, 0)) == Some(Piece('p', White));
    assert MoveRays('p') == [];
  }

  /** The lone pawn's first forward square is off the board and reads as empty. */
  lemma LonePawnAtTheEdge(s: State, p: Vector)
    requires LonePawn(s) && p == Vector(0, 0)
    ensures s.Valid() && GetPiece(s, p) == Some(Piece('p', s.currentPlayer))
    ensures GetPiece(s, Ahead(s, p, 1)).None? && !s.grid.IsOnBoard(Ahead(s, p, 1))
  {
    LonePawnConditions(s);
    assert Ahead(s, p, 1) == Vector(-1, 0);
  }

  /** Clicking the lone pawn never selects it: highlighting its first listed square finds no cell. */
  lemma LonePawnNeverSelected(s: State, p: Vector)
    requires LonePawn(s) && p == Vector(0, 0)
    ensures s.Valid() && !Selectable(Rebuild(s), p)
  {
    LonePawnAtTheEdge(s, p);
    PawnNearFarEdgeNeverSelected(s, p);
  }

  /** In the index the game starts with, the pawn at (6,4) lists exactly its two forward squares. */
  lemma StartIndexPawnEntry(index: map<Vector, seq<Move>>)
    ensures Vector(6, 4) in Rebuild(Start(index)).index
    ensures Rebuild(Start(index)).index[Vector(6, 4)] == [Move(Vector(5, 4), Displace), Move(Vector(4, 4), Displace)]
  {
    var s0 := Start(index);
    StartPawnConditions(index);
    RebuildNonKingEntry(s0, Vector(6, 4));
    StartPawnMoves(index);
  }

  /** A white pawn at (6,4) of an 8 x 8 board, listing (5,4) and (4,4), can be selected: both cells exist. */
  lemma PawnEntrySelectable(t: State)
    requires t.grid.Valid() && t.grid.numRows == 8 && t.grid.numCols == 8 && t.currentPlayer == White
    requires GetPiece(t, Vector(6, 4)) == Some(Piece('p', White))
    requires Vector(6, 4) in t.index
    requires t.index[Vector(6, 4)] == [Move(Vector(5, 4), Displace), Move(Vector(4, 4), Displace)]
    ensures Selectable(t, Vector(6, 4))
  {
  }

  /** On the starting board, (6,4) holds a white pawn and (4,4) is empty. */
  lemma StartSquares()
    ensures var g := FromRows(StartRows);
      g.Valid() && g.numRows == 8 && g.numCols == 8 &&
      g.IsOnBoard(Vector(6, 4)) && g.GetPiece(Vector(6, 4)) == Some('p') &&
      g.IsOnBoard(Vector(4, 4)) && g.GetPiece(Vector(4, 4)) == None
  {
    StartBoard();
  }

  /** Two clicks: selecting a square of the side to move, then one of its listed destinations, plays that move. */
  method SelectThenPlay(game: Game, from: Vector, to: Vector)
    requires game.Valid() && game.board.View().IsOnBoard(from) && game.board.View().IsOnBoard(to)
    requires game.positionToMoveFrom == None && from != to
    requires Selectable(game.Snapshot(), from) && !OwnedBy(game.Snapshot(), to, game.currentPlayer)
    requires IsLegalDestination(game.Snapshot(), from, to)
    modifies game, game.board
    ensures game.Valid() && game.board == old(game.board)
    ensures game.board.View() == old(game.board.View()).Moved(from, to)
    ensures game.currentPlayer == Opponent(old(game.currentPlayer)) && game.orient == -old(game.orient)
    ensures game.positionToMoveFrom == None
  {
    ghost var s0 := game.Snapshot();
    game.OnCellClick(from);
    assert game.Snapshot() == s0 && game.positionToMoveFrom == Some(from);
    game.OnCellClick(to);
  }

  /** In the index a new game starts with, the pawn at (6,4) lists (5,4) and (4,4). */
  lemma OpeningEntry(t: State)
    requires Rectangular(StartRows) && t == Rebuild(State(FromRows(StartRows), White, 1, map[]))
    ensures Vector(6, 4) in t.index
    ensures t.index[Vector(6, 4)] == [Move(Vector(5, 4), Displace), Move(Vector(4, 4), Displace)]
  {
    var empty: map<Vector, seq<Move>> := map[];
    StartBoard();
    assert t == Rebuild(Start(empty));
    StartIndexPawnEntry(empty);
  }

  /** On the board a new game starts with, (6,4) holds a white pawn and (4,4) is empty. */
  lemma OpeningSquares(t: State)
    requires Rectangular(StartRows) && t == Rebuild(State(FromRows(StartRows), White, 1, map[]))
    ensures t.grid.Valid() && t.grid.numRows == 8 && t.grid.numCols == 8 && t.currentPlayer == White
    ensures t.grid.IsOnBoard(Vector(6, 4)) && t.grid.IsOnBoard(Vector(4, 4))
    ensures t.grid.GetPiece(Vector(6, 4)) == Some('p') && t.grid.GetPiece(Vector(4, 4)) == None
  {
    StartSquares();
  }

  /** What the first two clicks of the opening rely on, in the state a new game starts in. */
  lemma OpeningPrerequisites(t: State)
    requires Rectangular(StartRows) && t == Rebuild(State(FromRows(StartRows), White, 1, map[]))
    ensures t.grid.Valid() && t.grid.numRows == 8 && t.grid.numCols == 8 && t.currentPlayer == White
    ensures t.grid.IsOnBoard(Vector(6, 4)) && t.grid.IsOnBoard(Vector(4, 4))
    ensures t.grid.GetPiece(Vector(6, 4)) == Some('p') && t.grid.GetPiece(Vector(4, 4)) == None
    ensures Selectable(t, Vector(6, 4)) && !OwnedBy(t, Vector(4, 4), White)
    ensures IsLegalDestination(t, Vector(6, 4), Vector(4, 4))
  {
    OpeningEntry(t);
    OpeningSquares(t);
    assert GetPiece(t, Vector(6, 4)) == Some(Piece('p', White));
    PawnEntrySelectable(t);
  }

  /** Starting the game, clicking the pawn at (6,4) and then (4,4) plays the double step and hands the turn to black. */
  method OpeningDoubleStep() returns (game: Game)
    ensures game.Valid()
    ensures game.board.View().numRows == 8 && game.board.View().numCols == 8
    ensures game.board.View().GetPiece(Vector(4, 4)) == Some('p') && game.board.View().GetPiece(Vector(6, 4)) == None
    ensures game.currentPlayer == Black && game.orient == -1 && game.positionToMoveFrom == None
  {
    assert Rectangular(StartRows) by { StartBoard(); }
    game := new Game(StartRows);
    OpeningPrerequisites(game.Snapshot());
    SelectThenPlay(game, Vector(6, 4), Vector(4, 4));
  }
}
