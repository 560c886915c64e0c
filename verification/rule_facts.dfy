/** Properties of the move generator and of the index rebuild. */
module RuleFacts {
  import opened Wrappers
  import opened Geometry
  import opened Pieces
  import opened Boards
  import opened Rules

  // ---------------------------------------------------------------- index rebuild

  /** Refreshing squares only adds the occupied ones as keys and never touches an empty square's entry. */
  lemma {:induction false} RebuildOverKeys(s: State, ps: seq<Vector>)
    requires s.Valid()
    ensures forall k :: k in RebuildOver(s, ps).index <==> k in s.index || (k in ps && GetPiece(s, k).Some?)
    ensures forall k | k in s.index && GetPiece(s, k).None? :: RebuildOver(s, ps).index[k] == s.index[k]
  {
    if ps != [] {
      RebuildOverKeys(s, ps[..|ps| - 1]);
      assert ps == ps[..|ps| - 1] + [ps[|ps| - 1]];
    }
  }

  /** Refreshing `ps` and then `qs` is refreshing `ps + qs`: the row-by-row rebuild is the whole rebuild. */
  lemma {:induction false} RebuildOverAppend(s: State, ps: seq<Vector>, qs: seq<Vector>)
    requires s.Valid()
    ensures RebuildOver(s, ps + qs) == RebuildOver(RebuildOver(s, ps), qs)
    decreases |qs|
  {
    if qs != [] {
      var front := qs[..|qs| - 1];
      RebuildOverAppend(s, ps, front);
      assert (ps + qs)[..|ps + qs| - 1] == ps + front;
    } else {
      assert ps + qs == ps;
    }
  }

  /** After `updateLegalMoves` the keys are the old keys plus every occupied square; entries of empty squares are left as they were. */
  lemma RebuildKeys(s: State)
    requires s.Valid()
    ensures forall k :: k in Rebuild(s).index <==> k in s.index || GetPiece(s, k).Some?
    ensures forall k | k in s.index && GetPiece(s, k).None? :: Rebuild(s).index[k] == s.index[k]
  {
    RebuildOverKeys(s, RowMajor(s.grid.numRows, s.grid.numCols));
    forall k | GetPiece(s, k).Some?
      ensures k in RowMajor(s.grid.numRows, s.grid.numCols)
    {
      RowMajorCovers(s.grid.numRows, s.grid.numCols, k);
    }
  }

  // ---------------------------------------------------------------- board queries

  /** `getPiece` is total: nothing off the board or on an empty cell; otherwise the kind is the lower-cased symbol and the colour is white exactly for lower case. */
  lemma GetPieceSpec(s: State, p: Vector)
    requires s.grid.Valid()
    ensures GetPiece(s, p).None? <==> !s.grid.IsOnBoard(p) || s.grid.cells[p.r][p.c] == EMPTY
    ensures GetPiece(s, p).Some? ==>
      var ch := s.grid.cells[p.r][p.c];
      IsKind(GetPiece(s, p).value.kind) && GetPiece(s, p).value.kind == Lower(ch) &&
      (GetPiece(s, p).value.color == White <==> ch in "kqrbnp") &&
      Encode(GetPiece(s, p).value) == ch
  {
    if GetPiece(s, p).Some? {
      DecodeSymbol(s.grid.cells[p.r][p.c]);
      EncodeDecode(s.grid.cells[p.r][p.c]);
    }
  }

  // ---------------------------------------------------------------- rays

  /** The i-th move of a ray walked from step k is at step k + i and on the board. */
  lemma {:induction false} WalkSquare(s: State, position: Vector, color: Color, ray: Ray, k: nat, i: nat)
    requires s.Valid() && ray.direction != Zero && k >= 1 && s.grid.IsOnBoard(position)
    requires i < |Walk(s, position, color, ray, k)|
    ensures Walk(s, position, color, ray, k)[i].dest == RayDest(s, position, ray, k + i)
    ensures s.grid.IsOnBoard(Walk(s, position, color, ray, k)[i].dest)
    decreases i
  {
    var ms := Walk(s, position, color, ray, k);
    var dest := RayDest(s, position, ray, k);
    assert s.grid.IsOnBoard(dest) && ms[0].dest == dest;
    if i > 0 {
      assert GetPiece(s, dest).None?;
      StepBound(s, position, ray, k);
      var rest := Walk(s, position, color, ray, k + 1);
      assert ms == [Move(dest, Displace)] + rest;
      WalkSquare(s, position, color, ray, k + 1, i - 1);
      assert ms[i] == rest[i - 1] && k + 1 + (i - 1) == k + i;
    }
  }

  /** A ray with `maxSteps` never walks past it. */
  lemma {:induction false} WalkWithinCap(s: State, position: Vector, color: Color, ray: Ray, k: nat)
    requires s.Valid() && ray.direction != Zero && k >= 1 && s.grid.IsOnBoard(position)
    requires ray.maxSteps.Some?
    ensures var ms := Walk(s, position, color, ray, k);
      ms != [] ==> k + |ms| <= ray.maxSteps.value + 1
    decreases s.grid.numRows + s.grid.numCols - k
  {
    var dest := RayDest(s, position, ray, k);
    if k <= ray.maxSteps.value && s.grid.IsOnBoard(dest) && GetPiece(s, dest).None? {
      StepBound(s, position, ray, k);
      WalkWithinCap(s, position, color, ray, k + 1);
    }
  }

  /** All squares of a walk: the i-th move is at step k + i, on the board, and within `maxSteps`. */
  lemma WalkSquares(s: State, position: Vector, color: Color, ray: Ray, k: nat)
    requires s.Valid() && ray.direction != Zero && k >= 1 && s.grid.IsOnBoard(position)
    ensures var ms := Walk(s, position, color, ray, k);
      (forall i | 0 <= i < |ms| :: ms[i].dest == RayDest(s, position, ray, k + i) && s.grid.IsOnBoard(ms[i].dest)) &&
      (ray.maxSteps.Some? && ms != [] ==> k + |ms| <= ray.maxSteps.value + 1)
  {
    var ms := Walk(s, position, color, ray, k);
    forall i | 0 <= i < |ms|
      ensures ms[i].dest == RayDest(s, position, ray, k + i) && s.grid.IsOnBoard(ms[i].dest)
    {
      WalkSquare(s, position, color, ray, k, i);
    }
    if ray.maxSteps.Some? {
      WalkWithinCap(s, position, color, ray, k);
    }
  }

  /** A walk has no gaps: each square it lists is one oriented step beyond the one before. */
  lemma WalkContiguous(s: State, position: Vector, color: Color, ray: Ray, i: nat)
    requires s.Valid() && ray.direction != Zero && s.grid.IsOnBoard(position)
    requires i + 1 < |Walk(s, position, color, ray, 1)|
    ensures var ms := Walk(s, position, color, ray, 1);
      ms[i + 1].dest == ms[i].dest.Sum(ray.direction.Scaled(s.orient))
  {
    var d := ray.direction.Scaled(s.orient);
    WalkSquare(s, position, color, ray, 1, i);
    WalkSquare(s, position, color, ray, 1, i + 1);
    ScaledAdds(d, 1 + i, 1);
    assert d.Scaled(1) == d;
  }

  /** The i-th move of a walk: a displacement exactly on an empty square, a capture only last and on the other colour. */
  lemma {:induction false} WalkMoveKind(s: State, position: Vector, color: Color, ray: Ray, k: nat, i: nat)
    requires s.Valid() && ray.direction != Zero && k >= 1 && s.grid.IsOnBoard(position)
    requires i < |Walk(s, position, color, ray, k)|
    ensures var ms := Walk(s, position, color, ray, k);
      (ms[i].kind == Displace <==> GetPiece(s, ms[i].dest).None?) &&
      (ms[i].kind == Capture ==> i == |ms| - 1 && OwnedBy(s, ms[i].dest, Opponent(color)))
    decreases i
  {
    var ms := Walk(s, position, color, ray, k);
    var dest := RayDest(s, position, ray, k);
    assert s.grid.IsOnBoard(dest) && ms[0].dest == dest;
    if GetPiece(s, dest).Some? {
      var q := GetPiece(s, dest).value;
      assert color != q.color && q.color == Opponent(color);
      assert ms == [Move(dest, Capture)];
    } else {
      StepBound(s, position, ray, k);
      var rest := Walk(s, position, color, ray, k + 1);
      assert ms == [Move(dest, Displace)] + rest;
      if i > 0 {
        WalkMoveKind(s, position, color, ray, k + 1, i - 1);
        assert ms[i] == rest[i - 1];
      }
    }
  }

  /** A walk that does not end in a capture stopped because of `maxSteps`, the edge of the board, or a piece of `color`. */
  lemma {:induction false} WalkStop(s: State, position: Vector, color: Color, ray: Ray, k: nat)
    requires s.Valid() && ray.direction != Zero && k >= 1 && s.grid.IsOnBoard(position)
    ensures var ms := Walk(s, position, color, ray, k);
      (ms == [] || ms[|ms| - 1].kind == Displace) ==>
        var next := RayDest(s, position, ray, k + |ms|);
        (ray.maxSteps.Some? && k + |ms| > ray.maxSteps.value) || !s.grid.IsOnBoard(next) || OwnedBy(s, next, color)
    decreases s.grid.numRows + s.grid.numCols - k
  {
    var ms := Walk(s, position, color, ray, k);
    var dest := RayDest(s, position, ray, k);
    if ray.maxSteps.Some? && k > ray.maxSteps.value {
    } else if !s.grid.IsOnBoard(dest) {
    } else if GetPiece(s, dest).Some? {
      assert ms == [] || ms == [Move(dest, Capture)];
    } else {
      StepBound(s, position, ray, k);
      WalkStop(s, position, color, ray, k + 1);
      var rest := Walk(s, position, color, ray, k + 1);
      assert ms == [Move(dest, Displace)] + rest;
      assert k + 1 + |rest| == k + |ms|;
    }
  }

  /**
   * The effects along one ray: a move is a displacement exactly when its square is empty; a
   * capture is always the last move and lands on the other colour; and a walk that does not end
   * in a capture stopped because of `maxSteps`, the edge of the board, or a piece of `color`.
   */
  lemma WalkEffects(s: State, position: Vector, color: Color, ray: Ray, k: nat)
    requires s.Valid() && ray.direction != Zero && k >= 1 && s.grid.IsOnBoard(position)
    ensures var ms := Walk(s, position, color, ray, k);
      (forall i | 0 <= i < |ms| :: ms[i].kind == Displace <==> GetPiece(s, ms[i].dest).None?) &&
      (forall i | 0 <= i < |ms| :: ms[i].kind == Capture ==> i == |ms| - 1 && OwnedBy(s, ms[i].dest, Opponent(color))) &&
      ((ms == [] || ms[|ms| - 1].kind == Displace) ==>
         var next := RayDest(s, position, ray, k + |ms|);
         (ray.maxSteps.Some? && k + |ms| > ray.maxSteps.value) || !s.grid.IsOnBoard(next) || OwnedBy(s, next, color))
  {
    var ms := Walk(s, position, color, ray, k);
    forall i | 0 <= i < |ms|
      ensures (ms[i].kind == Displace <==> GetPiece(s, ms[i].dest).None?) &&
        (ms[i].kind == Capture ==> i == |ms| - 1 && OwnedBy(s, ms[i].dest, Opponent(color)))
    {
      WalkMoveKind(s, position, color, ray, k, i);
    }
    WalkStop(s, position, color, ray, k);
  }

  /** Nothing beyond the first occupied square: every move before a ray's last one is a displacement onto an empty square. */
  lemma RayStopsAtFirstPiece(s: State, position: Vector, color: Color, ray: Ray)
    requires s.Valid() && ray.direction != Zero && s.grid.IsOnBoard(position)
    ensures var ms := Walk(s, position, color, ray, 1);
      forall j | 0 <= j < |ms| - 1 :: ms[j].kind == Displace && GetPiece(s, ms[j].dest).None?
  {
    WalkEffects(s, position, color, ray, 1);
  }

  /** A ray capped at one step, as every knight ray is, yields at most one move. */
  lemma KnightRaysAtMostOne(s: State, position: Vector, color: Color)
    requires s.Valid() && s.grid.IsOnBoard(position)
    ensures forall ray | ray in KnightRays() :: |Walk(s, position, color, ray, 1)| <= 1
  {
    forall ray | ray in KnightRays()
      ensures |Walk(s, position, color, ray, 1)| <= 1
    {
      assert ray.maxSteps == Some(1) && ray.direction != Zero;
      WalkSquares(s, position, color, ray, 1);
    }
  }

  /** Concatenating ray lists concatenates their moves, so table order is kept. */
  lemma {:induction false} RayMovesAppend(s: State, position: Vector, color: Color, a: seq<Ray>, b: seq<Ray>)
    requires s.Valid() && s.grid.IsOnBoard(position)
    requires forall i | 0 <= i < |a| :: a[i].direction != Zero
    requires forall i | 0 <= i < |b| :: b[i].direction != Zero
    ensures RayMoves(s, position, color, a + b) == RayMoves(s, position, color, a) + RayMoves(s, position, color, b)
    decreases |b|
  {
    if b == [] {
      assert a + b == a;
    } else {
      var b' := b[..|b| - 1];
      assert (a + b)[..|a + b| - 1] == a + b';
      RayMovesAppend(s, position, color, a, b');
    }
  }

  /** The queen's moves are the rook's moves followed by the bishop's, from the same square. */
  lemma QueenIsRookThenBishop(s: State, position: Vector, color: Color)
    requires s.Valid() && s.grid.IsOnBoard(position)
    ensures ByRay(s, position, Piece('q', color)) ==
            ByRay(s, position, Piece('r', color)) + ByRay(s, position, Piece('b', color))
  {
    RayMovesAppend(s, position, color, RookRays(), BishopRays());
  }

  /** Conversely, every move of one of the rays is among the ray moves. */
  lemma {:induction false} RayMovesIncludes(s: State, position: Vector, color: Color, rays: seq<Ray>, i: nat, m: Move)
    requires s.Valid() && s.grid.IsOnBoard(position)
    requires forall j | 0 <= j < |rays| :: rays[j].direction != Zero
    requires i < |rays| && m in Walk(s, position, color, rays[i], 1)
    ensures m in RayMoves(s, position, color, rays)
    decreases |rays|
  {
    if i < |rays| - 1 {
      var init := rays[..|rays| - 1];
      assert init[i] == rays[i];
      RayMovesIncludes(s, position, color, init, i, m);
    }
  }

  /** Each move of a ray list comes from one of its rays. */
  lemma {:induction false} RayMovesFromSomeRay(s: State, position: Vector, color: Color, rays: seq<Ray>, m: Move)
    requires s.Valid() && s.grid.IsOnBoard(position)
    requires forall i | 0 <= i < |rays| :: rays[i].direction != Zero
    requires m in RayMoves(s, position, color, rays)
    ensures exists i | 0 <= i < |rays| :: m in Walk(s, position, color, rays[i], 1)
    decreases |rays|
  {
    var last := rays[|rays| - 1];
    if m !in Walk(s, position, color, last, 1) {
      RayMovesFromSomeRay(s, position, color, rays[..|rays| - 1], m);
      var i :| 0 <= i < |rays| - 1 && m in Walk(s, position, color, rays[..|rays| - 1][i], 1);
      assert rays[..|rays| - 1][i] == rays[i];
    }
  }

  /** Conversely, every move a condition yields is among the condition moves. */
  lemma {:induction false} ConditionMovesIncludes(s: State, position: Vector, piece: Piece, conds: seq<Condition>, i: nat)
    requires s.grid.Valid() && i < |conds| && ApplyCondition(conds[i], s, position, piece).Some?
    ensures ApplyCondition(conds[i], s, position, piece).value in ConditionMoves(s, position, piece, conds)
    decreases |conds|
  {
    if i < |conds| - 1 {
      var init := conds[..|conds| - 1];
      assert init[i] == conds[i];
      ConditionMovesIncludes(s, position, piece, init, i);
    }
  }

  /** Each move of a condition list is the move of one of its conditions. */
  lemma {:induction false} ConditionMovesFromSomeCondition(s: State, position: Vector, piece: Piece, conds: seq<Condition>, m: Move)
    requires s.grid.Valid()
    requires m in ConditionMoves(s, position, piece, conds)
    ensures exists i | 0 <= i < |conds| :: ApplyCondition(conds[i], s, position, piece) == Some(m)
    decreases |conds|
  {
    var last := conds[|conds| - 1];
    if ApplyCondition(last, s, position, piece) != Some(m) {
      ConditionMovesFromSomeCondition(s, position, piece, conds[..|conds| - 1], m);
      var i :| 0 <= i < |conds| - 1 && ApplyCondition(conds[..|conds| - 1][i], s, position, piece) == Some(m);
      assert conds[..|conds| - 1][i] == conds[i];
    }
  }

  lemma LastSplit(ms: seq<Move>)
    requires ms != []
    ensures ms == ms[..|ms| - 1] + [ms[|ms| - 1]]
  {
  }

  /**
   * The condition fold is the list of the conditions' moves in table order: when the first `n`
   * conditions produce `ms` and the others nothing, the fold is exactly `ms`.
   */
  lemma {:induction false} ConditionMovesInOrder(s: State, position: Vector, piece: Piece, conds: seq<Condition>, n: nat, ms: seq<Move>)
    requires s.grid.Valid() && n <= |conds| && |ms| == n
    requires forall i | 0 <= i < n :: ApplyCondition(conds[i], s, position, piece) == Some(ms[i])
    requires forall i | n <= i < |conds| :: ApplyCondition(conds[i], s, position, piece) == None
    ensures ConditionMoves(s, position, piece, conds) == ms
    decreases |conds|
  {
    if conds != [] {
      var init := conds[..|conds| - 1];
      assert forall i | 0 <= i < |init| :: init[i] == conds[i];
      if n < |conds| {
        ConditionMovesInOrder(s, position, piece, init, n, ms);
      } else {
        ConditionMovesInOrder(s, position, piece, init, n - 1, ms[..n - 1]);
        LastSplit(ms);
      }
    }
  }

  /**
   * The same for the ray fold, when each of the first `n` rays yields a single move and the
   * others nothing (as for a knight).
   */
  lemma {:induction false} RayMovesOfSingles(s: State, position: Vector, color: Color, rays: seq<Ray>, n: nat, ms: seq<Move>)
    requires s.Valid() && s.grid.IsOnBoard(position) && n <= |rays| && |ms| == n
    requires forall i | 0 <= i < |rays| :: rays[i].direction != Zero
    requires forall i | 0 <= i < n :: Walk(s, position, color, rays[i], 1) == [ms[i]]
    requires forall i | n <= i < |rays| :: Walk(s, position, color, rays[i], 1) == []
    ensures RayMoves(s, position, color, rays) == ms
    decreases |rays|
  {
    if rays != [] {
      var init := rays[..|rays| - 1];
      assert forall i | 0 <= i < |init| :: init[i] == rays[i];
      if n < |rays| {
        RayMovesOfSingles(s, position, color, init, n, ms);
      } else {
        RayMovesOfSingles(s, position, color, init, n - 1, ms[..n - 1]);
        LastSplit(ms);
      }
    }
  }

  /** Kings and pawns move only by conditions; rooks, bishops, knights and queens only by rays. */
  lemma OneMechanismPerKind(s: State, position: Vector, piece: Piece)
    requires s.Valid() && s.grid.IsOnBoard(position)
    ensures piece.kind in "kp" ==> ByRay(s, position, piece) == []
    ensures piece.kind !in "kp" ==> ByCondition(s, position, piece) == []
  {
  }

  // ---------------------------------------------------------------- pawns

  /** "Ahead" is up the board (decreasing row) for orientation +1 and down for -1. */
  lemma AheadIsRowOffset(s: State, position: Vector, steps: int)
    requires s.Valid()
    ensures Ahead(s, position, steps) == Vector(position.r - s.orient * steps, position.c)
  {
  }

  /** The one-step move exists exactly when the square ahead reads as empty (off the board included), and is a displacement there. */
  lemma PawnFront1Spec(s: State, position: Vector)
    requires s.Valid()
    ensures PawnFront1(s, position).Some? <==> GetPiece(s, Vector(position.r - s.orient, position.c)).None?
    ensures PawnFront1(s, position).Some? ==> PawnFront1(s, position).value == Move(Vector(position.r - s.orient, position.c), Displace)
  {
    AheadIsRowOffset(s, position, 1);
  }

  /** The two-step move needs the one-step move and an empty square two ahead; move history never blocks it. */
  lemma PawnFront2Spec(s: State, position: Vector)
    requires s.Valid()
    ensures PawnFront2(s, position).Some? <==>
      PawnFront1(s, position).Some? && GetPiece(s, Vector(position.r - 2 * s.orient, position.c)).None?
    ensures PawnFront2(s, position).Some? ==>
      PawnFront2(s, position).value == Move(Vector(position.r - 2 * s.orient, position.c), Displace)
  {
    AheadIsRowOffset(s, position, 2);
  }

  /** A diagonal-forward move exists exactly when the square holds the other colour, and is then a capture. */
  lemma PawnCaptureSpec(s: State, direction: Vector, position: Vector, piece: Piece)
    requires s.Valid()
    ensures var dest := Vector(position.r + s.orient * (direction.r - 1), position.c + s.orient * direction.c);
      (PawnCapture(s, direction, position, piece).Some? <==> OwnedBy(s, dest, Opponent(piece.color))) &&
      (PawnCapture(s, direction, position, piece).Some? ==> PawnCapture(s, direction, position, piece).value == Move(dest, Capture))
  {
    var dest := Vector(position.r + s.orient * (direction.r - 1), position.c + s.orient * direction.c);
    assert CaptureSquare(s, direction, position) == dest;
    if GetPiece(s, dest).Some? && GetPiece(s, dest).value.color != piece.color {
      assert GetPiece(s, dest).value.color == Opponent(piece.color);
    }
  }

  // ---------------------------------------------------------------- king and hooks

  /** A king step is never off the board, onto its own colour, or onto an attacked square; otherwise it is a capture exactly when the square is occupied. */
  lemma KingMoveSpec(s: State, direction: Vector, position: Vector, piece: Piece)
    requires s.Valid()
    ensures var dest := position.Sum(direction);
      (KingMove(s, direction, position, piece).Some? <==>
         s.grid.IsOnBoard(dest) && !OwnedBy(s, dest, piece.color) && !UnderAttack(s, dest)) &&
      (KingMove(s, direction, position, piece).Some? ==>
         KingMove(s, direction, position, piece).value.dest == dest &&
         (KingMove(s, direction, position, piece).value.kind == Capture <==> GetPiece(s, dest).Some?))
  {
  }

  /** En passant, promotion and castling are hooks that never yield a move. */
  lemma HooksYieldNothing(s: State, position: Vector, piece: Piece)
    requires s.grid.Valid()
    ensures ApplyCondition(PawnEnpassantRule, s, position, piece).None?
    ensures ApplyCondition(PawnPromoteRule, s, position, piece).None?
    ensures ApplyCondition(KingCastleRule, s, position, piece).None?
  {
  }

  // ---------------------------------------------------------------- captures and the attack query

  /** Every capture the generator lists for a piece lands on a piece of the other colour on the same board. */
  lemma CapturesLandOnOpponents(s: State, position: Vector, m: Move)
    requires s.Valid() && GetPiece(s, position).Some?
    requires m in MovesOf(s, position) && m.kind == Capture
    ensures OwnedBy(s, m.dest, Opponent(GetPiece(s, position).value.color))
  {
    var piece := GetPiece(s, position).value;
    if m in ByCondition(s, position, piece) {
      var conds := MoveConditions(piece.kind);
      ConditionMovesFromSomeCondition(s, position, piece, conds, m);
      var i :| 0 <= i < |conds| && ApplyCondition(conds[i], s, position, piece) == Some(m);
      match conds[i]
      case PawnCaptureRule(direction) =>
        PawnCaptureSpec(s, direction, position, piece);
      case KingMoveRule(direction) =>
        KingMoveSpec(s, direction, position, piece);
        var q := GetPiece(s, m.dest).value;
        assert q.color != piece.color;
        assert q.color == Opponent(piece.color);
      case _ =>
    } else {
      var rays := MoveRays(piece.kind);
      RayMovesFromSomeRay(s, position, piece.color, rays, m);
      var i :| 0 <= i < |rays| && m in Walk(s, position, piece.color, rays[i], 1);
      WalkEffects(s, position, piece.color, rays[i], 1);
    }
  }

  /** Every key holds a piece and every listed capture lands on the other colour than that piece's, on the current board. */
  ghost predicate Fresh(s: State)
    requires s.grid.Valid()
  {
    forall from | from in s.index ::
      GetPiece(s, from).Some? &&
      forall m | m in s.index[from] && m.kind == Capture :: OwnedBy(s, m.dest, Opponent(GetPiece(s, from).value.color))
  }

  /**
   * The attack query counts only captures, so over a fresh index a square is "under attack" only
   * when it holds a piece of the side to move: an empty square an enemy slider sweeps is never attacked.
   */
  lemma FreshAttackOnlyOnOwnPieces(s: State, position: Vector)
    requires s.grid.Valid() && Fresh(s)
    ensures UnderAttack(s, position) ==> OwnedBy(s, position, s.currentPlayer)
  {
    if !UnderAttack(s, position) {
      return;
    }
    var from :| from in s.index && !OwnedBy(s, from, s.currentPlayer) && HasCaptureOn(s.index[from], position);
    var m :| m in s.index[from] && m.kind == Capture && m.dest == position;
    assert GetPiece(s, from).value.color == Opponent(s.currentPlayer);
  }

  /** Hence, over a fresh index, a king of the side to move is refused only squares off the board or holding its own colour. */
  lemma FreshIndexNeverBlocksKing(s: State, direction: Vector, position: Vector, piece: Piece)
    requires s.Valid() && Fresh(s) && piece.color == s.currentPlayer
    ensures KingMove(s, direction, position, piece).Some? <==>
      s.grid.IsOnBoard(position.Sum(direction)) && !OwnedBy(s, position.Sum(direction), piece.color)
  {
    KingMoveSpec(s, direction, position, piece);
    if UnderAttack(s, position.Sum(direction)) {
      FreshAttackOnlyOnOwnPieces(s, position.Sum(direction));
    }
  }

  /** Whatever the index says, a king never lists a step onto a square the index shows as attacked. */
  lemma KingNeverStepsOntoAttacked(s: State, position: Vector, piece: Piece, m: Move)
    requires s.Valid() && piece.kind == 'k'
    requires m in ByCondition(s, position, piece)
    ensures !UnderAttack(s, m.dest)
  {
    var conds := MoveConditions('k');
    ConditionMovesFromSomeCondition(s, position, piece, conds, m);
    var i :| 0 <= i < |conds| && ApplyCondition(conds[i], s, position, piece) == Some(m);
    if conds[i].KingMoveRule? {
      KingMoveSpec(s, conds[i].direction, position, piece);
    }
  }

  // ---------------------------------------------------------------- the index does not matter except to kings

  /** A ray reads the board and the orientation, never the index. */
  lemma {:induction false} WalkIgnoresIndex(s: State, idx: map<Vector, seq<Move>>, position: Vector, color: Color, ray: Ray, k: nat)
    requires s.Valid() && ray.direction != Zero && k >= 1 && s.grid.IsOnBoard(position)
    ensures Walk(s.(index := idx), position, color, ray, k) == Walk(s, position, color, ray, k)
    decreases s.grid.numRows + s.grid.numCols - k
  {
    var dest := RayDest(s, position, ray, k);
    if !(ray.maxSteps.Some? && k > ray.maxSteps.value) && s.grid.IsOnBoard(dest) && GetPiece(s, dest).None? {
      StepBound(s, position, ray, k);
      WalkIgnoresIndex(s, idx, position, color, ray, k + 1);
    }
  }

  lemma {:induction false} RayMovesIgnoreIndex(s: State, idx: map<Vector, seq<Move>>, position: Vector, color: Color, rays: seq<Ray>)
    requires s.Valid() && s.grid.IsOnBoard(position)
    requires forall i | 0 <= i < |rays| :: rays[i].direction != Zero
    ensures RayMoves(s.(index := idx), position, color, rays) == RayMoves(s, position, color, rays)
    decreases |rays|
  {
    if rays != [] {
      RayMovesIgnoreIndex(s, idx, position, color, rays[..|rays| - 1]);
      WalkIgnoresIndex(s, idx, position, color, rays[|rays| - 1], 1);
    }
  }

  lemma {:induction false} PawnConditionsIgnoreIndex(s: State, idx: map<Vector, seq<Move>>, position: Vector, piece: Piece, conds: seq<Condition>)
    requires s.Valid()
    requires forall i | 0 <= i < |conds| :: !conds[i].KingMoveRule?
    ensures ConditionMoves(s.(index := idx), position, piece, conds) == ConditionMoves(s, position, piece, conds)
    decreases |conds|
  {
    if conds != [] {
      PawnConditionsIgnoreIndex(s, idx, position, piece, conds[..|conds| - 1]);
    }
  }

  /** Only a king's moves depend on the legal-move index. */
  lemma NonKingMovesIgnoreIndex(s: State, idx: map<Vector, seq<Move>>, position: Vector)
    requires s.Valid()
    requires GetPiece(s, position).Some? ==> GetPiece(s, position).value.kind != 'k'
    ensures MovesOf(s.(index := idx), position) == MovesOf(s, position)
  {
    if GetPiece(s, position).Some? {
      var piece := GetPiece(s, position).value;
      assert GetPiece(s.(index := idx), position) == Some(piece);
      PawnConditionsIgnoreIndex(s, idx, position, piece, MoveConditions(piece.kind));
      RayMovesIgnoreIndex(s, idx, position, piece.color, MoveRays(piece.kind));
    }
  }

  /** Refreshing a list of squares gives every listed non-king piece its moves on the board as it stands. */
  lemma {:induction false} RebuildOverNonKing(s: State, ps: seq<Vector>, p: Vector)
    requires s.Valid() && p in ps && GetPiece(s, p).Some? && GetPiece(s, p).value.kind != 'k'
    ensures p in RebuildOver(s, ps).index && RebuildOver(s, ps).index[p] == MovesOf(s, p)
    decreases |ps|
  {
    var prefix := ps[..|ps| - 1];
    assert ps == prefix + [ps[|ps| - 1]];
    var t := RebuildOver(s, prefix);
    if ps[|ps| - 1] == p {
      assert s == t.(index := s.index);
      NonKingMovesIgnoreIndex(t, s.index, p);
    } else {
      RebuildOverNonKing(s, prefix, p);
    }
  }

  /** After `updateLegalMoves`, every non-king piece's entry is exactly its generated move list. */
  lemma RebuildNonKingEntry(s: State, p: Vector)
    requires s.Valid() && GetPiece(s, p).Some? && GetPiece(s, p).value.kind != 'k'
    ensures p in Rebuild(s).index && Rebuild(s).index[p] == MovesOf(s, p)
  {
    RowMajorCovers(s.grid.numRows, s.grid.numCols, p);
    RebuildOverNonKing(s, RowMajor(s.grid.numRows, s.grid.numCols), p);
  }

  /**
   * A pawn of the side to move whose one-step square reads empty, while that square or the one
   * beyond it is off the board, lists an off-board destination after a rebuild, so a click never
   * selects it: `highlightMoves` throws first. On a normal board this is a pawn on the far rank,
   * or on the rank before it with the square ahead empty.
   */
  lemma PawnNearFarEdgeNeverSelected(s: State, p: Vector)
    requires s.Valid() && GetPiece(s, p) == Some(Piece('p', s.currentPlayer))
    requires GetPiece(s, Ahead(s, p, 1)).None?
    requires !s.grid.IsOnBoard(Ahead(s, p, 1)) || !s.grid.IsOnBoard(Ahead(s, p, 2))
    ensures !Selectable(Rebuild(s), p)
  {
    var t, pawn, conds := Rebuild(s), Piece('p', s.currentPlayer), MoveConditions('p');
    RebuildNonKingEntry(s, p);
    assert t.grid == s.grid && t.index[p] == MovesOf(s, p);
    var i := if !s.grid.IsOnBoard(Ahead(s, p, 1)) then 0 else 1;
    assert ApplyCondition(conds[i], s, p, pawn) == Some(Move(Ahead(s, p, i + 1), Displace));
    ConditionMovesIncludes(s, p, pawn, conds, i);
    assert Move(Ahead(s, p, i + 1), Displace) in t.index[p];
  }

  /** The first square of a run that is not visited again keeps the entry it got first, computed against the index as it was. */
  lemma {:induction false} RebuildOverFirst(s: State, ps: seq<Vector>)
    requires s.Valid() && ps != [] && GetPiece(s, ps[0]).Some?
    requires forall j | 1 <= j < |ps| :: ps[j] != ps[0]
    ensures ps[0] in RebuildOver(s, ps).index && RebuildOver(s, ps).index[ps[0]] == MovesOf(s, ps[0])
    decreases |ps|
  {
    if |ps| > 1 {
      var init := ps[..|ps| - 1];
      assert init[0] == ps[0];
      RebuildOverFirst(s, init);
    }
  }

  /** In a rebuild, the corner (0,0) is refreshed first: its entry is its move list over the index as it stood before. */
  lemma RebuildFirstSquare(s: State)
    requires s.Valid() && GetPiece(s, Vector(0, 0)).Some?
    ensures Vector(0, 0) in Rebuild(s).index && Rebuild(s).index[Vector(0, 0)] == MovesOf(s, Vector(0, 0))
  {
    RowMajorFirst(s.grid.numRows, s.grid.numCols);
    RebuildOverFirst(s, RowMajor(s.grid.numRows, s.grid.numCols));
  }

  /** A second rebuild on a board without kings leaves each entry as the first rebuild set it. */
  lemma RebuildAgainSameEntry(s: State, k: Vector)
    requires s.Valid()
    requires forall p | GetPiece(s, p).Some? :: GetPiece(s, p).value.kind != 'k'
    requires k in Rebuild(s).index
    ensures k in Rebuild(Rebuild(s)).index && Rebuild(Rebuild(s)).index[k] == Rebuild(s).index[k]
  {
    var t := Rebuild(s);
    RebuildKeys(t);
    if GetPiece(s, k).Some? {
      assert t == s.(index := t.index);
      RebuildNonKingEntry(s, k);
      RebuildNonKingEntry(t, k);
      NonKingMovesIgnoreIndex(s, t.index, k);
    }
  }

  /** On a board without kings, rebuilding the index twice gives the same index as rebuilding once. */
  lemma RebuildIdempotentWithoutKings(s: State)
    requires s.Valid()
    requires forall p | GetPiece(s, p).Some? :: GetPiece(s, p).value.kind != 'k'
    ensures Rebuild(Rebuild(s)) == Rebuild(s)
  {
    var t := Rebuild(s);
    var u := Rebuild(t);
    RebuildKeys(s);
    RebuildKeys(t);
    forall k | GetPiece(t, k).Some?
      ensures k in t.index
    {
      assert GetPiece(t, k) == GetPiece(s, k);
    }
    assert u.index.Keys == t.index.Keys;
    forall k | k in t.index
      ensures u.index[k] == t.index[k]
    {
      RebuildAgainSameEntry(s, k);
    }
    assert u.index == t.index;
  }

  /** Starting from an empty index, as the game's constructor does, every refresh keeps the index fresh. */
  lemma {:induction false} RebuildOverFromEmptyIsFresh(s: State, ps: seq<Vector>)
    requires s.Valid() && s.index == map[]
    ensures Fresh(RebuildOver(s, ps))
    decreases |ps|
  {
    if ps != [] {
      var t := RebuildOver(s, ps[..|ps| - 1]);
      RebuildOverFromEmptyIsFresh(s, ps[..|ps| - 1]);
      var p := ps[|ps| - 1];
      if GetPiece(t, p).Some? {
        var u := Refresh(t, p);
        forall from | from in u.index
          ensures GetPiece(u, from).Some? &&
            forall m | m in u.index[from] && m.kind == Capture :: OwnedBy(u, m.dest, Opponent(GetPiece(u, from).value.color))
        {
          if from == p {
            forall m | m in u.index[from] && m.kind == Capture
              ensures OwnedBy(u, m.dest, Opponent(GetPiece(u, from).value.color))
            {
              CapturesLandOnOpponents(t, p, m);
            }
          }
        }
      }
    }
  }

  /** The initial index never refuses a king of the side to move anything but off-board or friendly squares. */
  lemma InitialIndexIsFresh(s: State)
    requires s.Valid() && s.index == map[]
    ensures Fresh(Rebuild(s))
  {
    RebuildOverFromEmptyIsFresh(s, RowMajor(s.grid.numRows, s.grid.numCols));
  }

  /** Each entry of an index rebuilt from empty is the piece's moves over some fresh index on the same board. */
  lemma {:induction false} RebuildOverEntryFromEmpty(s: State, ps: seq<Vector>, p: Vector)
    requires s.Valid() && s.index == map[] && p in ps && GetPiece(s, p).Some?
    ensures p in RebuildOver(s, ps).index
    ensures exists t: State :: t.Valid() && t == s.(index := t.index) && Fresh(t) && RebuildOver(s, ps).index[p] == MovesOf(t, p)
    decreases |ps|
  {
    var prefix := ps[..|ps| - 1];
    assert ps == prefix + [ps[|ps| - 1]];
    var t := RebuildOver(s, prefix);
    if ps[|ps| - 1] == p {
      RebuildOverFromEmptyIsFresh(s, prefix);
      assert t == s.(index := t.index);
    } else {
      RebuildOverEntryFromEmpty(s, prefix, p);
    }
  }

  /** The index the game starts with: each occupied square's entry is its moves over a fresh index. */
  lemma InitialEntry(s: State, p: Vector)
    requires s.Valid() && s.index == map[] && GetPiece(s, p).Some?
    ensures p in Rebuild(s).index
    ensures exists t: State :: t.Valid() && t == s.(index := t.index) && Fresh(t) && Rebuild(s).index[p] == MovesOf(t, p)
  {
    RowMajorCovers(s.grid.numRows, s.grid.numCols, p);
    RebuildOverEntryFromEmpty(s, RowMajor(s.grid.numRows, s.grid.numCols), p);
  }
}
