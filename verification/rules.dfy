/**
 * The move generator of script.js as pure functions over a snapshot of the game:
 * piece decoding, the attack query, the pawn and king condition rules, rays, the
 * direction tables, `legalMoves` and the row-major rebuild of the legal-move index.
 */
module Rules {
  import opened Wrappers
  import opened Geometry
  import opened Pieces
  import opened Boards

  datatype MoveKind = Displace | Capture

  /** A destination and its effect. */
  datatype Move = Move(dest: Vector, kind: MoveKind)

  /** What the generator reads of a game: the board, the side to move, the orientation and the index. */
  datatype State = State(grid: Grid, currentPlayer: Color, orient: int, index: map<Vector, seq<Move>>) {
    ghost predicate Valid() {
      grid.Valid() && (orient == 1 || orient == -1)
    }
  }

  // ---------------------------------------------------------------- board queries

  /** `Game.getPiece`: `None` off the board or on an empty cell, otherwise the decoded symbol. */
  function GetPiece(s: State, p: Vector): Option<Piece>
    requires s.grid.Valid()
  {
    if !s.grid.IsOnBoard(p) then None
    else match s.grid.GetPiece(p)
      case None => None
      case Some(ch) => Some(Decode(ch))
  }

  predicate OwnedBy(s: State, p: Vector, c: Color)
    requires s.grid.Valid()
  {
    GetPiece(s, p).Some? && GetPiece(s, p).value.color == c
  }

  // ---------------------------------------------------------------- attack query

  /** Some capture of `position` listed under a square not holding a piece of the side to move. */
  predicate UnderAttack(s: State, position: Vector)
    requires s.grid.Valid()
  {
    exists from | from in s.index ::
      !OwnedBy(s, from, s.currentPlayer) && HasCaptureOn(s.index[from], position)
  }

  predicate HasCaptureOn(moves: seq<Move>, position: Vector) {
    exists m | m in moves :: m.kind == Capture && m.dest == position
  }

  /** The destinations of a move list (`moves.map(move => move[0])`). */
  function Dests(moves: seq<Move>): (ds: seq<Vector>)
    ensures forall d :: d in ds <==> exists m | m in moves :: m.dest == d
  {
    var ds := seq(|moves|, i requires 0 <= i < |moves| => moves[i].dest);
    assert forall m | m in moves :: m.dest in ds by {
      forall m | m in moves ensures m.dest in ds {
        var i :| 0 <= i < |moves| && moves[i] == m;
        assert ds[i] == m.dest;
      }
    }
    ds
  }

  /** `isLegalDestination`: `to` is among the destinations listed for `from`. */
  predicate IsLegalDestination(s: State, from: Vector, to: Vector)
    requires from in s.index
    ensures IsLegalDestination(s, from, to) <==> exists m | m in s.index[from] :: m.dest == to
  {
    to in Dests(s.index[from])
  }

  /** Every destination listed for `from` is a square of the board, so `highlightMoves` finds a cell for each. */
  predicate DestsOnBoard(s: State, from: Vector)
    requires from in s.index
  {
    forall m | m in s.index[from] :: s.grid.IsOnBoard(m.dest)
  }

  /**
   * A click with nothing selected selects `p` when it holds a piece of the side to move and
   * highlighting its listed destinations does not throw (a destination without a cell does).
   */
  predicate Selectable(s: State, p: Vector)
    requires s.grid.Valid()
  {
    OwnedBy(s, p, s.currentPlayer) && p in s.index && DestsOnBoard(s, p)
  }

  // ---------------------------------------------------------------- direction table

  const Front := Vector(-1, 0)
  const Back := Vector(1, 0)
  const Left := Vector(0, -1)
  const Right := Vector(0, 1)

  // ---------------------------------------------------------------- condition rules

  /** The condition functions of the tables, one constructor each. */
  datatype Condition =
    | PawnFront1Rule
    | PawnFront2Rule
    | PawnCaptureRule(direction: Vector)
    | PawnEnpassantRule
    | PawnPromoteRule
    | KingMoveRule(direction: Vector)
    | KingCastleRule

  /** The square `steps` ahead of `position` in the mover's orientation. */
  function Ahead(s: State, position: Vector, steps: int): Vector {
    position.Sum(Front.Scaled(s.orient).Scaled(steps))
  }

  /** A displacement `steps` ahead when that square reads as empty; the square is not checked to be on the board. */
  function PawnFront(s: State, position: Vector, steps: int): Option<Move>
    requires s.grid.Valid()
  {
    var dest := Ahead(s, position, steps);
    if GetPiece(s, dest).None? then Some(Move(dest, Displace)) else None
  }

  function PawnFront1(s: State, position: Vector): Option<Move>
    requires s.grid.Valid()
  {
    PawnFront(s, position, 1)
  }

  /** Move history is not tracked: every piece counts as never having moved. */
  function NumMovesMadeByPiece(s: State, position: Vector): nat {
    0
  }

  predicate IsUnmovedPiece(s: State, position: Vector) {
    NumMovesMadeByPiece(s, position) == 0
  }

  function PawnFront2(s: State, position: Vector): Option<Move>
    requires s.grid.Valid()
  {
    if PawnFront1(s, position).None? || !IsUnmovedPiece(s, position) then None
    else PawnFront(s, position, 2)
  }

  /** The square one step sideways (`direction`) and one step ahead, both in the mover's orientation. */
  function CaptureSquare(s: State, direction: Vector, position: Vector): Vector {
    position.Sum(direction.Scaled(s.orient)).Sum(Front.Scaled(s.orient))
  }

  function PawnCapture(s: State, direction: Vector, position: Vector, piece: Piece): Option<Move>
    requires s.grid.Valid()
  {
    var dest := CaptureSquare(s, direction, position);
    var p := GetPiece(s, dest);
    if p.Some? && p.value.color != piece.color then Some(Move(dest, Capture)) else None
  }

  /** One king step; the direction is not scaled by the orientation. */
  function KingMove(s: State, direction: Vector, position: Vector, piece: Piece): Option<Move>
    requires s.grid.Valid()
  {
    var dest := position.Sum(direction);
    if !s.grid.IsOnBoard(dest) then None
    else
      var p := GetPiece(s, dest);
      if (p.Some? && p.value.color == piece.color) || UnderAttack(s, dest) then None
      else Some(Move(dest, if p.Some? then Capture else Displace))
  }

  /** Evaluates one entry of the condition table; en passant, promotion and castling are hooks with no move. */
  function ApplyCondition(cond: Condition, s: State, position: Vector, piece: Piece): Option<Move>
    requires s.grid.Valid()
  {
    match cond
    case PawnFront1Rule => PawnFront1(s, position)
    case PawnFront2Rule => PawnFront2(s, position)
    case PawnCaptureRule(direction) => PawnCapture(s, direction, position, piece)
    case PawnEnpassantRule => None
    case PawnPromoteRule => None
    case KingMoveRule(direction) => KingMove(s, direction, position, piece)
    case KingCastleRule => None
  }

  /** `moveConditions.get(type) || []`. */
  function MoveConditions(kind: char): seq<Condition> {
    if kind == 'k' then
      [KingMoveRule(Left), KingMoveRule(Right),
       KingMoveRule(Front), KingMoveRule(Back),
       KingMoveRule(Front.Sum(Left)), KingMoveRule(Front.Sum(Right)),
       KingMoveRule(Back.Sum(Left)), KingMoveRule(Back.Sum(Right)),
       KingCastleRule]
    else if kind == 'p' then
      [PawnFront1Rule, PawnFront2Rule,
       PawnCaptureRule(Left), PawnCaptureRule(Right),
       PawnEnpassantRule,
       PawnPromoteRule]
    else []
  }

  /** The moves the conditions yield, in table order (built last-first, as `push` appends). */
  function ConditionMoves(s: State, position: Vector, piece: Piece, conds: seq<Condition>): seq<Move>
    requires s.grid.Valid()
  {
    if conds == [] then []
    else
      var m := ApplyCondition(conds[|conds| - 1], s, position, piece);
      ConditionMoves(s, position, piece, conds[..|conds| - 1]) + (if m.Some? then [m.value] else [])
  }

  function ByCondition(s: State, position: Vector, piece: Piece): seq<Move>
    requires s.grid.Valid()
  {
    ConditionMoves(s, position, piece, MoveConditions(piece.kind))
  }

  // ---------------------------------------------------------------- rays

  /** `ray(direction, maxSteps)`; `None` stands for an unbounded number of steps. */
  datatype Ray = Ray(direction: Vector, maxSteps: Option<nat>)

  const Zero := Vector(0, 0)

  function RookRays(): seq<Ray> {
    [Ray(Front, None), Ray(Back, None), Ray(Left, None), Ray(Right, None)]
  }

  function BishopRays(): seq<Ray> {
    [Ray(Front.Sum(Left), None), Ray(Front.Sum(Right), None),
     Ray(Back.Sum(Left), None), Ray(Back.Sum(Right), None)]
  }

  function KnightRays(): seq<Ray> {
    [Ray(Front.Scaled(2).Sum(Left), Some(1)), Ray(Front.Scaled(2).Sum(Right), Some(1)),
     Ray(Back.Scaled(2).Sum(Left), Some(1)), Ray(Back.Scaled(2).Sum(Right), Some(1)),
     Ray(Left.Scaled(2).Sum(Front), Some(1)), Ray(Left.Scaled(2).Sum(Back), Some(1)),
     Ray(Right.Scaled(2).Sum(Front), Some(1)), Ray(Right.Scaled(2).Sum(Back), Some(1))]
  }

  /** `moveRays.get(type) || []`; the queen's rays are the rook's followed by the bishop's. */
  function MoveRays(kind: char): (rays: seq<Ray>)
    ensures forall i | 0 <= i < |rays| :: rays[i].direction != Zero
  {
    if kind == 'r' then RookRays()
    else if kind == 'b' then BishopRays()
    else if kind == 'n' then KnightRays()
    else if kind == 'q' then RookRays() + BishopRays()
    else []
  }

  /** The square a ray reaches at `step`: position + direction * orient * step. */
  function RayDest(s: State, position: Vector, ray: Ray, step: int): Vector {
    position.Sum(ray.direction.Scaled(s.orient).Scaled(step))
  }

  /** A displacement of `a * k` between two coordinates in [0, n) bounds `k` when `a` is non-zero. */
  lemma ProductBound(a: int, k: int, lo: int, hi: int, n: int)
    requires a != 0 && k >= 1 && 0 <= lo < n && 0 <= hi < n && hi - lo == a * k
    ensures k < n
  {
    if a > 0 {
      assert a * k == k + (a - 1) * k;
    } else {
      assert -(a * k) == k + (-a - 1) * k;
    }
  }

  /** A non-zero direction, mirrored or not, reaches the edge in fewer than numRows + numCols steps. */
  lemma StepBound(s: State, position: Vector, ray: Ray, step: int)
    requires s.Valid() && ray.direction != Zero && step >= 1
    requires s.grid.IsOnBoard(position) && s.grid.IsOnBoard(RayDest(s, position, ray, step))
    ensures step < s.grid.numRows + s.grid.numCols
  {
    var d := ray.direction.Scaled(s.orient);
    var dest := RayDest(s, position, ray, step);
    assert d.r != 0 || d.c != 0;
    if d.r != 0 {
      ProductBound(d.r, step, position.r, dest.r, s.grid.numRows);
    } else {
      ProductBound(d.c, step, position.c, dest.c, s.grid.numCols);
    }
  }

  /**
   * The inner loop of `legalMovesByRay` for one ray from `step` on: stop off the board or past
   * `maxSteps`; an empty square is a displacement and the walk goes on; the first occupied
   * square is a capture when it holds the other colour than `color`, and ends the walk either way.
   */
  function Walk(s: State, position: Vector, color: Color, ray: Ray, step: nat): seq<Move>
    requires s.Valid() && ray.direction != Zero && step >= 1 && s.grid.IsOnBoard(position)
    decreases s.grid.numRows + s.grid.numCols - step
  {
    if ray.maxSteps.Some? && step > ray.maxSteps.value then []
    else
      var dest := RayDest(s, position, ray, step);
      if !s.grid.IsOnBoard(dest) then []
      else match GetPiece(s, dest)
        case Some(q) => if color != q.color then [Move(dest, Capture)] else []
        case None =>
          StepBound(s, position, ray, step);
          [Move(dest, Displace)] + Walk(s, position, color, ray, step + 1)
  }

  /** The walks of the rays, in table order (built last-first, as `push` appends). */
  function RayMoves(s: State, position: Vector, color: Color, rays: seq<Ray>): seq<Move>
    requires s.Valid() && s.grid.IsOnBoard(position)
    requires forall i | 0 <= i < |rays| :: rays[i].direction != Zero
  {
    if rays == [] then []
    else RayMoves(s, position, color, rays[..|rays| - 1]) + Walk(s, position, color, rays[|rays| - 1], 1)
  }

  function ByRay(s: State, position: Vector, piece: Piece): seq<Move>
    requires s.Valid() && s.grid.IsOnBoard(position)
  {
    RayMoves(s, position, piece.color, MoveRays(piece.kind))
  }

  // ---------------------------------------------------------------- legalMoves

  /** Nothing for an empty square, otherwise the condition moves followed by the ray moves. */
  function MovesOf(s: State, position: Vector): seq<Move>
    requires s.Valid()
  {
    match GetPiece(s, position)
    case None => []
    case Some(piece) => ByCondition(s, position, piece) + ByRay(s, position, piece)
  }

  // ---------------------------------------------------------------- index rebuild

  /** One iteration of `updateLegalMoves`: an occupied square's entry is (re)set, computed against the index as it is now. */
  function Refresh(s: State, p: Vector): (t: State)
    requires s.Valid()
    ensures t.Valid() && t.grid == s.grid && t.currentPlayer == s.currentPlayer && t.orient == s.orient
  {
    if GetPiece(s, p).Some? then s.(index := s.index[p := MovesOf(s, p)]) else s
  }

  /** Refreshing the squares of `ps` in order. */
  function RebuildOver(s: State, ps: seq<Vector>): (t: State)
    requires s.Valid()
    ensures t.Valid() && t.grid == s.grid && t.currentPlayer == s.currentPlayer && t.orient == s.orient
  {
    if ps == [] then s else Refresh(RebuildOver(s, ps[..|ps| - 1]), ps[|ps| - 1])
  }

  /** `updateLegalMoves`: refresh every square in row-major order; the map is never cleared. */
  function Rebuild(s: State): State
    requires s.Valid()
  {
    RebuildOver(s, RowMajor(s.grid.numRows, s.grid.numCols))
  }
}
