/**
 * The position as a value: a sequence of piece records in the board's list
 * order, and the pure definitions the board's methods are proved against.
 * Pseudo-legal vision per piece type, the mutate-and-restore simulations as a
 * function returning the simulated position, check and checkmate after a
 * move, material and space.
 */
module Position {
  import opened ChessTypes
  import opened Coordinates
  import opened Moves

  /** A piece's placement: everything but its cached move list. */
  datatype PieceState = PieceState(pieceType: PieceType, pieceColor: PieceColor,
                                   file: char, rank: char, moveCounter: nat)

  /** One entry of a piece's vision: a square and whether it is a capture. */
  datatype Sight = Sight(file: char, rank: char, takes: bool)

  predicate OnBoard(p: PieceState) { IsSquare(p.file, p.rank) }

  predicate AllOnBoard(pos: seq<PieceState>) { forall i :: 0 <= i < |pos| ==> OnBoard(pos[i]) }

  /** The source's piece equality: type, colour, file and rank (not the counter). */
  predicate SamePiece(a: PieceState, b: PieceState)
  {
    a.pieceType == b.pieceType && a.pieceColor == b.pieceColor && a.file == b.file && a.rank == b.rank
  }

  predicate At(p: PieceState, f: char, r: char) { p.file == f && p.rank == r }

  /** isOccupied */
  predicate Occupied(pos: seq<PieceState>, f: char, r: char)
  {
    exists i :: 0 <= i < |pos| && At(pos[i], f, r)
  }

  /** isOccupiedByEnemyPiece */
  predicate OccupiedBy(pos: seq<PieceState>, f: char, r: char, color: PieceColor)
  {
    exists i :: 0 <= i < |pos| && At(pos[i], f, r) && pos[i].pieceColor == color
  }

  /** The first index at or after `from` whose piece stands on (f, r). */
  function PieceAtFrom(pos: seq<PieceState>, f: char, r: char, from: nat): (o: Option<nat>)
    requires from <= |pos|
    decreases |pos| - from
    ensures o.None? <==> forall i :: from <= i < |pos| ==> !At(pos[i], f, r)
    ensures o.Some? ==> from <= o.value < |pos| && At(pos[o.value], f, r) &&
                        forall i :: from <= i < o.value ==> !At(pos[i], f, r)
  {
    if from == |pos| then None
    else if At(pos[from], f, r) then Some(from)
    else PieceAtFrom(pos, f, r, from + 1)
  }

  /** getPieceAtPosition: the first piece in list order standing on (f, r). */
  function PieceAt(pos: seq<PieceState>, f: char, r: char): (o: Option<nat>)
    ensures o.None? <==> !Occupied(pos, f, r)
    ensures o.Some? ==> o.value < |pos| && At(pos[o.value], f, r) &&
                        forall i :: 0 <= i < o.value ==> !At(pos[i], f, r)
  {
    PieceAtFrom(pos, f, r, 0)
  }

  /** The square of a board cell given in matrix coordinates. */
  function Cell(row: int, col: int): (sq: (char, char))
    requires 0 <= row < 8 && 0 <= col < 8
    ensures IsSquare(sq.0, sq.1)
  {
    (('a' as int + col) as char, ('8' as int - row) as char)
  }

  /** On the board, Cell is the coordinate translator's chessNotationCoordinates. */
  lemma CellIsNotation(row: int, col: int)
    requires 0 <= row < 8 && 0 <= col < 8
    ensures Cell(row, col) == ChessNotationCoordinates(row, col)
  {
    assert FileNames[col] == ('a' as int + col) as char;
    assert RankNames[7 - row] == ('8' as int - row) as char;
  }

  predicate InBounds(row: int, col: int) { 0 <= row < 8 && 0 <= col < 8 }

  predicate SightsOnBoard(v: seq<Sight>) { forall j :: 0 <= j < |v| ==> IsSquare(v[j].file, v[j].rank) }

  /**
   * A knight or king step: an empty square is a move, a square whose first
   * piece is an enemy a capture, a square of a friendly piece nothing.
   */
  function StepSight(pos: seq<PieceState>, row: int, col: int, enemy: PieceColor): (v: seq<Sight>)
    ensures |v| <= 1
  {
    if !InBounds(row, col) then []
    else
      var sq := Cell(row, col);
      match PieceAt(pos, sq.0, sq.1)
      case None => [Sight(sq.0, sq.1, false)]
      case Some(i) => if pos[i].pieceColor == enemy then [Sight(sq.0, sq.1, true)] else []
  }

  /** The steps to each offset from (row, col), in the order of the offsets. */
  function Steps(pos: seq<PieceState>, row: int, col: int, offsets: seq<(int, int)>, enemy: PieceColor): (v: seq<Sight>)
  {
    if offsets == [] then []
    else StepSight(pos, row + offsets[0].0, col + offsets[0].1, enemy) + Steps(pos, row, col, offsets[1..], enemy)
  }

  /** The number of cells a sliding loop visits: i = 1 .. 7. */
  const RayLength: nat := 7

  /**
   * One sliding ray through (row, col) and the next n - 1 cells in direction
   * (dr, dc): cells off the board are skipped, empty squares are included, and
   * the first occupied square ends the ray, included as a capture only when
   * its first piece is an enemy.
   */
  function Ray(pos: seq<PieceState>, row: int, col: int, dr: int, dc: int, n: nat, enemy: PieceColor): (v: seq<Sight>)
    decreases n
  {
    if n == 0 then []
    else if !InBounds(row, col) then Ray(pos, row + dr, col + dc, dr, dc, n - 1, enemy)
    else
      var (stop, s) := RayCell(pos, row, col, enemy);
      if stop then s else s + Ray(pos, row + dr, col + dc, dr, dc, n - 1, enemy)
  }

  /**
   * One cell of a sliding ray: whether it ends the ray, and what it adds: an
   * empty square, a capture of an enemy, or nothing for a friendly piece.
   */
  function RayCell(pos: seq<PieceState>, row: int, col: int, enemy: PieceColor): (cell: (bool, seq<Sight>))
    requires InBounds(row, col)
    ensures cell.0 <==> Occupied(pos, Cell(row, col).0, Cell(row, col).1)
    ensures |cell.1| <= 1
  {
    var sq := Cell(row, col);
    match PieceAt(pos, sq.0, sq.1)
    case None => (false, [Sight(sq.0, sq.1, false)])
    case Some(j) => (true, if pos[j].pieceColor == enemy then [Sight(sq.0, sq.1, true)] else [])
  }

  /** The rays in the given directions, one after another. */
  function Rays(pos: seq<PieceState>, row: int, col: int, dirs: seq<(int, int)>, len: nat, enemy: PieceColor): (v: seq<Sight>)
  {
    if dirs == [] then []
    else Ray(pos, row + dirs[0].0, col + dirs[0].1, dirs[0].0, dirs[0].1, len, enemy) + Rays(pos, row, col, dirs[1..], len, enemy)
  }

  /** The steps to the first d offsets. */
  function StepsUpTo(pos: seq<PieceState>, row: int, col: int, offsets: seq<(int, int)>, d: nat, enemy: PieceColor): seq<Sight>
    requires d <= |offsets|
  {
    if d == 0 then []
    else StepsUpTo(pos, row, col, offsets, d - 1, enemy) + StepSight(pos, row + offsets[d - 1].0, col + offsets[d - 1].1, enemy)
  }

  lemma {:induction false} StepsUpToSplit(pos: seq<PieceState>, row: int, col: int, offsets: seq<(int, int)>, d: nat, enemy: PieceColor)
    requires d <= |offsets|
    ensures Steps(pos, row, col, offsets, enemy) == StepsUpTo(pos, row, col, offsets, d, enemy) + Steps(pos, row, col, offsets[d..], enemy)
  {
    if d > 0 {
      StepsUpToSplit(pos, row, col, offsets, d - 1, enemy);
      assert offsets[d - 1..][1..] == offsets[d..];
    }
  }

  /** Appending the steps offset by offset gives the steps. */
  lemma StepsUpToAll(pos: seq<PieceState>, row: int, col: int, offsets: seq<(int, int)>, enemy: PieceColor)
    ensures Steps(pos, row, col, offsets, enemy) == StepsUpTo(pos, row, col, offsets, |offsets|, enemy)
  {
    StepsUpToSplit(pos, row, col, offsets, |offsets|, enemy);
  }

  /** Every step lands on the board. */
  lemma {:induction false} StepsOnBoard(pos: seq<PieceState>, row: int, col: int, offsets: seq<(int, int)>, enemy: PieceColor)
    ensures SightsOnBoard(Steps(pos, row, col, offsets, enemy))
  {
    if offsets != [] {
      StepsOnBoard(pos, row, col, offsets[1..], enemy);
    }
  }

  /** Every square of a ray lies on the board. */
  lemma {:induction false} RayOnBoard(pos: seq<PieceState>, row: int, col: int, dr: int, dc: int, n: nat, enemy: PieceColor)
    decreases n
    ensures SightsOnBoard(Ray(pos, row, col, dr, dc, n, enemy))
  {
    if n > 0 {
      RayOnBoard(pos, row + dr, col + dc, dr, dc, n - 1, enemy);
    }
  }

  lemma {:induction false} RaysOnBoard(pos: seq<PieceState>, row: int, col: int, dirs: seq<(int, int)>, len: nat, enemy: PieceColor)
    ensures SightsOnBoard(Rays(pos, row, col, dirs, len, enemy))
  {
    if dirs != [] {
      RayOnBoard(pos, row + dirs[0].0, col + dirs[0].1, dirs[0].0, dirs[0].1, len, enemy);
      RaysOnBoard(pos, row, col, dirs[1..], len, enemy);
    }
  }

  /** The cells of a ray that lie on the board, nearest first: what the sliding loop visits when nothing is in the way. */
  function RayCells(row: int, col: int, dr: int, dc: int, n: nat): seq<(char, char)>
    decreases n
  {
    if n == 0 then []
    else (if InBounds(row, col) then [Cell(row, col)] else []) + RayCells(row + dr, col + dc, dr, dc, n - 1)
  }

  /** The first piece on (f, r), as getPieceAtPosition finds it, is of colour c. */
  predicate FirstPieceIs(pos: seq<PieceState>, f: char, r: char, c: PieceColor)
  {
    var o := PieceAt(pos, f, r);
    o.Some? && pos[o.value].pieceColor == c
  }

  /**
   * What a sliding loop promises about the squares v it emits along cells:
   * they are the first |v| cells, every square but the last is empty, a
   * square is a capture exactly when it is occupied, and then by an enemy
   * first; and the ray ends early only at a capture or in front of a square
   * whose first piece is not an enemy.
   */
  predicate RayShaped(pos: seq<PieceState>, v: seq<Sight>, cells: seq<(char, char)>, enemy: PieceColor)
  {
    |v| <= |cells| &&
    (forall j :: 0 <= j < |v| ==> (v[j].file, v[j].rank) == cells[j]) &&
    (forall j :: 0 <= j < |v| - 1 ==> !Occupied(pos, v[j].file, v[j].rank)) &&
    (forall j :: 0 <= j < |v| ==> (v[j].takes <==> Occupied(pos, v[j].file, v[j].rank))) &&
    (forall j :: 0 <= j < |v| ==> v[j].takes ==> FirstPieceIs(pos, v[j].file, v[j].rank, enemy)) &&
    (|v| < |cells| ==>
       (|v| > 0 && v[|v| - 1].takes) ||
       (Occupied(pos, cells[|v|].0, cells[|v|].1) && !FirstPieceIs(pos, cells[|v|].0, cells[|v|].1, enemy)))
  }

  /** An empty square in front of a shaped ray gives a shaped ray one cell longer. */
  lemma RayShapedCons(pos: seq<PieceState>, sq: (char, char), w: seq<Sight>, rest: seq<(char, char)>, enemy: PieceColor)
    requires !Occupied(pos, sq.0, sq.1) && RayShaped(pos, w, rest, enemy)
    ensures RayShaped(pos, [Sight(sq.0, sq.1, false)] + w, [sq] + rest, enemy)
  {
    var v := [Sight(sq.0, sq.1, false)] + w;
    var cells := [sq] + rest;
    assert forall j :: 1 <= j < |v| ==> v[j] == w[j - 1] && cells[j] == rest[j - 1];
  }

  /** An occupied square ends the ray: it is kept, as a capture, only when its first piece is an enemy. */
  lemma RayShapedStop(pos: seq<PieceState>, row: int, col: int, rest: seq<(char, char)>, enemy: PieceColor)
    requires InBounds(row, col) && Occupied(pos, Cell(row, col).0, Cell(row, col).1)
    ensures RayShaped(pos, RayCell(pos, row, col, enemy).1, [Cell(row, col)] + rest, enemy)
  {
  }

  /** A ray is shaped along its cells. */
  lemma {:induction false} RayIsShaped(pos: seq<PieceState>, row: int, col: int, dr: int, dc: int, n: nat, enemy: PieceColor)
    decreases n
    ensures RayShaped(pos, Ray(pos, row, col, dr, dc, n, enemy), RayCells(row, col, dr, dc, n), enemy)
  {
    if n > 0 {
      var rest := RayCells(row + dr, col + dc, dr, dc, n - 1);
      var w := Ray(pos, row + dr, col + dc, dr, dc, n - 1, enemy);
      RayIsShaped(pos, row + dr, col + dc, dr, dc, n - 1, enemy);
      if InBounds(row, col) {
        var sq := Cell(row, col);
        assert RayCells(row, col, dr, dc, n) == [sq] + rest;
        if Occupied(pos, sq.0, sq.1) {
          assert Ray(pos, row, col, dr, dc, n, enemy) == RayCell(pos, row, col, enemy).1;
          RayShapedStop(pos, row, col, rest, enemy);
        } else {
          assert Ray(pos, row, col, dr, dc, n, enemy) == [Sight(sq.0, sq.1, false)] + w;
          RayShapedCons(pos, sq, w, rest, enemy);
        }
      } else {
        assert Ray(pos, row, col, dr, dc, n, enemy) == w && RayCells(row, col, dr, dc, n) == rest;
      }
    }
  }

  const BishopDirections: seq<(int, int)> := [(-1, 1), (1, -1), (1, 1), (-1, -1)]
  const RookDirections: seq<(int, int)> := [(0, 1), (0, -1), (1, 0), (-1, 0)]
  const KnightOffsets: seq<(int, int)> := [(-2, -1), (-2, 1), (2, -1), (2, 1), (-1, -2), (1, -2), (-1, 2), (1, 2)]
  const KingOffsets: seq<(int, int)> := [(-1, -1), (-1, 0), (-1, 1), (0, -1), (0, 1), (1, -1), (1, 0), (1, 1)]

  /** A pawn push to (row, col): the square, when it is on the board and empty. */
  function PushSight(pos: seq<PieceState>, row: int, col: int): (v: seq<Sight>)
    ensures |v| <= 1 && SightsOnBoard(v)
  {
    if InBounds(row, col) && !Occupied(pos, Cell(row, col).0, Cell(row, col).1)
    then [Sight(Cell(row, col).0, Cell(row, col).1, false)] else []
  }

  /** A pawn capture on (row, col): the square, when an enemy piece stands there. */
  function CaptureSight(pos: seq<PieceState>, row: int, col: int, enemy: PieceColor): (v: seq<Sight>)
    ensures |v| <= 1 && SightsOnBoard(v)
  {
    if InBounds(row, col) && OccupiedBy(pos, Cell(row, col).0, Cell(row, col).1, enemy)
    then [Sight(Cell(row, col).0, Cell(row, col).1, true)] else []
  }

  /**
   * A pawn's pushes and captures; `dir` is -1 for white (towards row 0) and
   * +1 for black. The double push looks only at its landing square. No en
   * passant square is ever produced: the engine looks the neighbouring pawn
   * up by matrix indices where getPieceAtPosition compares square names, so
   * the lookup never finds a piece.
   */
  function PawnSights(pos: seq<PieceState>, row: int, col: int, moveCounter: nat, dir: int, enemy: PieceColor): (v: seq<Sight>)
    requires InBounds(row, col) && (dir == -1 || dir == 1)
    ensures SightsOnBoard(v)
  {
    var push := PushSight(pos, row + dir, col);
    var double := if moveCounter == 0 then PushSight(pos, row + 2 * dir, col) else [];
    var left := CaptureSight(pos, row + dir, col - 1, enemy);
    var right := CaptureSight(pos, row + dir, col + 1, enemy);
    ConcatOnBoard(push, double);
    ConcatOnBoard(push + double, left);
    ConcatOnBoard(push + double + left, right);
    push + double + left + right
  }

  lemma ConcatOnBoard(a: seq<Sight>, b: seq<Sight>)
    requires SightsOnBoard(a) && SightsOnBoard(b)
    ensures SightsOnBoard(a + b)
  {
    forall j | 0 <= j < |a + b|
      ensures IsSquare((a + b)[j].file, (a + b)[j].rank)
    {
      if j >= |a| {
        assert (a + b)[j] == b[j - |a|];
      }
    }
  }

  /** The condition under which a king sees the castling square on the h-side. */
  predicate ShortCastleOpen(pos: seq<PieceState>, rank: char, moveCounter: nat, color: PieceColor)
  {
    var rook := PieceAt(pos, 'h', rank);
    rook.Some? && pos[rook.value].pieceColor == color && pos[rook.value].moveCounter == 0 &&
    moveCounter == 0 && !Occupied(pos, 'f', rank) && !Occupied(pos, 'g', rank)
  }

  /** The condition under which a king sees the castling square on the a-side. */
  predicate LongCastleOpen(pos: seq<PieceState>, rank: char, moveCounter: nat, color: PieceColor)
  {
    var rook := PieceAt(pos, 'a', rank);
    rook.Some? && pos[rook.value].pieceColor == color && pos[rook.value].moveCounter == 0 &&
    moveCounter == 0 && !Occupied(pos, 'b', rank) && !Occupied(pos, 'c', rank) && !Occupied(pos, 'd', rank)
  }

  /** The castling pseudo-squares g and c on the king's own rank. */
  function CastleSights(pos: seq<PieceState>, rank: char, moveCounter: nat, color: PieceColor): (v: seq<Sight>)
    requires IsRank(rank)
    ensures SightsOnBoard(v) && |v| <= 2
    ensures Sight('g', rank, false) in v <==> ShortCastleOpen(pos, rank, moveCounter, color)
    ensures Sight('c', rank, false) in v <==> LongCastleOpen(pos, rank, moveCounter, color)
    ensures forall s :: s in v ==> s.rank == rank && !s.takes && (s.file == 'g' || s.file == 'c')
  {
    (if ShortCastleOpen(pos, rank, moveCounter, color) then [Sight('g', rank, false)] else []) +
    (if LongCastleOpen(pos, rank, moveCounter, color) then [Sight('c', rank, false)] else [])
  }

  /** getPieceBoardVision: the pseudo-legal squares of a piece of the given type on (f, r). */
  function Vision(pos: seq<PieceState>, t: PieceType, f: char, r: char, moveCounter: nat, color: PieceColor): (v: seq<Sight>)
    requires IsSquare(f, r)
    ensures SightsOnBoard(v)
  {
    var rc := MatrixCoordinates(f, r);
    var enemy := Enemy(color);
    match t
    case Pawn => PawnSights(pos, rc.0, rc.1, moveCounter, if color == White then -1 else 1, enemy)
    case Bishop => RaysOnBoard(pos, rc.0, rc.1, BishopDirections, RayLength, enemy); Rays(pos, rc.0, rc.1, BishopDirections, RayLength, enemy)
    case Rook => RaysOnBoard(pos, rc.0, rc.1, RookDirections, RayLength, enemy); Rays(pos, rc.0, rc.1, RookDirections, RayLength, enemy)
    case Queen =>
      RaysOnBoard(pos, rc.0, rc.1, BishopDirections + RookDirections, RayLength, enemy);
      Rays(pos, rc.0, rc.1, BishopDirections + RookDirections, RayLength, enemy)
    case Knight => StepsOnBoard(pos, rc.0, rc.1, KnightOffsets, enemy); Steps(pos, rc.0, rc.1, KnightOffsets, enemy)
    case King =>
      StepsOnBoard(pos, rc.0, rc.1, KingOffsets, enemy);
      ConcatOnBoard(Steps(pos, rc.0, rc.1, KingOffsets, enemy), CastleSights(pos, r, moveCounter, color));
      Steps(pos, rc.0, rc.1, KingOffsets, enemy) + CastleSights(pos, r, moveCounter, color)
  }
  /** The directions a bishop, rook or queen slides in, in the order of the source's loops. */
  function SlideDirections(t: PieceType): seq<(int, int)>
  {
    match t
    case Bishop => BishopDirections
    case Rook => RookDirections
    case Queen => BishopDirections + RookDirections
    case _ => []
  }

  /** The sights of several rays, one after another. */
  function Flatten(vs: seq<seq<Sight>>): seq<Sight>
  {
    if vs == [] then [] else vs[0] + Flatten(vs[1..])
  }

  /** The ray from (row, col) in each direction, one per direction. */
  function RaysFrom(pos: seq<PieceState>, row: int, col: int, dirs: seq<(int, int)>, len: nat, enemy: PieceColor)
    : (rays: seq<seq<Sight>>)
    ensures |rays| == |dirs|
  {
    seq(|dirs|, d requires 0 <= d < |dirs| => Ray(pos, row + dirs[d].0, col + dirs[d].1, dirs[d].0, dirs[d].1, len, enemy))
  }

  lemma {:induction false} RaysFlattened(pos: seq<PieceState>, row: int, col: int, dirs: seq<(int, int)>, len: nat, enemy: PieceColor)
    ensures Rays(pos, row, col, dirs, len, enemy) == Flatten(RaysFrom(pos, row, col, dirs, len, enemy))
  {
    if dirs != [] {
      RaysFlattened(pos, row, col, dirs[1..], len, enemy);
      assert RaysFrom(pos, row, col, dirs, len, enemy)[1..] == RaysFrom(pos, row, col, dirs[1..], len, enemy);
    }
  }

  /** Each ray from (row, col) is shaped along the board cells of its direction. */
  lemma RaysFromShaped(pos: seq<PieceState>, row: int, col: int, dirs: seq<(int, int)>, len: nat, enemy: PieceColor)
    ensures var rays := RaysFrom(pos, row, col, dirs, len, enemy);
            forall d :: 0 <= d < |dirs| ==>
              RayShaped(pos, rays[d], RayCells(row + dirs[d].0, col + dirs[d].1, dirs[d].0, dirs[d].1, len), enemy)
  {
    forall d | 0 <= d < |dirs|
      ensures RayShaped(pos, RaysFrom(pos, row, col, dirs, len, enemy)[d],
                        RayCells(row + dirs[d].0, col + dirs[d].1, dirs[d].0, dirs[d].1, len), enemy)
    {
      RayIsShaped(pos, row + dirs[d].0, col + dirs[d].1, dirs[d].0, dirs[d].1, len, enemy);
    }
  }

  /** The vision of a bishop, rook or queen is the rays in its directions. */
  lemma VisionSlides(pos: seq<PieceState>, t: PieceType, f: char, r: char, moveCounter: nat, color: PieceColor)
    requires IsSquare(f, r) && (t == Bishop || t == Rook || t == Queen)
    ensures var rc := MatrixCoordinates(f, r);
            Vision(pos, t, f, r, moveCounter, color) == Rays(pos, rc.0, rc.1, SlideDirections(t), RayLength, Enemy(color))
  {
  }

  /**
   * The vision of a bishop, rook or queen is its rays, one per direction,
   * each shaped along the board cells in its direction: empty squares up to
   * the first occupied one, which is kept as a capture exactly when its
   * first piece is an enemy.
   */
  lemma SlidingVision(pos: seq<PieceState>, t: PieceType, f: char, r: char, moveCounter: nat, color: PieceColor)
    requires IsSquare(f, r) && (t == Bishop || t == Rook || t == Queen)
    ensures var rc := MatrixCoordinates(f, r);
            var dirs := SlideDirections(t);
            var rays := RaysFrom(pos, rc.0, rc.1, dirs, RayLength, Enemy(color));
            Vision(pos, t, f, r, moveCounter, color) == Flatten(rays) &&
            forall d :: 0 <= d < |dirs| ==>
              RayShaped(pos, rays[d], RayCells(rc.0 + dirs[d].0, rc.1 + dirs[d].1, dirs[d].0, dirs[d].1, RayLength), Enemy(color))
  {
    var rc := MatrixCoordinates(f, r);
    VisionSlides(pos, t, f, r, moveCounter, color);
    RaysFlattened(pos, rc.0, rc.1, SlideDirections(t), RayLength, Enemy(color));
    RaysFromShaped(pos, rc.0, rc.1, SlideDirections(t), RayLength, Enemy(color));
  }



  /** The vision of the piece at index i of the position. */
  function PieceVision(pos: seq<PieceState>, i: nat): seq<Sight>
    requires i < |pos| && OnBoard(pos[i])
  {
    Vision(pos, pos[i].pieceType, pos[i].file, pos[i].rank, pos[i].moveCounter, pos[i].pieceColor)
  }

  predicate SightIs(s: Sight, f: char, r: char) { s.file == f && s.rank == r }

  /** Whether (f, r) is one of the squares of a vision list. */
  predicate SightIn(v: seq<Sight>, f: char, r: char)
  {
    exists j :: 0 <= j < |v| && SightIs(v[j], f, r)
  }

  /** Whether the piece at index i sees (f, r). */
  predicate Sees(pos: seq<PieceState>, i: nat, f: char, r: char)
    requires i < |pos| && OnBoard(pos[i])
  {
    SightIn(PieceVision(pos, i), f, r)
  }

  /**
   * Whether one of the first n pieces sees (f, r): among the pieces of colour
   * c when `own`, among the pieces of the other colours when not.
   */
  predicate SeenUpTo(pos: seq<PieceState>, c: PieceColor, own: bool, f: char, r: char, n: nat)
    requires n <= |pos| && AllOnBoard(pos)
  {
    n > 0 &&
    (SeenUpTo(pos, c, own, f, r, n - 1) || ((pos[n - 1].pieceColor == c) == own && Sees(pos, n - 1, f, r)))
  }

  /** SeenUpTo means: some piece among the first n, of the side asked about, sees the square. */
  lemma {:induction false} SeenUpToMeans(pos: seq<PieceState>, c: PieceColor, own: bool, f: char, r: char, n: nat)
    requires n <= |pos| && AllOnBoard(pos)
    ensures SeenUpTo(pos, c, own, f, r, n) <==>
            exists i :: 0 <= i < n && (pos[i].pieceColor == c) == own && Sees(pos, i, f, r)
  {
    if n > 0 {
      SeenUpToMeans(pos, c, own, f, r, n - 1);
    }
  }

  /** The piece a move to (f, r) by `color` takes off the list: first on the square, not a king, of the other colour. */
  function Captured(pos: seq<PieceState>, f: char, r: char, color: PieceColor): (o: Option<nat>)
    ensures o.Some? ==> o.value < |pos| && At(pos[o.value], f, r) && pos[o.value].pieceType != King &&
                        pos[o.value].pieceColor != color
  {
    match PieceAt(pos, f, r)
    case None => None
    case Some(j) => if pos[j].pieceType != King && pos[j].pieceColor != color then Some(j) else None
  }

  function RemoveAt<T>(s: seq<T>, j: nat): (r: seq<T>)
    requires j < |s|
    ensures |r| == |s| - 1
    ensures forall i :: 0 <= i < j ==> r[i] == s[i]
    ensures forall i :: j <= i < |r| ==> r[i] == s[i + 1]
  {
    seq(|s| - 1, i requires 0 <= i < |s| - 1 => if i < j then s[i] else s[i + 1])
  }

  /**
   * Updating the element at k and then removing the one at j: when j == k,
   * the same as removing it; otherwise updating the shifted index.
   */
  lemma RemoveAtUpdated<T>(s: seq<T>, j: nat, k: nat, x: T)
    requires j < |s| && k < |s|
    ensures j == k ==> RemoveAt(s[k := x], j) == RemoveAt(s, j)
    ensures j < k ==> RemoveAt(s[k := x], j) == RemoveAt(s, j)[k - 1 := x]
    ensures k < j ==> RemoveAt(s[k := x], j) == RemoveAt(s, j)[k := x]
  {
  }

  /** The index Captured finds, or -1 when nothing is taken. */
  function CaptureIndex(pos: seq<PieceState>, f: char, r: char, color: PieceColor): (i: int)
    ensures -1 <= i < |pos|
    ensures i == -1 <==> Captured(pos, f, r, color).None?
    ensures i != -1 ==> Captured(pos, f, r, color) == Some(i)
  {
    match Captured(pos, f, r, color)
    case None => -1
    case Some(j) => j
  }

  /** The piece at k replaced by x, then the piece at `index` (unless it is -1) off the list. */
  function Moved(pos: seq<PieceState>, k: nat, x: PieceState, index: int): (m: seq<PieceState>)
    requires k < |pos| && -1 <= index < |pos|
    ensures AllOnBoard(pos) && OnBoard(x) ==> AllOnBoard(m)
  {
    if index == -1 then pos[k := x] else RemoveAt(pos[k := x], index)
  }

  /**
   * The position during a simulated move: the piece at k stands on (f, r)
   * with type t, and the captured piece (found before the move) is off the list.
   */
  function Simulated(pos: seq<PieceState>, k: nat, t: PieceType, f: char, r: char, color: PieceColor): (sim: seq<PieceState>)
    requires k < |pos|
    ensures AllOnBoard(pos) && IsSquare(f, r) ==> AllOnBoard(sim)
  {
    Moved(pos, k, pos[k].(pieceType := t, file := f, rank := r), CaptureIndex(pos, f, r, color))
  }

  lemma SimulatedOnBoard(pos: seq<PieceState>, k: nat, t: PieceType, f: char, r: char, color: PieceColor)
    requires k < |pos| && AllOnBoard(pos) && IsSquare(f, r)
    ensures AllOnBoard(Simulated(pos, k, t, f, r, color))
  {
  }

  predicate IsKingOf(p: PieceState, c: PieceColor) { p.pieceType == King && p.pieceColor == c }

  predicate HasKing(pos: seq<PieceState>, c: PieceColor) { exists i :: 0 <= i < |pos| && IsKingOf(pos[i], c) }

  /** The last king of colour c among the first n pieces. */
  function LastKingBelow(pos: seq<PieceState>, c: PieceColor, n: nat): (o: Option<nat>)
    requires n <= |pos|
    ensures o.None? <==> forall i :: 0 <= i < n ==> !IsKingOf(pos[i], c)
    ensures o.Some? ==> o.value < n && IsKingOf(pos[o.value], c) &&
                        forall i :: o.value < i < n ==> !IsKingOf(pos[i], c)
  {
    if n == 0 then None
    else if IsKingOf(pos[n - 1], c) then Some(n - 1)
    else LastKingBelow(pos, c, n - 1)
  }

  /** The last king of colour c in list order (the search in isKingInCheckAfterMoving does not stop early). */
  function LastKing(pos: seq<PieceState>, c: PieceColor): (o: Option<nat>)
    ensures o.None? <==> !HasKing(pos, c)
    ensures o.Some? ==> o.value < |pos| && IsKingOf(pos[o.value], c) &&
                        forall i :: o.value < i < |pos| ==> !IsKingOf(pos[i], c)
  {
    LastKingBelow(pos, c, |pos|)
  }

  /** The first king of colour c from index `from` on. */
  function FirstKingFrom(pos: seq<PieceState>, c: PieceColor, from: nat): (o: Option<nat>)
    requires from <= |pos|
    decreases |pos| - from
    ensures o.None? <==> forall i :: from <= i < |pos| ==> !IsKingOf(pos[i], c)
    ensures o.Some? ==> from <= o.value < |pos| && IsKingOf(pos[o.value], c) &&
                        forall i :: from <= i < o.value ==> !IsKingOf(pos[i], c)
  {
    if from == |pos| then None
    else if IsKingOf(pos[from], c) then Some(from)
    else FirstKingFrom(pos, c, from + 1)
  }

  /** The first king of colour c in list order (the search in isEnemyKingInCheckAfterMoving). */
  function FirstKing(pos: seq<PieceState>, c: PieceColor): (o: Option<nat>)
    ensures o.None? <==> !HasKing(pos, c)
    ensures o.Some? ==> o.value < |pos| && IsKingOf(pos[o.value], c) &&
                        forall i :: 0 <= i < o.value ==> !IsKingOf(pos[i], c)
  {
    FirstKingFrom(pos, c, 0)
  }

  /** A square seen among the first m pieces is seen among the first n >= m. */
  lemma {:induction false} SeenUpToMonotone(pos: seq<PieceState>, c: PieceColor, own: bool, f: char, r: char, m: nat, n: nat)
    requires m <= n <= |pos| && AllOnBoard(pos) && SeenUpTo(pos, c, own, f, r, m)
    ensures SeenUpTo(pos, c, own, f, r, n)
    decreases n - m
  {
    if m < n {
      SeenUpToMonotone(pos, c, own, f, r, m, n - 1);
    }
  }

  /** Some piece not of colour c sees the square (f, r). */
  predicate AttackedBy(pos: seq<PieceState>, notColor: PieceColor, f: char, r: char)
    requires AllOnBoard(pos)
  {
    SeenUpTo(pos, notColor, false, f, r, |pos|)
  }

  /** Some piece of colour c sees the square (f, r). */
  predicate SeenByColor(pos: seq<PieceState>, c: PieceColor, f: char, r: char)
    requires AllOnBoard(pos)
  {
    SeenUpTo(pos, c, true, f, r, |pos|)
  }

  /** Some piece of a colour other than c sees the (last) king of colour c. */
  predicate KingInCheck(pos: seq<PieceState>, color: PieceColor)
    requires AllOnBoard(pos)
  {
    match LastKing(pos, color)
    case None => false
    case Some(ki) => AttackedBy(pos, color, pos[ki].file, pos[ki].rank)
  }

  /** isKingInCheckAfterMoving: after the simulated move, the king of colour c is in check. */
  predicate OwnKingInCheckAfter(pos: seq<PieceState>, k: nat, t: PieceType, f: char, r: char, color: PieceColor)
    requires k < |pos| && AllOnBoard(pos) && IsSquare(f, r)
  {
    SimulatedOnBoard(pos, k, t, f, r, color);
    KingInCheck(Simulated(pos, k, t, f, r, color), color)
  }

  /**
   * isEnemyKingInCheckAfterMoving: after the simulated move, some piece of
   * colour c sees the square the first enemy king stood on before the move.
   */
  predicate EnemyKingInCheckAfter(pos: seq<PieceState>, k: nat, t: PieceType, f: char, r: char, color: PieceColor)
    requires k < |pos| && AllOnBoard(pos) && IsSquare(f, r)
  {
    var sim := Simulated(pos, k, t, f, r, color);
    SimulatedOnBoard(pos, k, t, f, r, color);
    match FirstKing(pos, Enemy(color))
    case None => false
    case Some(ki) => SeenByColor(sim, color, pos[ki].file, pos[ki].rank)
  }

  /** The piece at i, moved to (f, r), no longer leaves its king in check. */
  predicate Escapes(sim: seq<PieceState>, i: nat, f: char, r: char)
    requires i < |sim| && AllOnBoard(sim) && IsSquare(f, r)
  {
    !KingInCheck(Simulated(sim, i, sim[i].pieceType, f, r, sim[i].pieceColor), sim[i].pieceColor)
  }

  /** One of the first m squares of v is an escape for the piece at i. */
  predicate EscapeAmong(sim: seq<PieceState>, i: nat, v: seq<Sight>, m: nat)
    requires i < |sim| && AllOnBoard(sim) && SightsOnBoard(v) && m <= |v|
  {
    m > 0 && (EscapeAmong(sim, i, v, m - 1) || Escapes(sim, i, v[m - 1].file, v[m - 1].rank))
  }

  /** One of the first n pieces not of colour c has an escape among the squares it sees. */
  predicate EscapeUpTo(sim: seq<PieceState>, c: PieceColor, n: nat)
    requires n <= |sim| && AllOnBoard(sim)
  {
    n > 0 &&
    (EscapeUpTo(sim, c, n - 1) || (sim[n - 1].pieceColor != c && PieceEscapes(sim, n - 1)))
  }

  /** Some square the piece at i sees is an escape. */
  predicate PieceEscapes(sim: seq<PieceState>, i: nat)
    requires i < |sim| && AllOnBoard(sim)
  {
    var v := PieceVision(sim, i);
    EscapeAmong(sim, i, v, |v|)
  }

  /** EscapeAmong means: one of the first m squares is an escape. */
  lemma {:induction false} EscapeAmongMeans(sim: seq<PieceState>, i: nat, v: seq<Sight>, m: nat)
    requires i < |sim| && AllOnBoard(sim) && SightsOnBoard(v) && m <= |v|
    ensures EscapeAmong(sim, i, v, m) <==> exists j :: 0 <= j < m && Escapes(sim, i, v[j].file, v[j].rank)
  {
    if m > 0 {
      EscapeAmongMeans(sim, i, v, m - 1);
      if exists j :: 0 <= j < m && Escapes(sim, i, v[j].file, v[j].rank) {
        var j :| 0 <= j < m && Escapes(sim, i, v[j].file, v[j].rank);
        if j < m - 1 {
          assert EscapeAmong(sim, i, v, m - 1);
        }
      }
    }
  }

  lemma EscapeAmongMonotone(sim: seq<PieceState>, i: nat, v: seq<Sight>, m: nat, n: nat)
    requires i < |sim| && AllOnBoard(sim) && SightsOnBoard(v) && m <= n <= |v| && EscapeAmong(sim, i, v, m)
    ensures EscapeAmong(sim, i, v, n)
  {
    EscapeAmongMeans(sim, i, v, m);
    EscapeAmongMeans(sim, i, v, n);
  }

  lemma {:induction false} EscapeUpToMonotone(sim: seq<PieceState>, c: PieceColor, m: nat, n: nat)
    requires m <= n <= |sim| && AllOnBoard(sim) && EscapeUpTo(sim, c, m)
    ensures EscapeUpTo(sim, c, n)
    decreases n - m
  {
    if m < n {
      EscapeUpToMonotone(sim, c, m, n - 1);
    }
  }

  /**
   * No escape: after the simulated move, no vision square of any piece not
   * of colour c gets that piece's king out of check.
   */
  predicate NoEscape(sim: seq<PieceState>, color: PieceColor)
    requires AllOnBoard(sim)
  {
    !EscapeUpTo(sim, color, |sim|)
  }

  /** isEnemyKingCheckmatedAfterMove's second result: check, and no reply escapes it. */
  predicate EnemyMatedAfter(pos: seq<PieceState>, k: nat, t: PieceType, f: char, r: char, color: PieceColor)
    requires k < |pos| && AllOnBoard(pos) && IsSquare(f, r)
  {
    EnemyKingInCheckAfter(pos, k, t, f, r, color) && NoEscape(Simulated(pos, k, t, f, r, color), color)
  }

  /** A simulated move keeps every king of colour c when the moving piece keeps being a king. */
  lemma SimulatedKeepsKing(pos: seq<PieceState>, k: nat, t: PieceType, f: char, r: char, color: PieceColor, c: PieceColor)
    requires k < |pos| && HasKing(pos, c)
    requires pos[k].pieceType == King ==> t == King
    ensures HasKing(Simulated(pos, k, t, f, r, color), c)
  {
    var i :| 0 <= i < |pos| && IsKingOf(pos[i], c);
    var moved := pos[k := pos[k].(pieceType := t, file := f, rank := r)];
    assert IsKingOf(moved[i], c);
    var j := CaptureIndex(pos, f, r, color);
    if j != -1 {
      assert j != i;
      var sim := RemoveAt(moved, j);
      if i < j { assert sim[i] == moved[i]; } else { assert sim[i - 1] == moved[i]; }
    }
  }

  /** getMaterial's weights: pawn 1, knight and bishop 3, rook 5, queen 9, king 0. */
  function PieceValue(t: PieceType): nat
  {
    match t
    case Pawn => 1
    case Knight => 3
    case Bishop => 3
    case Rook => 5
    case Queen => 9
    case King => 0
  }

  function SignedValue(p: PieceState): int
  {
    if p.pieceColor == Black then -(PieceValue(p.pieceType) as int) else PieceValue(p.pieceType) as int
  }

  /** The material balance: white's piece values minus black's. */
  function Material(pos: seq<PieceState>): int
  {
    if pos == [] then 0 else Material(pos[..|pos| - 1]) + SignedValue(pos[|pos| - 1])
  }

  /** The material of one colour alone. */
  function ColorMaterial(pos: seq<PieceState>, c: PieceColor): nat
  {
    if pos == [] then 0
    else ColorMaterial(pos[..|pos| - 1], c) +
         (if pos[|pos| - 1].pieceColor == c then PieceValue(pos[|pos| - 1].pieceType) else 0)
  }

  /** The balance is white's material minus black's material. */
  lemma {:induction false} MaterialIsDifference(pos: seq<PieceState>)
    ensures Material(pos) == ColorMaterial(pos, White) as int - ColorMaterial(pos, Black) as int
  {
    if pos != [] {
      MaterialIsDifference(pos[..|pos| - 1]);
    }
  }

  function SwapColor(p: PieceState): PieceState { p.(pieceColor := Enemy(p.pieceColor)) }

  function SwapColors(pos: seq<PieceState>): (r: seq<PieceState>)
    ensures |r| == |pos| && forall i :: 0 <= i < |pos| ==> r[i] == SwapColor(pos[i])
  {
    seq(|pos|, i requires 0 <= i < |pos| => SwapColor(pos[i]))
  }

  /** Exchanging the colours of every piece negates the balance. */
  lemma {:induction false} MaterialColorSwap(pos: seq<PieceState>)
    ensures Material(SwapColors(pos)) == -Material(pos)
  {
    if pos != [] {
      var init := pos[..|pos| - 1];
      assert SwapColors(pos)[..|pos| - 1] == SwapColors(init);
      MaterialColorSwap(init);
    }
  }

  /** The ranks of the opponent's half: 5 to 8 for white, 1 to 4 for black. */
  function EnemyRanks(c: PieceColor): seq<char>
  {
    if c == Black then ['1', '2', '3', '4'] else ['5', '6', '7', '8']
  }

  /** The squares of v on the given ranks, in the order getSpace registers them. */
  function SightSquares(v: seq<Sight>, ranks: seq<char>): set<(char, char)>
  {
    if v == [] then {}
    else
      var s := v[|v| - 1];
      SightSquares(v[..|v| - 1], ranks) + (if s.rank in ranks then {(s.file, s.rank)} else {})
  }

  lemma SightSquaresStep(v: seq<Sight>, ranks: seq<char>, j: nat)
    requires j < |v|
    ensures SightSquares(v[..j + 1], ranks) ==
            SightSquares(v[..j], ranks) + (if v[j].rank in ranks then {(v[j].file, v[j].rank)} else {})
  {
    assert v[..j + 1][..j] == v[..j];
  }

  /** Every registered square is one of v's squares on the given ranks. */
  lemma {:induction false} SightSquaresIn(v: seq<Sight>, ranks: seq<char>, sq: (char, char))
    requires sq in SightSquares(v, ranks)
    ensures sq.1 in ranks && exists j :: 0 <= j < |v| && SightIs(v[j], sq.0, sq.1)
  {
    var s := v[|v| - 1];
    if sq in SightSquares(v[..|v| - 1], ranks) {
      SightSquaresIn(v[..|v| - 1], ranks, sq);
      var j :| 0 <= j < |v| - 1 && SightIs(v[..|v| - 1][j], sq.0, sq.1);
      assert SightIs(v[j], sq.0, sq.1);
    } else {
      assert SightIs(v[|v| - 1], sq.0, sq.1);
    }
  }

  /** The squares in the opponent's half that the piece at i, when of colour c, sees. */
  function SpaceOf(pos: seq<PieceState>, i: nat, c: PieceColor): set<(char, char)>
    requires i < |pos| && OnBoard(pos[i])
  {
    if pos[i].pieceColor != c then {} else SightSquares(PieceVision(pos, i), EnemyRanks(c))
  }

  /** The squares counted by getSpace over the first n pieces. */
  function SpaceUpTo(pos: seq<PieceState>, c: PieceColor, n: nat): set<(char, char)>
    requires n <= |pos| && AllOnBoard(pos)
  {
    if n == 0 then {} else SpaceUpTo(pos, c, n - 1) + SpaceOf(pos, n - 1, c)
  }

  /** Every square counted as space is a square of the opponent's half. */
  lemma {:induction false} SpaceInEnemyHalf(pos: seq<PieceState>, c: PieceColor, n: nat, sq: (char, char))
    requires n <= |pos| && AllOnBoard(pos) && sq in SpaceUpTo(pos, c, n)
    ensures IsSquare(sq.0, sq.1) && sq.1 in EnemyRanks(c)
  {
    if sq !in SpaceUpTo(pos, c, n - 1) {
      assert sq in SpaceOf(pos, n - 1, c);
      var v := PieceVision(pos, n - 1);
      SightSquaresIn(v, EnemyRanks(c), sq);
      var j :| 0 <= j < |v| && SightIs(v[j], sq.0, sq.1);
      assert IsSquare(v[j].file, v[j].rank);
    } else {
      SpaceInEnemyHalf(pos, c, n - 1, sq);
    }
  }

  /** A cached move the engine can apply: executeMove does not raise on it and it lands on the board. */
  predicate WellFormedMove(m: ChessMove)
  {
    var s := m.moveString;
    var red := Reduce(s);
    |s| > 0 &&
    if IsCastleString(red) then s[0] == 'O' && !m.Takes()
    else |red| >= 2 && IsSquare(FinalPosition(m).0, FinalPosition(m).1) &&
         ('=' in s ==> FromLetter(PromotionLetter(s)).Some?)
  }

  lemma WellFormedIsExecutable(m: ChessMove)
    requires WellFormedMove(m)
    ensures Executable(m)
  {
  }

  /** The placement of a piece after executeMove applies m to it. */
  function ExecutedState(p: PieceState, m: ChessMove): (q: PieceState)
    requires Executable(m)
    ensures q.moveCounter == p.moveCounter + 1 && q.pieceColor == p.pieceColor
  {
    var s := m.moveString;
    var red := Reduce(s);
    var moved :=
      if red == "O-O" then
        (if p.pieceType == King then p.(file := 'g') else if p.pieceType == Rook then p.(file := 'f') else p)
      else if red == "O-O-O" then
        (if p.pieceType == King then p.(file := 'c') else if p.pieceType == Rook then p.(file := 'd') else p)
      else if '=' in s then
        p.(pieceType := FromLetter(PromotionLetter(s)).value, file := FinalPosition(m).0, rank := FinalPosition(m).1)
      else
        p.(file := FinalPosition(m).0, rank := FinalPosition(m).1);
    moved.(moveCounter := p.moveCounter + 1)
  }

  /**
   * Where executeMove puts the piece: a castle moves the king to g (or c) and
   * the rook to f (or d) on their own rank, and any other piece not at all; a
   * promotion turns the piece into the type its letter names on the move's
   * final square; any other move keeps the type and lands on the final square.
   */
  lemma ExecutedPlacement(p: PieceState, m: ChessMove)
    requires Executable(m)
    ensures var q := ExecutedState(p, m);
            var red := Reduce(m.moveString);
            q.pieceColor == p.pieceColor && q.moveCounter == p.moveCounter + 1 &&
            (red == "O-O" || red == "O-O-O" ==>
               q.pieceType == p.pieceType && q.rank == p.rank &&
               q.file == (if p.pieceType == King then (if red == "O-O" then 'g' else 'c')
                          else if p.pieceType == Rook then (if red == "O-O" then 'f' else 'd')
                          else p.file)) &&
            (red != "O-O" && red != "O-O-O" && '=' in m.moveString ==>
               Some(q.pieceType) == FromLetter(PromotionLetter(m.moveString)) &&
               (q.file, q.rank) == FinalPosition(m)) &&
            (red != "O-O" && red != "O-O-O" && '=' !in m.moveString ==>
               q.pieceType == p.pieceType && (q.file, q.rank) == FinalPosition(m))
  {
  }

  /** Executing a well-formed move leaves a piece on the board. */
  lemma ExecutedOnBoard(p: PieceState, m: ChessMove)
    requires OnBoard(p) && WellFormedMove(m)
    ensures OnBoard(ExecutedState(p, m))
  {
  }
}
