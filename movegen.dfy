/**
 * Pseudo-legal move generation (crates/core/src/pieces.rs, PieceType::get_moves and
 * the eight per-kind generators) and the board's per-cell move query
 * (crates/core/src/board.rs, get_valid_moves / is_valid_move), which needs them.
 *
 * The generators only read the board, so they are functions over the board value.
 * Each `for` loop that pushes the cells passing a test is a filter, in loop order;
 * the slider `while` loop is the recursive `Ray`.
 */
module MoveGen {
  import opened Wrappers
  import opened Coords
  import opened Pieces
  import opened Boards

  /** The rook's six directions. */
  const RookDirections: seq<HexCoord> :=
    [HexCoord(1, 0), HexCoord(1, -1), HexCoord(0, -1), HexCoord(-1, 0), HexCoord(-1, 1), HexCoord(0, 1)]

  /** The bishop's six directions. */
  const BishopDirections: seq<HexCoord> :=
    [HexCoord(2, -1), HexCoord(1, -2), HexCoord(-1, -1), HexCoord(-2, 1), HexCoord(-1, 2), HexCoord(1, 1)]

  /** The knight's twelve leaps. */
  const KnightOffsets: seq<HexCoord> :=
    [HexCoord(2, -1), HexCoord(1, -2), HexCoord(-1, -1), HexCoord(-2, 1), HexCoord(-1, 2), HexCoord(1, 1),
     HexCoord(3, -2), HexCoord(2, -3), HexCoord(-2, -1), HexCoord(-3, 2), HexCoord(-2, 3), HexCoord(2, 1)]

  // ---------------------------------------------------------------------------
  // Sliding along a direction

  /** x with the sign of s (0 when s is 0). */
  function Signed(x: int, s: int): int {
    if s > 0 then x else if s < 0 then -x else 0
  }

  /** How far along direction d a cell lies; one step along d raises it by |dq| + |dr|. */
  function Progress(c: HexCoord, d: HexCoord): int {
    Signed(c.q, d.q) + Signed(c.r, d.r)
  }

  /** The cells of the board that lie no further back along d than cur. */
  function Ahead(cells: set<HexCoord>, cur: HexCoord, d: HexCoord): set<HexCoord> {
    set x | x in cells && Progress(x, d) >= Progress(cur, d)
  }

  /** Each step along a non-zero direction leaves one more cell behind. */
  lemma AheadShrinks(cells: set<HexCoord>, cur: HexCoord, d: HexCoord)
    requires d != Origin && cur in cells
    ensures Ahead(cells, Add(cur, d), d) < Ahead(cells, cur, d)
  {
    assert Progress(Add(cur, d), d) > Progress(cur, d);
    assert cur !in Ahead(cells, Add(cur, d), d);
  }

  /** The inner `while` of rook_moves / bishop_moves: starting at cur, emit cells
      while they are on the board, stopping after the first occupied one. */
  function Ray(b: Board, cur: HexCoord, d: HexCoord): (ray: seq<HexCoord>)
    requires d != Origin
    ensures |ray| == 0 <==> cur !in b.validCoords
    ensures |ray| > 0 ==> ray[0] == cur
    ensures forall i, j {:trigger ray[i], ray[j]} :: 0 <= i && j == i + 1 && j < |ray| ==> ray[j] == Add(ray[i], d)
    ensures forall x {:trigger x in ray} :: x in ray ==> x in b.validCoords && Progress(x, d) >= Progress(cur, d)
    ensures forall i :: 0 <= i < |ray| - 1 ==> ray[i] !in b.pieces
    ensures |ray| > 0 ==> ray[|ray| - 1] in b.pieces || Add(ray[|ray| - 1], d) !in b.validCoords
    decreases Ahead(b.validCoords, cur, d)
  {
    if cur !in b.validCoords then []
    else if cur in b.pieces then [cur]
    else
      AheadShrinks(b.validCoords, cur, d);
      [cur] + Ray(b, Add(cur, d), d)
  }

  /** rook_moves / bishop_moves: the rays from the neighbouring cell in each
      direction, one after another. */
  function Slide(b: Board, from: HexCoord, dirs: seq<HexCoord>): (moves: seq<HexCoord>)
    requires Origin !in dirs
    ensures forall x {:trigger x in moves} :: x in moves ==> x in b.validCoords && x != from
  {
    if dirs == [] then []
    else
      var d := dirs[0];
      assert forall x {:trigger x in Ray(b, Add(from, d), d)} :: x in Ray(b, Add(from, d), d) ==> Progress(x, d) > Progress(from, d);
      Ray(b, Add(from, d), d) + Slide(b, from, dirs[1..])
  }

  function RookMoves(b: Board, from: HexCoord): seq<HexCoord> {
    Slide(b, from, RookDirections)
  }

  function BishopMoves(b: Board, from: HexCoord): seq<HexCoord> {
    Slide(b, from, BishopDirections)
  }

  // ---------------------------------------------------------------------------
  // Steppers and leapers

  /** The cells of the list that are on the board, in list order. */
  function OnBoard(b: Board, cells: seq<HexCoord>): (kept: seq<HexCoord>)
    ensures forall x {:trigger x in kept} {:trigger x in cells} :: x in kept <==> x in cells && x in b.validCoords
    ensures |kept| <= |cells|
  {
    if cells == [] then []
    else (if cells[0] in b.validCoords then [cells[0]] else []) + OnBoard(b, cells[1..])
  }

  /** king_moves: the neighbours, then the diagonal neighbours, that are on the
      board. Occupancy is not consulted. */
  function KingMoves(b: Board, from: HexCoord): (moves: seq<HexCoord>)
    ensures |moves| <= 12
    ensures forall x {:trigger x in moves} {:trigger x in Neighbors(from)} {:trigger x in DiagonalNeighbors(from)} :: x in moves <==>
      (x in Neighbors(from) || x in DiagonalNeighbors(from)) && x in b.validCoords
  {
    OnBoard(b, Neighbors(from)) + OnBoard(b, DiagonalNeighbors(from))
  }

  /** from plus each offset, in order. */
  function Targets(from: HexCoord, offsets: seq<HexCoord>): seq<HexCoord> {
    seq(|offsets|, i requires 0 <= i < |offsets| => Add(from, offsets[i]))
  }

  /** knight_moves: from plus each of the twelve leaps, kept when on the board.
      Occupancy is not consulted, so knights jump over pieces. */
  function KnightMoves(b: Board, from: HexCoord): (moves: seq<HexCoord>)
    ensures |moves| <= 12
    ensures forall x {:trigger x in moves} {:trigger x in Targets(from, KnightOffsets)} ::
      x in moves <==> x in Targets(from, KnightOffsets) && x in b.validCoords
  {
    OnBoard(b, Targets(from, KnightOffsets))
  }

  /** The pawn's forward step for its colour. */
  function PawnDirection(color: Color): HexCoord {
    match color
    case White => HexCoord(0, -1)
    case Black => HexCoord(0, 1)
  }

  /** The pawn's two capture steps for its colour. */
  function CaptureDirections(color: Color): seq<HexCoord> {
    match color
    case White => [HexCoord(-1, -1), HexCoord(1, -1)]
    case Black => [HexCoord(-1, 1), HexCoord(1, 1)]
  }

  /** The capture cells that are on the board and hold an enemy piece. */
  function Captures(b: Board, from: HexCoord, dirs: seq<HexCoord>, color: Color): (moves: seq<HexCoord>)
    ensures |moves| <= |dirs|
    ensures forall x {:trigger x in moves} {:trigger x in Targets(from, dirs)} ::
      x in moves <==> x in Targets(from, dirs) && x in b.validCoords && x in b.pieces && b.pieces[x].color != color
  {
    if dirs == [] then []
    else
      var target := Add(from, dirs[0]);
      assert Targets(from, dirs) == [target] + Targets(from, dirs[1..]);
      (if target in b.validCoords && target in b.pieces && b.pieces[target].color != color then [target] else [])
      + Captures(b, from, dirs[1..], color)
  }

  /** pawn_moves: the forward step onto an empty cell, then the captures onto
      enemy pieces. The colour is that of the piece on from, which must exist. */
  function PawnMoves(b: Board, from: HexCoord): (moves: seq<HexCoord>)
    requires from in b.pieces
    ensures |moves| <= 3
    ensures forall x {:trigger x in moves} :: x in moves <==>
      var color := b.pieces[from].color;
      x in b.validCoords &&
      ((x == Add(from, PawnDirection(color)) && x !in b.pieces) ||
       (x in Targets(from, CaptureDirections(color)) && x in b.pieces && b.pieces[x].color != color))
  {
    var color := b.pieces[from].color;
    var forward := Add(from, PawnDirection(color));
    (if forward in b.validCoords && forward !in b.pieces then [forward] else [])
    + Captures(b, from, CaptureDirections(color), color)
  }

  // ---------------------------------------------------------------------------
  // Dispatch

  /** get_moves; the pawn generator unwraps the piece on from, so a pawn query
      needs one there. */
  function GetMoves(kind: PieceType, from: HexCoord, b: Board): (moves: seq<HexCoord>)
    requires kind == Pawn ==> from in b.pieces
    ensures forall x {:trigger x in moves} :: x in moves ==> x in b.validCoords
  {
    match kind
    case King => KingMoves(b, from)
    case Queen => RookMoves(b, from) + BishopMoves(b, from)
    case Rook => RookMoves(b, from)
    case Bishop => BishopMoves(b, from)
    case Knight => KnightMoves(b, from)
    case Pawn => PawnMoves(b, from)
    case Chancellor => RookMoves(b, from) + KnightMoves(b, from)
    case Archbishop => BishopMoves(b, from) + KnightMoves(b, from)
  }

  // ---------------------------------------------------------------------------
  // Board::get_valid_moves / is_valid_move

  /** is_valid_move: the target is on the board and does not hold a piece of the
      mover's colour. */
  predicate IsValidMove(b: Board, from: HexCoord, to: HexCoord) {
    to in b.validCoords && !(to in b.pieces && from in b.pieces && b.pieces[to].color == b.pieces[from].color)
  }

  /** The targets passing is_valid_move, in order. */
  function KeepValid(b: Board, from: HexCoord, targets: seq<HexCoord>): (kept: seq<HexCoord>)
    ensures forall x :: x in kept <==> x in targets && IsValidMove(b, from, x)
    ensures |kept| <= |targets|
  {
    if targets == [] then []
    else
      var last := targets[|targets| - 1];
      KeepValid(b, from, targets[..|targets| - 1]) + (if IsValidMove(b, from, last) then [last] else [])
  }

  /** The filter of one target: kept alone exactly when it passes. */
  lemma KeepValidSingle(b: Board, from: HexCoord, x: HexCoord)
    ensures KeepValid(b, from, [x]) == if IsValidMove(b, from, x) then [x] else []
  {
    assert [x][..0] == [];
  }

  /** The filter of a concatenation is the concatenation of the filters, so the
      kept targets keep their generator order and their repetitions. */
  lemma {:induction false} KeepValidAppend(b: Board, from: HexCoord, s: seq<HexCoord>, t: seq<HexCoord>)
    ensures KeepValid(b, from, s + t) == KeepValid(b, from, s) + KeepValid(b, from, t)
    decreases |t|
  {
    if t == [] {
      assert s + t == s;
    } else {
      var init, last := t[..|t| - 1], t[|t| - 1];
      assert (s + t)[..|s + t| - 1] == s + init;
      assert (s + t)[|s + t| - 1] == last;
      KeepValidAppend(b, from, s, init);
    }
  }

  /** The list get_valid_moves returns. */
  function ValidMoves(b: Board, from: HexCoord): (moves: seq<HexCoord>)
    ensures from !in b.pieces ==> moves == []
    ensures from in b.pieces ==> forall x {:trigger x in moves} {:trigger x in GetMoves(b.pieces[from].kind, from, b)} :: x in moves <==>
      x in GetMoves(b.pieces[from].kind, from, b) && x in b.validCoords &&
      !(x in b.pieces && b.pieces[x].color == b.pieces[from].color)
  {
    if from !in b.pieces then []
    else KeepValid(b, from, GetMoves(b.pieces[from].kind, from, b))
  }

  /** get_valid_moves: the loop over the generator's targets. */
  method GetValidMoves(b: Board, coord: HexCoord) returns (moves: seq<HexCoord>)
    ensures moves == ValidMoves(b, coord)
  {
    if coord !in b.pieces {
      return [];
    }
    var piece := b.pieces[coord];
    var possible := GetMoves(piece.kind, coord, b);
    moves := [];
    for i := 0 to |possible|
      invariant moves == KeepValid(b, coord, possible[..i])
    {
      assert possible[..i + 1][..i] == possible[..i];
      if IsValidMove(b, coord, possible[i]) {
        moves := moves + [possible[i]];
      }
    }
    assert possible[..|possible|] == possible;
  }

  /** A move get_valid_moves offers can always be played by move_piece on a valid
      board: both ends are cells and the source is occupied. */
  lemma ValidMoveApplies(b: Board, from: HexCoord, to: HexCoord)
    requires b.Valid() && to in ValidMoves(b, from)
    ensures WithMove(b, from, to).Ok?
    ensures to != from
  {
  }

  // ---------------------------------------------------------------------------
  // Properties of the generators

  /** The three compound kinds are concatenations, so a cell reachable both ways
      is listed twice. */
  lemma CompoundKinds(b: Board, from: HexCoord)
    ensures GetMoves(Queen, from, b) == GetMoves(Rook, from, b) + GetMoves(Bishop, from, b)
    ensures GetMoves(Chancellor, from, b) == GetMoves(Rook, from, b) + GetMoves(Knight, from, b)
    ensures GetMoves(Archbishop, from, b) == GetMoves(Bishop, from, b) + GetMoves(Knight, from, b)
  {
  }

  /** Filtering by board membership depends on the cells only. */
  lemma {:induction false} OnBoardIgnoresPieces(b1: Board, b2: Board, cells: seq<HexCoord>)
    requires b1.validCoords == b2.validCoords
    ensures OnBoard(b1, cells) == OnBoard(b2, cells)
  {
    if cells != [] {
      OnBoardIgnoresPieces(b1, b2, cells[1..]);
    }
  }

  /** Kings and knights ignore occupancy: boards with the same cells give them the
      same destinations whatever stands where, so a knight jumps over pieces. */
  lemma LeapersIgnoreOccupancy(b1: Board, b2: Board, from: HexCoord)
    requires b1.validCoords == b2.validCoords
    ensures KingMoves(b1, from) == KingMoves(b2, from)
    ensures KnightMoves(b1, from) == KnightMoves(b2, from)
  {
    OnBoardIgnoresPieces(b1, b2, Neighbors(from));
    OnBoardIgnoresPieces(b1, b2, DiagonalNeighbors(from));
    OnBoardIgnoresPieces(b1, b2, Targets(from, KnightOffsets));
  }

  /** When every listed cell is on the board, nothing is filtered out. */
  lemma {:induction false} OnBoardKeepsAll(b: Board, cells: seq<HexCoord>)
    requires forall x <- cells :: x in b.validCoords
    ensures OnBoard(b, cells) == cells
  {
    if cells != [] {
      OnBoardKeepsAll(b, cells[1..]);
    }
  }

  /** A ray on an empty board with two cells before the edge has length two. */
  lemma RayOfTwo(b: Board, d: HexCoord)
    requires d != Origin && b.pieces == map[]
    requires d in b.validCoords && Add(d, d) in b.validCoords && Add(Add(d, d), d) !in b.validCoords
    ensures |Ray(b, Add(Origin, d), d)| == 2
  {
    assert Add(Origin, d) == d;
    assert Ray(b, Add(Add(d, d), d), d) == [];
  }

  /** Rays of two cells each add up to twice the number of directions. */
  lemma {:induction false} SlideOfTwos(b: Board, dirs: seq<HexCoord>)
    requires Origin !in dirs
    requires forall d :: d in dirs ==> |Ray(b, Add(Origin, d), d)| == 2
    ensures |Slide(b, Origin, dirs)| == 2 * |dirs|
  {
    if dirs != [] {
      assert dirs[0] in dirs;
      SlideOfTwos(b, dirs[1..]);
    }
  }
}
