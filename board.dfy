/**
 * The board (crates/core/src/board.rs): a map from cells to pieces, restricted to
 * the cells of the board shape, with a colour for every cell.
 *
 * In the source the board is an owned value (`Clone`), changed in place through
 * `&mut self`. Here it is a datatype; each changing operation is a function from
 * the board before to a `Mutation` holding the board after and the value the
 * operation returned. On every error path the board after is the board before.
 */
module Boards {
  import opened Wrappers
  import opened Coords
  import opened Pieces

  datatype CellColor = Light | Medium | Dark

  datatype BoardError = InvalidCoordinate | NoPieceAtCoordinate | InvalidMove

  datatype Board = Board(
    boardType: BoardType,
    pieces: map<HexCoord, Piece>,
    validCoords: set<HexCoord>,
    cellColors: map<HexCoord, CellColor>)
  {
    /** Pieces stand only on cells of the board, and exactly the cells are coloured. */
    predicate Valid() {
      pieces.Keys <= validCoords && cellColors.Keys == validCoords
    }
  }

  /** The board after a changing operation, and what the operation returned. */
  datatype Mutation<T> = Mutation(board: Board, result: T)

  /** Rust's `%` on integers: the remainder takes the sign of the dividend. */
  function RustRem(a: int, n: int): (m: int)
    requires n > 0
    ensures -n < m < n
    ensures a >= 0 ==> m >= 0
    ensures a <= 0 ==> m <= 0
    ensures a == n * TruncDiv(a, n) + m
  {
    if a >= 0 then a % n else -((-a) % n)
  }

  /** The colour generate_cell_colors gives a cell. The cube components always
      sum to 0, so the three-colour pattern collapses: every cell is Light. */
  function CellColorOf(c: HexCoord, boardType: BoardType): (color: CellColor)
    ensures color == Light
  {
    match boardType
    case Irregular => Light
    case _ =>
      var m := RustRem(c.q + c.r + (-c.q - c.r), 3);
      if m == 0 then Light else if m == 1 then Medium else Dark
  }

  /** The colour map of a set of cells. */
  function CellColors(coords: set<HexCoord>, boardType: BoardType): map<HexCoord, CellColor> {
    map c | c in coords :: CellColorOf(c, boardType)
  }

  /** generate_cell_colors: one entry per cell, filled cell by cell. */
  method GenerateCellColors(coords: set<HexCoord>, boardType: BoardType) returns (colors: map<HexCoord, CellColor>)
    ensures colors == CellColors(coords, boardType)
    ensures colors.Keys == coords
    ensures forall c <- colors.Keys :: colors[c] == Light
  {
    colors := map[];
    var rest := coords;
    while rest != {}
      invariant rest <= coords
      invariant colors == CellColors(coords - rest, boardType)
      decreases rest
    {
      var c :| c in rest;
      colors := colors[c := CellColorOf(c, boardType)];
      rest := rest - {c};
      assert colors == CellColors(coords - rest, boardType);
    }
    assert coords - rest == coords;
  }

  /** The board Board::new builds. */
  function EmptyBoard(boardType: BoardType): Board {
    var cells := Cells(boardType);
    Board(boardType, map[], cells, CellColors(cells, boardType))
  }

  /** Board::new: no pieces, the shape's cells, every cell coloured. */
  method NewBoard(boardType: BoardType) returns (b: Board)
    ensures b == EmptyBoard(boardType)
    ensures b.Valid() && b.pieces == map[] && b.validCoords == Cells(boardType)
  {
    var cells := ValidCoords(boardType);
    var colors := GenerateCellColors(cells, boardType);
    b := Board(boardType, map[], cells, colors);
  }

  /** get_piece: the piece on a cell, if the cell is occupied. */
  function GetPiece(b: Board, c: HexCoord): (p: Option<Piece>)
    ensures p.Some? <==> IsOccupied(b, c)
    ensures p.Some? ==> p.value == b.pieces[c]
  {
    if c in b.pieces then Some(b.pieces[c]) else None
  }

  predicate IsOccupied(b: Board, c: HexCoord) {
    c in b.pieces
  }

  predicate IsValidCoord(b: Board, c: HexCoord) {
    c in b.validCoords
  }

  /** place_piece: refuse a cell off the board, otherwise set (or overwrite) it. */
  function PlacePiece(b: Board, coord: HexCoord, piece: Piece): (m: Mutation<Result<(), BoardError>>)
    ensures m.result.Err? <==> !IsValidCoord(b, coord)
    ensures m.result.Err? ==> m.result.error == InvalidCoordinate && m.board == b
    ensures m.result.Ok? ==> coord in m.board.pieces && m.board.pieces[coord] == piece
    ensures m.result.Ok? ==> forall c {:trigger GetPiece(m.board, c)} :: c != coord ==> GetPiece(m.board, c) == GetPiece(b, c)
    ensures m.board.validCoords == b.validCoords && m.board.cellColors == b.cellColors
    ensures m.board.boardType == b.boardType
    ensures b.Valid() ==> m.board.Valid()
  {
    if !IsValidCoord(b, coord) then Mutation(b, Err(InvalidCoordinate))
    else Mutation(b.(pieces := b.pieces[coord := piece]), Ok(()))
  }

  /** remove_piece: take whatever stands on the cell. */
  function RemovePiece(b: Board, coord: HexCoord): (m: Mutation<Option<Piece>>)
    ensures m.result == GetPiece(b, coord)
    ensures !IsOccupied(m.board, coord)
    ensures forall c {:trigger GetPiece(m.board, c)} :: c != coord ==> GetPiece(m.board, c) == GetPiece(b, c)
    ensures m.board.validCoords == b.validCoords && m.board.cellColors == b.cellColors
    ensures m.board.boardType == b.boardType
    ensures b.Valid() ==> m.board.Valid()
  {
    Mutation(b.(pieces := b.pieces - {coord}), GetPiece(b, coord))
  }

  /** What move_piece reports when the destination was empty. */
  const DummyCapture := Piece(Pawn, White)

  /** move_piece: both cells must be on the board and the source occupied; the
      piece moves, replacing whatever stood on the destination, which is returned
      (or a White Pawn when there was nothing). */
  function MovePiece(b: Board, from: HexCoord, to: HexCoord): (m: Mutation<Result<Piece, BoardError>>)
    ensures m.result.Err? ==> m.board == b
    ensures m.result == Err(InvalidCoordinate) <==> !IsValidCoord(b, from) || !IsValidCoord(b, to)
    ensures m.result == Err(NoPieceAtCoordinate) <==>
      IsValidCoord(b, from) && IsValidCoord(b, to) && !IsOccupied(b, from)
    ensures m.result.Ok? ==> from in b.pieces && to in m.board.pieces && m.board.pieces[to] == b.pieces[from]
    ensures m.result.Ok? && from != to ==> !IsOccupied(m.board, from)
    ensures m.result.Ok? ==> forall c {:trigger GetPiece(m.board, c)} :: c != from && c != to ==> GetPiece(m.board, c) == GetPiece(b, c)
    ensures m.result.Ok? ==> m.result.value == (if from != to && to in b.pieces then b.pieces[to] else DummyCapture)
    ensures m.board.validCoords == b.validCoords && m.board.cellColors == b.cellColors
    ensures m.board.boardType == b.boardType
    ensures b.Valid() ==> m.board.Valid()
  {
    if !IsValidCoord(b, from) || !IsValidCoord(b, to) then Mutation(b, Err(InvalidCoordinate))
    else if from !in b.pieces then Mutation(b, Err(NoPieceAtCoordinate))
    else
      var piece := b.pieces[from];
      var lifted := b.pieces - {from};
      var captured := if to in lifted then Some(lifted[to]) else None;
      var after := b.(pieces := lifted[to := piece]);
      Mutation(after, Ok(if captured.Some? then captured.value else DummyCapture))
  }

  /** Moving a piece to another cell and straight back, then putting back what stood
      on the destination, restores the board. */
  lemma MoveBackRestores(b: Board, from: HexCoord, to: HexCoord)
    requires from != to && IsValidCoord(b, from) && IsValidCoord(b, to) && IsOccupied(b, from)
    ensures MovePiece(MovePiece(b, from, to).board, to, from).result.Ok?
    ensures to !in b.pieces ==> MovePiece(MovePiece(b, from, to).board, to, from).board == b
    ensures to in b.pieces ==>
      PlacePiece(MovePiece(MovePiece(b, from, to).board, to, from).board, to, b.pieces[to]).board == b
  {
    var back := MovePiece(MovePiece(b, from, to).board, to, from).board;
    assert back.pieces == (b.pieces - {to})[from := b.pieces[from]];
    if to in b.pieces {
      assert PlacePiece(back, to, b.pieces[to]).board.pieces == b.pieces;
    } else {
      assert back.pieces == b.pieces;
    }
  }

  /** with_move: move_piece applied to a copy; the receiver is a value and stays as it was. */
  function WithMove(b: Board, from: HexCoord, to: HexCoord): (r: Result<Board, BoardError>)
    ensures r.Ok? <==> IsValidCoord(b, from) && IsValidCoord(b, to) && IsOccupied(b, from)
    ensures r.Ok? ==> r.value == MovePiece(b, from, to).board
    ensures r.Err? ==> r.error == MovePiece(b, from, to).result.error
  {
    var m := MovePiece(b, from, to);
    match m.result
    case Ok(_) => Ok(m.board)
    case Err(e) => Err(e)
  }

  /** get_pieces_by_color: the entries of one colour (in no particular order). */
  function PiecesByColor(b: Board, color: Color): (r: map<HexCoord, Piece>)
    ensures forall c {:trigger c in r} :: c in r <==> c in b.pieces && b.pieces[c].color == color
    ensures forall c {:trigger r[c]} :: c in r ==> r[c] == b.pieces[c]
  {
    map c | c in b.pieces && b.pieces[c].color == color :: b.pieces[c]
  }

  /** The two colours split the pieces between them. */
  lemma PiecesByColorPartition(b: Board)
    ensures PiecesByColor(b, White).Keys + PiecesByColor(b, Black).Keys == b.pieces.Keys
    ensures PiecesByColor(b, White).Keys !! PiecesByColor(b, Black).Keys
  {
    var w, k := PiecesByColor(b, White), PiecesByColor(b, Black);
    forall c | c in b.pieces ensures c in w.Keys + k.Keys {
      if b.pieces[c].color == White { assert c in w; } else { assert c in k; }
    }
  }

  /** Lexicographic order on cells, used to make get_king's choice deterministic. */
  predicate LexLeq(a: HexCoord, b: HexCoord) {
    a.q < b.q || (a.q == b.q && a.r <= b.r)
  }

  /** The cells holding a king of the given colour. */
  function KingCells(b: Board, color: Color): set<HexCoord> {
    set c | c in b.pieces && b.pieces[c] == Piece(King, color)
  }

  /** `m` is the lexicographically least cell of `s`. */
  predicate IsLeast(m: HexCoord, s: set<HexCoord>) {
    m in s && forall d {:trigger d in s} :: d in s ==> LexLeq(m, d)
  }

  /** Adding a cell to a set with a least element: the smaller of the two is least. */
  lemma LeastOfInsert(m: HexCoord, s: set<HexCoord>, x: HexCoord)
    requires IsLeast(m, s)
    ensures LexLeq(x, m) ==> IsLeast(x, s + {x})
    ensures !LexLeq(x, m) ==> IsLeast(m, s + {x})
  {
  }

  /** Every non-empty finite set of cells has a lexicographically least element. */
  lemma {:induction false} LeastExists(s: set<HexCoord>)
    requires s != {}
    ensures exists m :: IsLeast(m, s)
    decreases s
  {
    var x :| x in s;
    var rest := s - {x};
    if rest == {} {
      assert s == {x};
      assert IsLeast(x, s);
    } else {
      LeastExists(rest);
      var m :| IsLeast(m, rest);
      LeastOfInsert(m, rest, x);
      assert rest + {x} == s;
    }
  }

  /** get_king: a cell holding a king of that colour, or None when there is none.
      The source takes the first hit in hash order; this model takes the
      lexicographically least, which is the same whenever a colour has one king. */
  function GetKing(b: Board, color: Color): (k: Option<HexCoord>)
    ensures k.None? <==> KingCells(b, color) == {}
    ensures k.Some? ==> k.value in b.pieces && b.pieces[k.value] == Piece(King, color)
    ensures k.Some? ==> forall c {:trigger c in KingCells(b, color)} :: c in KingCells(b, color) ==> LexLeq(k.value, c)
  {
    var kings := KingCells(b, color);
    if kings == {} then
      None
    else
      LeastExists(kings);
      var m :| IsLeast(m, kings);
      Some(m)
  }

  /** With exactly one king of a colour on the board, get_king finds it. */
  lemma SoleKingFound(b: Board, color: Color, k: HexCoord)
    requires k in b.pieces && b.pieces[k] == Piece(King, color)
    requires forall c :: c in b.pieces && b.pieces[c] == Piece(King, color) ==> c == k
    ensures GetKing(b, color) == Some(k)
  {
    assert k in KingCells(b, color);
  }
}
