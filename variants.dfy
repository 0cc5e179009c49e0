/**
 * The variant catalogue (crates/core/src/variants.rs): each variant is a board shape
 * and a starting map from cells to pieces, and create_board places every entry that
 * lies on the board, skipping the others.
 */
module Variants {
  import opened Wrappers
  import opened Coords
  import opened Pieces
  import opened Boards

  /** Carried by every variant but never consulted by move generation. */
  datatype PawnMovement = Standard | ThreeDirection | CustomMovement(offsets: seq<HexCoord>)

  /** Carried by every variant but never consulted by move generation. */
  datatype SpecialRule = EnPassant | Castling | CustomRule(rule: string)

  datatype VariantConfig = VariantConfig(
    name: string,
    description: string,
    boardType: BoardType,
    startingPositions: map<HexCoord, Piece>,
    pawnMovement: PawnMovement,
    specialRules: seq<SpecialRule>)

  /** The entries of a starting map whose cell is in `cells`. */
  function Restrict(positions: map<HexCoord, Piece>, cells: set<HexCoord>): (kept: map<HexCoord, Piece>)
    ensures forall c {:trigger c in kept} :: c in kept <==> c in positions && c in cells
    ensures forall c {:trigger kept[c]} :: c in kept ==> kept[c] == positions[c]
  {
    map c | c in positions && c in cells :: positions[c]
  }

  /** The board create_board produces: the empty board of the variant's shape with
      every on-board entry of the starting map placed. */
  function StartingBoard(config: VariantConfig): (b: Board)
    ensures b.Valid() && b.boardType == config.boardType && b.validCoords == Cells(config.boardType)
    ensures forall c :: c in b.pieces <==> c in config.startingPositions && c in Cells(config.boardType)
    ensures forall c <- b.pieces :: b.pieces[c] == config.startingPositions[c]
  {
    EmptyBoard(config.boardType).(pieces := Restrict(config.startingPositions, Cells(config.boardType)))
  }

  /** One more entry taken from `rest`: the restricted map gains it exactly when its
      cell is in `cells`. */
  lemma RestrictStep(positions: map<HexCoord, Piece>, rest: set<HexCoord>, c: HexCoord, cells: set<HexCoord>)
    requires c in rest && rest <= positions.Keys
    ensures Restrict(positions - (rest - {c}), cells) ==
      if c in cells then Restrict(positions - rest, cells)[c := positions[c]] else Restrict(positions - rest, cells)
  {
  }

  /** create_board: place the entries one by one; a refused placement (a cell off
      the board) leaves the board as it was and the loop goes on. */
  method CreateBoard(config: VariantConfig) returns (b: Board)
    ensures b == StartingBoard(config)
  {
    var positions := config.startingPositions;
    var cells := Cells(config.boardType);
    b := NewBoard(config.boardType);
    var rest := positions.Keys;
    while rest != {}
      invariant rest <= positions.Keys
      invariant b == EmptyBoard(config.boardType).(pieces := Restrict(positions - rest, cells))
      decreases rest
    {
      var c :| c in rest;
      var placed := PlacePiece(b, c, positions[c]);
      RestrictStep(positions, rest, c, cells);
      b := placed.board;
      rest := rest - {c};
    }
    assert positions - rest == positions;
  }

  // ---------------------------------------------------------------------------
  // The catalogue

  /** The pawns a builder's nested loop inserts: every cell with q in [q0, q1] and
      r in [r0, r1] that lies in the hexagon of the given radius. */
  function PawnBlock(q0: int, q1: int, r0: int, r1: int, radius: int, color: Color): (block: map<HexCoord, Piece>)
    ensures forall c :: c in block <==> q0 <= c.q <= q1 && r0 <= c.r <= r1 && InHexagon(c, radius)
    ensures forall c <- block :: block[c] == Piece(Pawn, color)
  {
    var cells := set q: int, r: int | q0 <= q <= q1 && r0 <= r <= r1 && InHexagon(HexCoord(q, r), radius)
      :: HexCoord(q, r);
    assert forall c: HexCoord :: c in cells <==> q0 <= c.q <= q1 && r0 <= c.r <= r1 && InHexagon(c, radius) by {
      forall c: HexCoord | q0 <= c.q <= q1 && r0 <= c.r <= r1 && InHexagon(c, radius) ensures c in cells {
        assert c == HexCoord(c.q, c.r);
      }
    }
    map c | c in cells :: Piece(Pawn, color)
  }

  /** Gliński's White placements, in the order the builder inserts them; the
      file/rank lookups all succeed. */
  const GlinskiWhite: map<HexCoord, Piece> := map[
    FileRankToAxial('b', 1).value := Piece(Rook, White),
    FileRankToAxial('c', 1).value := Piece(Bishop, White),
    FileRankToAxial('d', 1).value := Piece(Knight, White),
    FileRankToAxial('e', 1).value := Piece(Queen, White),
    FileRankToAxial('g', 1).value := Piece(King, White),
    HexCoord(0, 4) := Piece(Knight, White),
    HexCoord(1, 3) := Piece(Bishop, White),
    HexCoord(2, 3) := Piece(Rook, White),
    FileRankToAxial('b', 2).value := Piece(Pawn, White),
    FileRankToAxial('c', 2).value := Piece(Pawn, White),
    FileRankToAxial('d', 3).value := Piece(Pawn, White),
    FileRankToAxial('e', 4).value := Piece(Pawn, White),
    FileRankToAxial('f', 5).value := Piece(Pawn, White),
    FileRankToAxial('g', 4).value := Piece(Pawn, White),
    FileRankToAxial('h', 3).value := Piece(Pawn, White),
    HexCoord(2, 1) := Piece(Pawn, White),
    HexCoord(1, 2) := Piece(Pawn, White),
    FileRankToAxial('f', 3).value := Piece(Bishop, White)]

  /** Gliński's Black placements, inserted after the White ones. */
  const GlinskiBlack: map<HexCoord, Piece> := map[
    HexCoord(0, -2) := Piece(Bishop, Black),
    HexCoord(-2, -2) := Piece(Pawn, Black),
    HexCoord(-1, -2) := Piece(Pawn, Black),
    HexCoord(0, -3) := Piece(Pawn, Black),
    HexCoord(1, -3) := Piece(Pawn, Black),
    HexCoord(0, -1) := Piece(Pawn, Black),
    HexCoord(1, -2) := Piece(Pawn, Black),
    HexCoord(2, -2) := Piece(Pawn, Black),
    HexCoord(2, -3) := Piece(Pawn, Black),
    HexCoord(3, -3) := Piece(Pawn, Black),
    HexCoord(-1, -4) := Piece(Rook, Black),
    HexCoord(0, -4) := Piece(Bishop, Black),
    HexCoord(1, -4) := Piece(Knight, Black),
    HexCoord(2, -4) := Piece(Queen, Black),
    HexCoord(3, -4) := Piece(King, Black),
    HexCoord(4, -4) := Piece(Knight, Black),
    HexCoord(4, -3) := Piece(Bishop, Black),
    HexCoord(5, -3) := Piece(Rook, Black)]

  function GlinskiChess(): VariantConfig {
    VariantConfig(
      "Gliński's Chess",
      "91 cells, regular hexagon",
      Regular(5),
      GlinskiWhite + GlinskiBlack,
      Standard,
      [EnPassant])
  }

  /** McCooey's back ranks, one row outside its radius-3 board. */
  const McCooeyWhiteBackRank: map<HexCoord, Piece> := map[
    HexCoord(0, 4) := Piece(King, White),
    HexCoord(1, 4) := Piece(Queen, White),
    HexCoord(-1, 4) := Piece(Bishop, White),
    HexCoord(2, 4) := Piece(Bishop, White),
    HexCoord(-2, 4) := Piece(Knight, White),
    HexCoord(3, 4) := Piece(Knight, White),
    HexCoord(-3, 4) := Piece(Rook, White)]

  const McCooeyBlackBackRank: map<HexCoord, Piece> := map[
    HexCoord(0, -4) := Piece(King, Black),
    HexCoord(-1, -4) := Piece(Queen, Black),
    HexCoord(1, -4) := Piece(Bishop, Black),
    HexCoord(-2, -4) := Piece(Bishop, Black),
    HexCoord(2, -4) := Piece(Knight, Black),
    HexCoord(-3, -4) := Piece(Knight, Black),
    HexCoord(3, -4) := Piece(Rook, Black)]

  function McCooeyChess(): VariantConfig {
    VariantConfig(
      "McCooey's Chess",
      "81 cells, regular hexagon",
      Regular(3),
      PawnBlock(-3, 3, 2, 3, 3, White) + McCooeyWhiteBackRank
        + PawnBlock(-3, 3, -3, -2, 3, Black) + McCooeyBlackBackRank,
      Standard,
      [EnPassant])
  }

  function ShafranChess(): VariantConfig {
    VariantConfig("Shafran's Chess", "Irregular board layout", Irregular, map[], Standard, [])
  }

  function BruskyChess(): VariantConfig {
    VariantConfig("Brusky's Chess", "Irregular board layout", Irregular, map[], Standard, [])
  }

  function DeVasaChess(): VariantConfig {
    VariantConfig("De Vasa's Chess", "Irregular board layout", Irregular, map[], Standard, [])
  }

  const MiniWhiteBackRank: map<HexCoord, Piece> := map[
    HexCoord(0, 3) := Piece(King, White),
    HexCoord(1, 3) := Piece(Queen, White),
    HexCoord(-1, 3) := Piece(Bishop, White),
    HexCoord(2, 3) := Piece(Knight, White),
    HexCoord(-2, 3) := Piece(Rook, White)]

  const MiniBlackBackRank: map<HexCoord, Piece> := map[
    HexCoord(0, -3) := Piece(King, Black),
    HexCoord(-1, -3) := Piece(Queen, Black),
    HexCoord(1, -3) := Piece(Bishop, Black),
    HexCoord(-2, -3) := Piece(Knight, Black),
    HexCoord(2, -3) := Piece(Rook, Black)]

  function MiniHexchess(): VariantConfig {
    VariantConfig(
      "Mini Hexchess",
      "37 cells, small hexagon",
      Small,
      PawnBlock(-2, 2, 1, 2, 2, White) + MiniWhiteBackRank
        + PawnBlock(-2, 2, -2, -1, 2, Black) + MiniBlackBackRank,
      Standard,
      [])
  }

  function GlinskiCapablancaChess(): VariantConfig {
    var config := GlinskiChess();
    config.(
      name := "Gliński-Capablanca Chess",
      description := "91 cells with fairy pieces",
      startingPositions := config.startingPositions
        [HexCoord(2, 5) := Piece(Chancellor, White)]
        [HexCoord(-2, 5) := Piece(Archbishop, White)]
        [HexCoord(-2, -5) := Piece(Chancellor, Black)]
        [HexCoord(2, -5) := Piece(Archbishop, Black)])
  }

  function McCooeyCapablancaChess(): VariantConfig {
    var config := McCooeyChess();
    config.(
      name := "McCooey-Capablanca Chess",
      description := "81 cells with fairy pieces",
      startingPositions := config.startingPositions
        [HexCoord(2, 4) := Piece(Chancellor, White)]
        [HexCoord(-2, 4) := Piece(Archbishop, White)]
        [HexCoord(-2, -4) := Piece(Chancellor, Black)]
        [HexCoord(2, -4) := Piece(Archbishop, Black)])
  }

  function All(): (variants: seq<VariantConfig>)
    ensures |variants| == 8
  {
    [GlinskiChess(), McCooeyChess(), ShafranChess(), BruskyChess(), DeVasaChess(),
     MiniHexchess(), GlinskiCapablancaChess(), McCooeyCapablancaChess()]
  }

  // ---------------------------------------------------------------------------
  // What create_board keeps

  /** An entry for a cell off the board changes nothing on the board create_board builds. */
  lemma OffBoardEntryIgnored(config: VariantConfig, c: HexCoord, p: Piece)
    requires c !in Cells(config.boardType)
    ensures StartingBoard(config.(startingPositions := config.startingPositions[c := p])) == StartingBoard(config)
  {
    var config' := config.(startingPositions := config.startingPositions[c := p]);
    assert StartingBoard(config').pieces == StartingBoard(config).pieces;
  }

  /** An entry for a cell on the board lands there, overwriting what the map held. */
  lemma OnBoardEntryPlaced(config: VariantConfig, c: HexCoord, p: Piece)
    requires c in Cells(config.boardType)
    ensures StartingBoard(config.(startingPositions := config.startingPositions[c := p])).pieces
      == StartingBoard(config).pieces[c := p]
  {
  }

  /** An Irregular board has no cells, so every entry is dropped. */
  lemma IrregularBoardStaysEmpty(config: VariantConfig)
    requires config.boardType == Irregular
    ensures StartingBoard(config).pieces == map[]
  {
  }

  /** The three irregular variants are placeholders: no pieces, no special rules,
      and an empty board. */
  lemma PlaceholderVariants()
    ensures ShafranChess().boardType == Irregular && ShafranChess().startingPositions == map[]
      && ShafranChess().specialRules == [] && StartingBoard(ShafranChess()).pieces == map[]
    ensures BruskyChess().boardType == Irregular && BruskyChess().startingPositions == map[]
      && BruskyChess().specialRules == [] && StartingBoard(BruskyChess()).pieces == map[]
    ensures DeVasaChess().boardType == Irregular && DeVasaChess().startingPositions == map[]
      && DeVasaChess().specialRules == [] && StartingBoard(DeVasaChess()).pieces == map[]
  {
    IrregularBoardStaysEmpty(ShafranChess());
    IrregularBoardStaysEmpty(BruskyChess());
    IrregularBoardStaysEmpty(DeVasaChess());
  }

  /** Restriction distributes over map union (the right operand wins on shared keys). */
  lemma RestrictUnion(a: map<HexCoord, Piece>, b: map<HexCoord, Piece>, cells: set<HexCoord>)
    ensures Restrict(a + b, cells) == Restrict(a, cells) + Restrict(b, cells)
  {
  }

  /** Restricting to a set that holds every key changes nothing. */
  lemma RestrictAllOn(a: map<HexCoord, Piece>, cells: set<HexCoord>)
    requires a.Keys <= cells
    ensures Restrict(a, cells) == a
  {
  }

  /** Restricting to a set disjoint from the keys leaves nothing. */
  lemma RestrictAllOff(a: map<HexCoord, Piece>, cells: set<HexCoord>)
    requires a.Keys !! cells
    ensures Restrict(a, cells) == map[]
  {
  }

  /** Every cell of McCooey's back ranks is outside the radius-3 hexagon. */
  lemma McCooeyBackRanksOff()
    ensures McCooeyWhiteBackRank.Keys !! HexagonCells(3)
    ensures McCooeyBlackBackRank.Keys !! HexagonCells(3)
  {
    forall c | c in McCooeyWhiteBackRank.Keys + McCooeyBlackBackRank.Keys ensures c !in HexagonCells(3) {
      HexagonCellsMembership(c, 3);
    }
  }

  /** Pawn blocks drawn inside a hexagon lie on that hexagon's board. */
  lemma PawnBlockOn(q0: int, q1: int, r0: int, r1: int, radius: int, color: Color, cells: set<HexCoord>)
    requires forall c :: InHexagon(c, radius) ==> c in cells
    ensures PawnBlock(q0, q1, r0, r1, radius, color).Keys <= cells
  {
  }

  /** A builder of the McCooey / Mini shape (white pawns, white back rank, black
      pawns, black back rank) whose pawns all lie on the board: create_board keeps
      the pawns and the on-board part of each back rank. */
  lemma RestrictBuilder(pw: map<HexCoord, Piece>, wbr: map<HexCoord, Piece>,
                        pb: map<HexCoord, Piece>, bbr: map<HexCoord, Piece>, cells: set<HexCoord>)
    requires pw.Keys <= cells && pb.Keys <= cells
    ensures Restrict(pw + wbr + pb + bbr, cells) == pw + Restrict(wbr, cells) + pb + Restrict(bbr, cells)
  {
    RestrictUnion(pw + wbr + pb, bbr, cells);
    RestrictUnion(pw + wbr, pb, cells);
    RestrictUnion(pw, wbr, cells);
    RestrictAllOn(pw, cells);
    RestrictAllOn(pb, cells);
  }

  /** When both back ranks lie off the board, create_board keeps only the pawns. */
  lemma RestrictDropsBackRanks(pw: map<HexCoord, Piece>, wbr: map<HexCoord, Piece>,
                               pb: map<HexCoord, Piece>, bbr: map<HexCoord, Piece>, cells: set<HexCoord>)
    requires pw.Keys <= cells && pb.Keys <= cells
    requires wbr.Keys !! cells && bbr.Keys !! cells
    ensures Restrict(pw + wbr + pb + bbr, cells) == pw + pb
  {
    RestrictBuilder(pw, wbr, pb, bbr, cells);
    RestrictAllOff(wbr, cells);
    RestrictAllOff(bbr, cells);
    assert pw + map[] + pb + map[] == pw + pb;
  }

  /** McCooey's back ranks lie one row outside the radius-3 board, so create_board
      keeps only the pawns. */
  lemma McCooeyKeepsOnlyPawns()
    ensures StartingBoard(McCooeyChess()).pieces
      == PawnBlock(-3, 3, 2, 3, 3, White) + PawnBlock(-3, 3, -3, -2, 3, Black)
  {
    var cells := HexagonCells(3);
    forall c | InHexagon(c, 3) ensures c in cells {
      HexagonCellsMembership(c, 3);
    }
    PawnBlockOn(-3, 3, 2, 3, 3, White, cells);
    PawnBlockOn(-3, 3, -3, -2, 3, Black, cells);
    McCooeyBackRanksOff();
    RestrictDropsBackRanks(PawnBlock(-3, 3, 2, 3, 3, White), McCooeyWhiteBackRank,
      PawnBlock(-3, 3, -3, -2, 3, Black), McCooeyBlackBackRank, cells);
  }

  /** A board holding only pawns has no king of either colour. */
  lemma OnlyPawnsNoKing(b: Board, color: Color)
    requires forall c <- b.pieces :: b.pieces[c].kind == Pawn
    ensures GetKing(b, color) == None
  {
  }

  /** So the McCooey board create_board builds has no king on either side. */
  lemma McCooeyHasNoKings(color: Color)
    ensures GetKing(StartingBoard(McCooeyChess()), color) == None
  {
    McCooeyKeepsOnlyPawns();
    OnlyPawnsNoKing(StartingBoard(McCooeyChess()), color);
  }

  /** Restriction removes exactly the keys outside the set. */
  lemma RestrictIsRemoval(m: map<HexCoord, Piece>, cells: set<HexCoord>, gone: set<HexCoord>)
    requires forall c <- m :: c in cells <==> c !in gone
    ensures Restrict(m, cells) == m - gone
  {
  }

  /** The Mini Hexchess entries that fall off the Small board: the White queen and
      knight at (1,3), (2,3) and the Black queen and knight at (-1,-3), (-2,-3). */
  const MiniDropped: set<HexCoord> := {HexCoord(1, 3), HexCoord(2, 3), HexCoord(-1, -3), HexCoord(-2, -3)}

  /** Builder-shaped starting maps lose exactly the `gone` cells when every part
      keeps the cells of the board that are not gone. */
  lemma RestrictBuilderIsRemoval(pw: map<HexCoord, Piece>, wbr: map<HexCoord, Piece>,
                                 pb: map<HexCoord, Piece>, bbr: map<HexCoord, Piece>,
                                 cells: set<HexCoord>, gone: set<HexCoord>)
    requires forall c <- pw :: c in cells && c !in gone
    requires forall c <- pb :: c in cells && c !in gone
    requires forall c <- wbr :: c in cells <==> c !in gone
    requires forall c <- bbr :: c in cells <==> c !in gone
    ensures Restrict(pw + wbr + pb + bbr, cells) == (pw + wbr + pb + bbr) - gone
  {
    RestrictIsRemoval(pw + wbr + pb + bbr, cells, gone);
  }

  /** Mini's pawns stand in the radius-2 hexagon, inside the Small board, on rows
      other than the back rows. */
  lemma MiniPawnsOnBoard(r0: int, r1: int, color: Color)
    requires -2 <= r0 && r1 <= 2
    ensures forall c <- PawnBlock(-2, 2, r0, r1, 2, color) :: c in Cells(Small) && c !in MiniDropped
  {
    forall c | c in PawnBlock(-2, 2, r0, r1, 2, color) ensures c in HexagonCells(3) {
      HexagonCellsMembership(c, 3);
    }
  }

  /** On Mini's back rows, the queen and knight cells are off the Small board and
      the other three are on it. */
  lemma MiniBackRanksOnBoard()
    ensures forall c <- MiniWhiteBackRank :: c in Cells(Small) <==> c !in MiniDropped
    ensures forall c <- MiniBlackBackRank :: c in Cells(Small) <==> c !in MiniDropped
  {
    forall c | c in MiniWhiteBackRank.Keys + MiniBlackBackRank.Keys ensures c in HexagonCells(3) <==> c !in MiniDropped {
      HexagonCellsMembership(c, 3);
    }
  }

  /** create_board on Mini Hexchess places every entry but the four dropped ones,
      which are the two queens and the two knights. */
  lemma MiniDropsQueensAndKnights()
    ensures StartingBoard(MiniHexchess()).pieces == MiniHexchess().startingPositions - MiniDropped
  {
    MiniPawnsOnBoard(1, 2, White);
    MiniPawnsOnBoard(-2, -1, Black);
    MiniBackRanksOnBoard();
    RestrictBuilderIsRemoval(PawnBlock(-2, 2, 1, 2, 2, White), MiniWhiteBackRank,
      PawnBlock(-2, 2, -2, -1, 2, Black), MiniBlackBackRank, Cells(Small), MiniDropped);
  }

  /** The centre of Mini Hexchess starts empty: no part of the builder names (0,0). */
  lemma MiniCentreEmpty()
    ensures Origin !in StartingBoard(MiniHexchess()).pieces
  {
    var pw, pb := PawnBlock(-2, 2, 1, 2, 2, White), PawnBlock(-2, 2, -2, -1, 2, Black);
    assert Origin !in pw && Origin !in pb;
    assert Origin !in MiniWhiteBackRank.Keys + MiniBlackBackRank.Keys;
    assert Origin !in MiniHexchess().startingPositions;
  }

  /** In a builder-shaped map, a back-rank cell that no later part overwrites keeps
      its back-rank piece. */
  lemma BackRankEntry(pw: map<HexCoord, Piece>, wbr: map<HexCoord, Piece>,
                      pb: map<HexCoord, Piece>, bbr: map<HexCoord, Piece>, c: HexCoord)
    requires (c in wbr && c !in pb && c !in bbr) || c in bbr
    ensures c in pw + wbr + pb + bbr
    ensures (pw + wbr + pb + bbr)[c] == if c in bbr then bbr[c] else wbr[c]
  {
  }

  /** The four dropped Mini Hexchess entries are the queens and the knights. */
  lemma MiniDroppedPieces()
    ensures var positions := MiniHexchess().startingPositions;
      HexCoord(1, 3) in positions && positions[HexCoord(1, 3)] == Piece(Queen, White)
      && HexCoord(2, 3) in positions && positions[HexCoord(2, 3)] == Piece(Knight, White)
      && HexCoord(-1, -3) in positions && positions[HexCoord(-1, -3)] == Piece(Queen, Black)
      && HexCoord(-2, -3) in positions && positions[HexCoord(-2, -3)] == Piece(Knight, Black)
  {
    var pw, pb := PawnBlock(-2, 2, 1, 2, 2, White), PawnBlock(-2, 2, -2, -1, 2, Black);
    BackRankEntry(pw, MiniWhiteBackRank, pb, MiniBlackBackRank, HexCoord(1, 3));
    BackRankEntry(pw, MiniWhiteBackRank, pb, MiniBlackBackRank, HexCoord(2, 3));
    BackRankEntry(pw, MiniWhiteBackRank, pb, MiniBlackBackRank, HexCoord(-1, -3));
    BackRankEntry(pw, MiniWhiteBackRank, pb, MiniBlackBackRank, HexCoord(-2, -3));
  }

  /** The file/rank squares Gliński's White setup names, with the cells they denote. */
  lemma GlinskiSquares()
    ensures FileRankToAxial('b', 1) == Some(HexCoord(-4, 4)) && FileRankToAxial('c', 1) == Some(HexCoord(-3, 4))
    ensures FileRankToAxial('d', 1) == Some(HexCoord(-2, 4)) && FileRankToAxial('e', 1) == Some(HexCoord(-1, 4))
    ensures FileRankToAxial('g', 1) == Some(HexCoord(1, 4))
    ensures FileRankToAxial('b', 2) == Some(HexCoord(-4, 3)) && FileRankToAxial('c', 2) == Some(HexCoord(-3, 3))
    ensures FileRankToAxial('d', 3) == Some(HexCoord(-2, 2)) && FileRankToAxial('e', 4) == Some(HexCoord(-1, 1))
    ensures FileRankToAxial('f', 5) == Some(HexCoord(0, 0)) && FileRankToAxial('g', 4) == Some(HexCoord(1, 1))
    ensures FileRankToAxial('h', 3) == Some(HexCoord(2, 2)) && FileRankToAxial('f', 3) == Some(HexCoord(0, 2))
  {
  }

  /** Every White Gliński placement is in the radius-5 hexagon, in rows r >= 0. */
  lemma GlinskiWhiteOnBoard()
    ensures forall c <- GlinskiWhite :: InHexagon(c, 5) && c.r >= 0
  {
    GlinskiSquares();
  }

  /** Every Black Gliński placement is in the radius-5 hexagon, in rows r < 0. */
  lemma GlinskiBlackOnBoard()
    ensures forall c <- GlinskiBlack :: InHexagon(c, 5) && c.r < 0
  {
  }

  /** Maps whose cells all lie in a hexagon survive create_board on that hexagon whole. */
  lemma HexagonKeepsAll(a: map<HexCoord, Piece>, b: map<HexCoord, Piece>, radius: int)
    requires forall c <- a :: InHexagon(c, radius)
    requires forall c <- b :: InHexagon(c, radius)
    ensures Restrict(a + b, HexagonCells(radius)) == a + b
  {
    forall c | c in a + b ensures c in HexagonCells(radius) {
      HexagonCellsMembership(c, radius);
    }
    RestrictAllOn(a + b, HexagonCells(radius));
  }

  /** Every Gliński placement lies on the board, so create_board places them all. */
  lemma GlinskiAllPlaced()
    ensures StartingBoard(GlinskiChess()).pieces == GlinskiChess().startingPositions
  {
    GlinskiWhiteOnBoard();
    GlinskiBlackOnBoard();
    HexagonKeepsAll(GlinskiWhite, GlinskiBlack, 5);
  }

  /** Gliński's White map holds only White pieces, with its one king at g1 = (1,4). */
  lemma GlinskiWhiteKing()
    ensures HexCoord(1, 4) in GlinskiWhite
    ensures forall c <- GlinskiWhite :: GlinskiWhite[c].color == White && (GlinskiWhite[c].kind == King <==> c == HexCoord(1, 4))
  {
    GlinskiSquares();
  }

  /** Gliński's Black map holds only Black pieces, with its one king at (3,-4). */
  lemma GlinskiBlackKing()
    ensures HexCoord(3, -4) in GlinskiBlack
    ensures forall c <- GlinskiBlack :: GlinskiBlack[c].color == Black && (GlinskiBlack[c].kind == King <==> c == HexCoord(3, -4))
  {
  }

  /** White's placements and Black's are on different rows, so no cell is given twice. */
  lemma GlinskiSidesDisjoint()
    ensures GlinskiWhite.Keys !! GlinskiBlack.Keys
  {
    GlinskiWhiteOnBoard();
    GlinskiBlackOnBoard();
  }

  /** Two one-colour maps with one king each: their union has exactly those two kings. */
  lemma TwoSidesOneKingEach(w: map<HexCoord, Piece>, k: map<HexCoord, Piece>, wk: HexCoord, bk: HexCoord)
    requires wk in w && bk in k && w.Keys !! k.Keys
    requires forall c <- w :: w[c].color == White && (w[c].kind == King <==> c == wk)
    requires forall c <- k :: k[c].color == Black && (k[c].kind == King <==> c == bk)
    ensures (w + k)[wk] == Piece(King, White) && (w + k)[bk] == Piece(King, Black)
    ensures forall c <- w + k :: (w + k)[c] == Piece(King, White) ==> c == wk
    ensures forall c <- w + k :: (w + k)[c] == Piece(King, Black) ==> c == bk
  {
  }

  /** On the Gliński board create_board builds, get_king finds g1 = (1,4) for White
      and (3,-4) for Black. */
  lemma GlinskiKings()
    ensures GetKing(StartingBoard(GlinskiChess()), White) == Some(HexCoord(1, 4))
    ensures GetKing(StartingBoard(GlinskiChess()), Black) == Some(HexCoord(3, -4))
  {
    GlinskiAllPlaced();
    GlinskiSidesDisjoint();
    GlinskiWhiteKing();
    GlinskiBlackKing();
    TwoSidesOneKingEach(GlinskiWhite, GlinskiBlack, HexCoord(1, 4), HexCoord(3, -4));
    SoleKingFound(StartingBoard(GlinskiChess()), White, HexCoord(1, 4));
    SoleKingFound(StartingBoard(GlinskiChess()), Black, HexCoord(3, -4));
  }

  /** Four inserts over a base map, the first and third off the board and the second
      and fourth on it: create_board places only the second and fourth. */
  lemma FairyInsertsHalfPlaced(base: VariantConfig, config: VariantConfig,
                               a: HexCoord, pa: Piece, b: HexCoord, pb: Piece,
                               c: HexCoord, pc: Piece, d: HexCoord, pd: Piece)
    requires config.boardType == base.boardType
    requires config.startingPositions == base.startingPositions[a := pa][b := pb][c := pc][d := pd]
    requires a !in Cells(base.boardType) && b in Cells(base.boardType)
    requires c !in Cells(base.boardType) && d in Cells(base.boardType)
    ensures StartingBoard(config).pieces == StartingBoard(base).pieces[b := pb][d := pd]
  {
    var c1 := base.(startingPositions := base.startingPositions[a := pa]);
    var c2 := c1.(startingPositions := c1.startingPositions[b := pb]);
    var c3 := c2.(startingPositions := c2.startingPositions[c := pc]);
    OffBoardEntryIgnored(base, a, pa);
    OnBoardEntryPlaced(c1, b, pb);
    OffBoardEntryIgnored(c2, c, pc);
    OnBoardEntryPlaced(c3, d, pd);
  }

  /** Four inserts over a base map, all off the board: create_board places none. */
  lemma FairyInsertsAllDropped(base: VariantConfig, config: VariantConfig,
                               a: HexCoord, pa: Piece, b: HexCoord, pb: Piece,
                               c: HexCoord, pc: Piece, d: HexCoord, pd: Piece)
    requires config.boardType == base.boardType
    requires config.startingPositions == base.startingPositions[a := pa][b := pb][c := pc][d := pd]
    requires a !in Cells(base.boardType) && b !in Cells(base.boardType)
    requires c !in Cells(base.boardType) && d !in Cells(base.boardType)
    ensures StartingBoard(config).pieces == StartingBoard(base).pieces
  {
    var c1 := base.(startingPositions := base.startingPositions[a := pa]);
    var c2 := c1.(startingPositions := c1.startingPositions[b := pb]);
    var c3 := c2.(startingPositions := c2.startingPositions[c := pc]);
    OffBoardEntryIgnored(base, a, pa);
    OffBoardEntryIgnored(c1, b, pb);
    OffBoardEntryIgnored(c2, c, pc);
    OffBoardEntryIgnored(c3, d, pd);
  }

  /** Gliński-Capablanca keeps Gliński's shape, pawn rule and special rules. Its
      Chancellors at (2,5) and (-2,-5) are off the board and dropped; its Archbishops
      at (-2,5) and (2,-5) are placed. */
  lemma GlinskiCapablancaLayout()
    ensures GlinskiCapablancaChess().boardType == GlinskiChess().boardType
    ensures GlinskiCapablancaChess().pawnMovement == GlinskiChess().pawnMovement
    ensures GlinskiCapablancaChess().specialRules == GlinskiChess().specialRules
    ensures StartingBoard(GlinskiCapablancaChess()).pieces
      == StartingBoard(GlinskiChess()).pieces[HexCoord(-2, 5) := Piece(Archbishop, White)]
                                              [HexCoord(2, -5) := Piece(Archbishop, Black)]
  {
    HexagonCellsMembership(HexCoord(2, 5), 5);
    HexagonCellsMembership(HexCoord(-2, 5), 5);
    HexagonCellsMembership(HexCoord(-2, -5), 5);
    HexagonCellsMembership(HexCoord(2, -5), 5);
    FairyInsertsHalfPlaced(GlinskiChess(), GlinskiCapablancaChess(),
      HexCoord(2, 5), Piece(Chancellor, White), HexCoord(-2, 5), Piece(Archbishop, White),
      HexCoord(-2, -5), Piece(Chancellor, Black), HexCoord(2, -5), Piece(Archbishop, Black));
  }

  /** McCooey-Capablanca keeps McCooey's shape, pawn rule and special rules, and all
      four of its fairy cells lie on the back rows, off the board: create_board
      builds the same board as for McCooey's Chess. */
  lemma McCooeyCapablancaLayout()
    ensures McCooeyCapablancaChess().boardType == McCooeyChess().boardType
    ensures McCooeyCapablancaChess().pawnMovement == McCooeyChess().pawnMovement
    ensures McCooeyCapablancaChess().specialRules == McCooeyChess().specialRules
    ensures StartingBoard(McCooeyCapablancaChess()).pieces == StartingBoard(McCooeyChess()).pieces
  {
    HexagonCellsMembership(HexCoord(2, 4), 3);
    HexagonCellsMembership(HexCoord(-2, 4), 3);
    HexagonCellsMembership(HexCoord(-2, -4), 3);
    HexagonCellsMembership(HexCoord(2, -4), 3);
    FairyInsertsAllDropped(McCooeyChess(), McCooeyCapablancaChess(),
      HexCoord(2, 4), Piece(Chancellor, White), HexCoord(-2, 4), Piece(Archbishop, White),
      HexCoord(-2, -4), Piece(Chancellor, Black), HexCoord(2, -4), Piece(Archbishop, Black));
  }
}
