/**
 * The king's and the rook's move counts from the unit tests of
 * crates/core/src/pieces.rs, proved for the board Board::new builds (the king's
 * also for every board that contains the radius-2 hexagon).
 */
module MoveExamples {
  import opened Coords
  import opened Pieces
  import opened Boards
  import opened MoveGen

  /** At the centre of a radius-2 hexagon a king has all twelve steps. */
  lemma KingAtCentre(b: Board)
    requires forall c :: InHexagon(c, 2) ==> c in b.validCoords
    ensures |KingMoves(b, Origin)| == 12
  {
    OnBoardKeepsAll(b, Neighbors(Origin));
    OnBoardKeepsAll(b, DiagonalNeighbors(Origin));
  }

  /** The case named by the crate's unit test, on the board Board::new builds. */
  lemma KingMovesOnNewBoard()
    ensures |GetMoves(King, Origin, EmptyBoard(Regular(2)))| == 12
  {
    var b := EmptyBoard(Regular(2));
    forall c | InHexagon(c, 2) ensures c in b.validCoords {
      HexagonCellsMembership(c, 2);
    }
    KingAtCentre(b);
  }

  /** A unit step (a non-zero cell of the radius-1 hexagon) taken once or twice
      from the centre stays inside the radius-2 hexagon; taken three times it
      leaves it. */
  lemma UnitStepsFromCentre(d: HexCoord)
    requires d != Origin && InHexagon(d, 1)
    ensures InHexagon(d, 2) && InHexagon(Add(d, d), 2)
    ensures !InHexagon(Add(Add(d, d), d), 2)
  {
  }

  /** On an empty board whose cells are the radius-2 hexagon, each rook ray from
      the centre holds two cells. */
  lemma RookRayOnHexagon(b: Board, d: HexCoord)
    requires b.pieces == map[]
    requires forall c {:trigger c in b.validCoords} :: c in b.validCoords <==> InHexagon(c, 2)
    requires d in RookDirections
    ensures d != Origin && |Ray(b, Add(Origin, d), d)| == 2
  {
    assert d != Origin && InHexagon(d, 1);
    UnitStepsFromCentre(d);
    RayOfTwo(b, d);
  }

  /** A rook at the centre of an empty radius-2 hexagon slides two cells in each
      of its six directions: twelve destinations, not merely more than six. */
  lemma RookAtCentre(b: Board)
    requires b.pieces == map[]
    requires forall c {:trigger c in b.validCoords} :: c in b.validCoords <==> InHexagon(c, 2)
    ensures |RookMoves(b, Origin)| == 12
  {
    forall d | d in RookDirections
      ensures |Ray(b, Add(Origin, d), d)| == 2
    {
      RookRayOnHexagon(b, d);
    }
    SlideOfTwos(b, RookDirections);
  }

  /** get_moves sends a rook to the rook generator. */
  lemma RookDispatch(b: Board, from: HexCoord)
    ensures GetMoves(Rook, from, b) == RookMoves(b, from)
  {
  }

  /** The board Board::new builds for the radius-2 hexagon: empty, with exactly
      the cells of that hexagon. */
  lemma NewBoardRadiusTwo(b: Board)
    requires b == EmptyBoard(Regular(2))
    ensures b.pieces == map[]
    ensures forall c {:trigger c in b.validCoords} :: c in b.validCoords <==> InHexagon(c, 2)
  {
    forall c | true ensures c in b.validCoords <==> InHexagon(c, 2) {
      HexagonCellsMembership(c, 2);
    }
  }

  /** The case named by the crate's unit test, on the board Board::new builds. */
  lemma RookMovesOnNewBoard(b: Board)
    requires b == EmptyBoard(Regular(2))
    ensures |GetMoves(Rook, Origin, b)| == 12
  {
    NewBoardRadiusTwo(b);
    RookAtCentre(b);
    RookDispatch(b, Origin);
  }
}
