# Hex chess rules engine: a Dafny model

This project models the rules engine of a hexagonal-chess program (the `core`
crate). That engine is a sequential, in-memory library with five parts:

- **Axial hex geometry** (`coords.rs`), in module `Coords`. It covers:
  - the `HexCoord` type and its cube form;
  - the neighbour and diagonal offset tables;
  - the cube distance, which is not halved;
  - `line_to`, which uses truncating integer division;
  - hexagon membership and the Gliński file/rank lookup;
  - the cell set of each `BoardType`.
- **Pieces** (`pieces.rs`): the piece values and their symbols live in module
  `Pieces`. The eight move generators and `get_moves` live in module `MoveGen`.
- **Board** (`board.rs`), in module `Boards`. It covers:
  - a map from cells to pieces, restricted to the board's cells, with a colour
    for every cell;
  - placement, removal and moving;
  - the king and per-colour queries;
  - `with_move`.

  The per-cell move query (`get_valid_moves` / `is_valid_move`) needs the
  generators, so it sits in `MoveGen`.
- **Game** (`game.rs`), in module `Games`. The `Game` class covers turn order,
  the rejection cascade of `make_move`, and the check / checkmate / stalemate
  classification. It also covers `undo_move`, which replays the last recorded
  move backwards.
- **Variants** (`variants.rs`), in module `Variants`. This covers the eight
  starting layouts as data, plus `create_board`, which silently skips
  placements off the board.

Modelling choices:

- **Board is a value.** The source's `Board` is an owned, cloneable value, so
  it is a datatype here. Each `&mut self` operation is a function from the
  board before to a `Mutation`, which holds the board after and the value the
  operation returned.
- **Game is a class.** Its methods reassign its fields. The judgements those
  methods compute are first defined as functions of a board: in check, can
  escape, checkmated, stalemated and the classification. Each loop is then
  proved against them.
- **Loops become methods.** Where the source fills a collection in a loop, the
  model has a method with invariants, proved equal to a specifying function:
  `LineTo`, `ValidCoords`, `GenerateCellColors`, `NewBoard`,
  `MoveGen.GetValidMoves`, `CreateBoard` and the game's searches.
- **Generators are functions.** The generators only read the board, so they
  are functions. A slider's `while` loop is the recursive `Ray`. It terminates
  because the set of board cells still ahead along the direction shrinks.

Where the code and its comments or tests disagree, the model follows the code:

- `distance_to` sums `|dq| + |dr| + |ds|` without halving. Neighbours are
  therefore at distance 2, and the test's 1 and 2 are 2 and 6 here.
- The king has 12 destinations: its 6 neighbours plus its 6 diagonals.
- `move_piece` reports a White Pawn when nothing was captured.
- `update_game_state` stores the **winner** in `Checkmate`. The comment on the
  enum says otherwise.
- The three-colour cell pattern of `generate_cell_colors` takes `(q + r + s) % 3`.
  The cube components always sum to 0, so every cell is `Light`.
- `file_rank_to_axial` is documented as the lookup for the radius-5 board. Yet
  f11 maps to (0,-6) and l1 to (5,4), both outside that hexagon
  (`Coords.FileRankLeavesHexagon`).

## Model

| member | source | states |
|---|---|---|
| Coords.ToCube | crates/core/src/coords.rs:18-20 | The cube form keeps q and r, and its three components always sum to 0. |
| Coords.FromCube | crates/core/src/coords.rs:23-25 | Rebuilding from cube components keeps q and r and ignores s. It inverts `ToCube` whenever the components sum to 0. |
| Coords.Add | crates/core/src/coords.rs:163-169 | No contract of its own: component-wise sum. `Coords.AddSubInverse` and `Coords.AddSubExamples` state its properties. |
| Coords.Sub | crates/core/src/coords.rs:171-177 | No contract of its own: component-wise difference. `Coords.AddSubInverse` and `Coords.AddSubExamples` state its properties. |
| Coords.AddSubInverse | crates/core/src/coords.rs:163-177 | Subtraction undoes addition, and addition undoes subtraction. Addition is commutative. `a - b` is the origin exactly when `a == b`. |
| Coords.AddSubExamples | crates/core/src/coords.rs:240-245 | The values in the unit test of the operators. |
| Coords.DistanceTo | crates/core/src/coords.rs:52-56 | The distance is 0 exactly when the two cells are equal. |
| Coords.DistanceSymmetricAndEven | crates/core/src/coords.rs:52-56 | The distance is symmetric and always even, because it is not halved. |
| Coords.DistanceExamples | crates/core/src/coords.rs:249-256 | The code gives 2 for a neighbour and 6 for (2,1), where the unit test expects 1 and 2. |
| Coords.Neighbors | crates/core/src/coords.rs:28-37 | Exactly six cells, pairwise distinct, none equal to the centre. |
| Coords.DiagonalNeighbors | crates/core/src/coords.rs:40-49 | Exactly six cells, pairwise distinct, none equal to the centre. |
| Coords.NeighborOffsetsInOrder | crates/core/src/coords.rs:28-49 | Both lists are the centre plus the fixed offset tables, in table order. |
| Coords.NeighborDistances | crates/core/src/coords.rs:28-56 | Neighbours are at distance 2 and diagonals at distance 4, so the two lists share no cell. |
| Coords.TruncDiv | crates/core/src/coords.rs:67-68 | Rust's `/` on i32 rounds toward zero. So for a non-negative dividend `a` the remainder `a - n*x` lies in [0, n), and for a negative one it lies in (-n, 0]. |
| Coords.TruncDivMultiple | crates/core/src/coords.rs:67-68 | Truncating division of an exact multiple gives the factor back, for negative factors too. |
| Coords.LineTo | crates/core/src/coords.rs:59-72 | Gives `[a]` at distance 0. Otherwise gives distance + 1 interpolated points, each computed with truncating division, from `a` to `b` inclusive. |
| Coords.InHexagon | crates/core/src/coords.rs:75-78 | No contract of its own: abs(q), abs(r) and abs(s) are all at most the radius. `Coords.InHexagonIsDistanceBall`, `Coords.OriginInHexagon` and `Coords.HexagonBoundsExamples` carry its meaning. |
| Coords.InHexagonIsDistanceBall | crates/core/src/coords.rs:75-78 | A cell is in the hexagon of radius R exactly when its (unhalved) distance from the origin is at most 2R. |
| Coords.OriginInHexagon | crates/core/src/coords.rs:75-78 | The origin lies in every hexagon of non-negative radius. |
| Coords.HexagonBoundsExamples | crates/core/src/coords.rs:259-266 | The cases in the unit test of `in_hexagon`. |
| Coords.FileRankToAxial | crates/core/src/coords.rs:102-161 | A result implies a rank in 1..11, `r = 5 - rank` and `q` the file's fixed index. File 'j', an unknown file or a rank outside 1..11 gives None. |
| Coords.FileRankLeavesHexagon | crates/core/src/coords.rs:107-161 | Though documented as the lookup for the radius-5 board, it maps f11 to (0,-6) and l1 to (5,4), both outside that hexagon. |
| Coords.FileRankInjective | crates/core/src/coords.rs:111-161 | Two (file, rank) pairs that map to the same cell are the same pair. |
| Coords.FileRankDomain | crates/core/src/coords.rs:111-161 | Only the eleven listed files, with ranks 1..11, map to a cell. |
| Coords.LowRankCount | crates/core/src/coords.rs:111-161 | Ranks 1 to 6 are defined on every file. |
| Coords.OnRankWindow | crates/core/src/coords.rs:111-161 | On ranks 7 to 11, a listed file names a cell exactly when its q satisfies abs(q) <= 11 - rank. |
| Coords.WindowCount | crates/core/src/coords.rs:111-161 | Counts the files from a given position on that name a cell on a rank from 7 to 11. The count is the part of the window abs(q) <= 11 - rank at or after that position. |
| Coords.RankCount | crates/core/src/coords.rs:111-161 | Ranks 7, 8, 9, 10 and 11 have 9, 7, 5, 3 and 1 cells. |
| Coords.NinetyOneSquares | crates/core/src/coords.rs:111-161 | Exactly 91 (file, rank) pairs map to a cell. |
| Coords.HexagonCellsMembership | crates/core/src/coords.rs:192-224 | The cell set of a hexagon is exactly the cells passing `in_hexagon`. |
| Coords.HexagonCount | crates/core/src/coords.rs:192-224 | The hexagon of radius R has 3R² + 3R + 1 cells. |
| Coords.AddColumn | crates/core/src/coords.rs:197-202 | One pass of the inner loop adds exactly the column's hexagon cells, and the count grows by that column's length. |
| Coords.HexagonCoords | crates/core/src/coords.rs:192-205 | The nested loops produce exactly the hexagon's cells: 3R² + 3R + 1 of them, or none for a negative radius. |
| Coords.ValidCoords | crates/core/src/coords.rs:192-224 | Regular(R) gives the radius-R hexagon with 3R² + 3R + 1 cells. Small gives the radius-3 hexagon, 37 cells. Irregular gives no cells. |
| Coords.RegularCellsAreHexagon | crates/core/src/coords.rs:192-224 | Membership of a Regular or Small board's cells is `in_hexagon` of its radius. Radius 1 includes the origin and (±1, 0), as the unit test checks. |
| Coords.Center | crates/core/src/coords.rs:227-232 | No contract of its own: (0,0) for every shape. `Coords.CenterOnBoard` states that it is a board cell. |
| Coords.CenterOnBoard | crates/core/src/coords.rs:227-232 | The centre is (0,0) for every shape, and it is a cell of every Regular board of non-negative radius, and of Small. |
| Pieces.Opponent | crates/core/src/game.rs:181-186 | The other side differs from the given one. |
| Pieces.Symbol | crates/core/src/pieces.rs:39-55 | White symbols are upper-case letters and Black symbols lower-case. |
| Pieces.SymbolInjective | crates/core/src/pieces.rs:39-55 | Different pieces show different symbols, and Black's symbol is White's lower-cased. |
| Pieces.SymbolExamples | crates/core/src/pieces.rs:277-283 | 'K' and 'k' for the kings, as the unit test checks, plus 'N' and 'a'. |
| Boards.RustRem | crates/core/src/board.rs:53 | Rust's `%`: `a == n * (a / n) + a % n` with the truncating quotient, and the remainder is smaller than the divisor in magnitude and takes the sign of the dividend. |
| Boards.CellColorOf | crates/core/src/board.rs:48-63 | Every cell of every shape is coloured Light. |
| Boards.GenerateCellColors | crates/core/src/board.rs:42-68 | The loop colours exactly the given cells, all Light. |
| Boards.EmptyBoard | crates/core/src/board.rs:29-39 | No contract of its own: the value `Board::new` builds. `Boards.NewBoard` is proved equal to it and states its validity, emptiness and cells. |
| Boards.NewBoard | crates/core/src/board.rs:29-39 | A new board has no pieces, the shape's cells, and a colour for exactly those cells. |
| Boards.GetPiece | crates/core/src/board.rs:85-92 | Gives a piece exactly when the cell is occupied, and that piece is the cell's. |
| Boards.PlacePiece | crates/core/src/board.rs:71-77 | Fails with InvalidCoordinate, changing nothing, exactly when the cell is off the board. Otherwise the cell holds the piece and every other cell is unchanged. Board validity is preserved. |
| Boards.RemovePiece | crates/core/src/board.rs:80-82 | Returns what stood on the cell and leaves it empty. Every other cell is unchanged and validity is preserved. |
| Boards.MovePiece | crates/core/src/board.rs:117-132 | Fails with InvalidCoordinate when either end is off the board, and with NoPieceAtCoordinate when `from` is empty; both change nothing. On success: `to` holds the mover, `from` is empty when `from != to`, and all other cells are unchanged. It returns the displaced piece, or a White Pawn when there was none. Validity is preserved. |
| Boards.MoveBackRestores | crates/core/src/board.rs:117-132 | Moving a piece and moving it straight back, then putting back what stood on the destination, gives the original board. |
| Boards.WithMove | crates/core/src/board.rs:179-183 | Succeeds exactly when both cells are on the board and `from` is occupied. Then it is `move_piece`'s board; otherwise it is `move_piece`'s error. |
| Boards.PiecesByColor | crates/core/src/board.rs:100-106 | Exactly the entries of the given colour, with their pieces. |
| Boards.PiecesByColorPartition | crates/core/src/board.rs:100-106 | The two colours split the pieces between them, with no overlap. |
| Boards.LeastExists | crates/core/src/board.rs:109-114 | Every non-empty set of cells has a lexicographically least cell. This is what makes the choice of king deterministic. |
| Boards.GetKing | crates/core/src/board.rs:109-114 | None exactly when the colour has no king. Otherwise it gives a cell holding that colour's king, namely the lexicographically least such cell. |
| Boards.SoleKingFound | crates/core/src/board.rs:109-114 | With exactly one king of a colour, `get_king` finds that one. |
| MoveGen.Ray | crates/core/src/pieces.rs:117-124 | The slider loop emits successive steps along the direction while they are on the board. Every emitted cell but the last is empty, and the ray stops after the first occupied cell or at the edge. |
| MoveGen.Slide | crates/core/src/pieces.rs:103-156 | Every sliding destination is a cell of the board other than the origin square. |
| MoveGen.RookMoves | crates/core/src/pieces.rs:103-128 | No contract of its own: the slide along the six rook directions. `MoveGen.Slide`, `MoveGen.Ray` and `MoveExamples.RookAtCentre` state what it gives. |
| MoveGen.BishopMoves | crates/core/src/pieces.rs:131-156 | No contract of its own: the slide along the six diagonal directions. `MoveGen.Slide` and `MoveGen.Ray` state what it gives. |
| MoveGen.OnBoard | crates/core/src/pieces.rs:74-92 | The on-board filter keeps exactly the listed cells that are on the board, and never adds any. |
| MoveGen.KingMoves | crates/core/src/pieces.rs:74-92 | A cell is a king destination exactly when it is a neighbour or diagonal neighbour on the board, whatever stands there. There are at most 12. |
| MoveGen.KnightMoves | crates/core/src/pieces.rs:159-186 | A cell is a knight destination exactly when it is one of the 12 leaps and on the board; occupancy is ignored. |
| MoveGen.Captures | crates/core/src/pieces.rs:207-227 | A capture cell is a pawn destination exactly when it is on the board and holds an enemy piece. |
| MoveGen.PawnMoves | crates/core/src/pieces.rs:189-230 | Destinations are exactly the colour's forward step onto an empty cell and its two diagonal captures onto enemy pieces. There are at most 3, and the source requires a piece on `from`. |
| MoveGen.GetMoves | crates/core/src/pieces.rs:60-71 | Every generated destination is a cell of the board. |
| MoveGen.KeepValid | crates/core/src/board.rs:135-176 | The filter keeps exactly the targets that pass `is_valid_move`. |
| MoveGen.KeepValidSingle | crates/core/src/board.rs:141-150 | One target is kept, alone, exactly when it passes `is_valid_move`; otherwise nothing is kept. |
| MoveGen.KeepValidAppend | crates/core/src/board.rs:141-150 | Filtering a concatenation gives the concatenation of the filtered parts. With the single-target case, this fixes the output as the sub-sequence of `get_moves` in generator order, with repetitions kept (the Archbishop's diagonal cells reached by both bishop rays and knight leaps appear twice). |
| MoveGen.IsValidMove | crates/core/src/board.rs:157-176 | No contract of its own: the target is on the board and does not hold a piece of the mover's colour. Its meaning is carried by `MoveGen.ValidMoves` and `MoveGen.ValidMoveApplies`. |
| MoveGen.ValidMoves | crates/core/src/board.rs:135-176 | Empty for an empty cell. Otherwise exactly the generator's targets that are on the board and not held by the mover's colour. |
| MoveGen.GetValidMoves | crates/core/src/board.rs:135-154 | The loop returns exactly the filtered list, in generator order. |
| MoveGen.ValidMoveApplies | crates/core/src/board.rs:135-183 | On a valid board, a move that `get_valid_moves` offers is accepted by `with_move`, and its target differs from its source. |
| MoveGen.CompoundKinds | crates/core/src/pieces.rs:95-100 | Queen is rook then bishop. Lines 233-246 add Chancellor (rook then knight) and Archbishop (bishop then knight). All three are plain concatenations. |
| MoveGen.OnBoardIgnoresPieces | crates/core/src/pieces.rs:74-92 | The on-board filter depends only on the board's cells. |
| MoveGen.LeapersIgnoreOccupancy | crates/core/src/pieces.rs:74-92 | With the same cells, king and knight destinations are the same whatever stands where, so knights jump over pieces. Lines 159-186 give the knight's part. |
| MoveGen.OnBoardKeepsAll | crates/core/src/pieces.rs:74-92 | When every listed cell is on the board, nothing is filtered out. |
| MoveGen.RayOfTwo | crates/core/src/pieces.rs:117-124 | On an empty board with two cells before the edge, the ray has length two. |
| MoveGen.SlideOfTwos | crates/core/src/pieces.rs:103-128 | When every ray has two cells, the slide has twice as many cells as there are directions. |
| MoveExamples.KingAtCentre | crates/core/src/pieces.rs:74-92 | At the centre of any board containing the radius-2 hexagon, the king has exactly 12 destinations. |
| MoveExamples.KingMovesOnNewBoard | crates/core/src/pieces.rs:255-263 | The king at the centre of a new radius-2 board has 12 moves. |
| MoveExamples.RookAtCentre | crates/core/src/pieces.rs:103-128 | At the centre of an empty radius-2 hexagon, the rook has exactly 12 destinations: two along each of six directions. |
| MoveExamples.RookMovesOnNewBoard | crates/core/src/pieces.rs:265-274 | On a new radius-2 board the rook at the centre has exactly 12 moves, so more than 6. |
| Variants.Restrict | crates/core/src/variants.rs:42-53 | Keeps exactly the placements on the given cells, with their pieces. |
| Variants.StartingBoard | crates/core/src/variants.rs:42-53 | The board is valid and of the config's shape. It holds exactly the starting placements that are on its cells. |
| Variants.CreateBoard | crates/core/src/variants.rs:42-53 | The placement loop builds exactly the starting board, skipping off-board entries. |
| Variants.PawnBlock | crates/core/src/variants.rs:248-289 | The pawn loops place a pawn of the colour on exactly the cells of the row and column window inside the hexagon. |
| Variants.All | crates/core/src/variants.rs:61-72 | The catalogue lists eight variants. |
| Variants.OffBoardEntryIgnored | crates/core/src/variants.rs:42-53 | Adding an off-board placement does not change the board built. |
| Variants.OnBoardEntryPlaced | crates/core/src/variants.rs:42-53 | Adding an on-board placement sets exactly that cell. |
| Variants.IrregularBoardStaysEmpty | crates/core/src/variants.rs:42-53 | An Irregular board starts empty, whatever the placements. |
| Variants.PlaceholderVariants | crates/core/src/variants.rs:211-245 | Shafran, Brusky and De Vasa have Irregular boards, no placements and no special rules, so they start empty. |
| Variants.RestrictUnion | crates/core/src/variants.rs:42-53 | Restriction distributes over union. |
| Variants.McCooeyBackRanksOff | crates/core/src/variants.rs:160-208 | Every McCooey back-rank entry lies outside the radius-3 board. |
| Variants.McCooeyKeepsOnlyPawns | crates/core/src/variants.rs:160-208 | The McCooey board holds exactly the two pawn blocks: White's rows 2 to 3 and Black's rows -3 to -2, inside the hexagon. |
| Variants.OnlyPawnsNoKing | crates/core/src/board.rs:109-114 | `get_king` gives None on a board holding only pawns. |
| Variants.McCooeyHasNoKings | crates/core/src/variants.rs:160-208 | The McCooey board has no king of either colour. |
| Variants.MiniPawnsOnBoard | crates/core/src/variants.rs:248-289 | Mini Hexchess's pawns all lie on the Small board and none on a dropped cell. |
| Variants.MiniBackRanksOnBoard | crates/core/src/variants.rs:248-289 | A Mini back-rank entry is on the board exactly when it is not one of the four dropped cells. |
| Variants.MiniDropsQueensAndKnights | crates/core/src/variants.rs:248-289 | The Mini board is the placements minus exactly (1,3), (2,3), (-1,-3) and (-2,-3). |
| Variants.MiniDroppedPieces | crates/core/src/variants.rs:248-289 | The four dropped placements are White's queen and knight and Black's queen and knight. |
| Variants.MiniCentreEmpty | crates/core/src/variants.rs:248-289 | The centre of the Mini board is empty. |
| Variants.GlinskiChess | crates/core/src/variants.rs:75-157 | No contract of its own: radius 5 and both sides' placements. The `Variants.Glinski…` lemmas state its layout. |
| Variants.McCooeyChess | crates/core/src/variants.rs:160-208 | No contract of its own: the radius-3 board and both sides' placements. `Variants.McCooeyBackRanksOff`, `Variants.McCooeyKeepsOnlyPawns` and `Variants.McCooeyHasNoKings` state its layout. |
| Variants.ShafranChess | crates/core/src/variants.rs:211-221 | No contract of its own: an Irregular board with no placements. `Variants.PlaceholderVariants` states it. |
| Variants.BruskyChess | crates/core/src/variants.rs:224-233 | No contract of its own: an Irregular board with no placements. `Variants.PlaceholderVariants` states it. |
| Variants.DeVasaChess | crates/core/src/variants.rs:236-245 | No contract of its own: an Irregular board with no placements. `Variants.PlaceholderVariants` states it. |
| Variants.MiniHexchess | crates/core/src/variants.rs:248-289 | No contract of its own: the Small board, back ranks and pawn blocks. The `Variants.Mini…` lemmas state its layout. |
| Variants.GlinskiCapablancaChess | crates/core/src/variants.rs:292-304 | No contract of its own: Gliński plus four fairy inserts. `Variants.GlinskiCapablancaLayout` states its layout. |
| Variants.McCooeyCapablancaChess | crates/core/src/variants.rs:307-319 | No contract of its own: McCooey plus four fairy inserts. `Variants.McCooeyCapablancaLayout` states its layout. |
| Variants.GlinskiSquares | crates/core/src/variants.rs:75-157 | The file/rank squares of Gliński's setup all exist, with the cells given. |
| Variants.GlinskiWhiteOnBoard | crates/core/src/variants.rs:75-157 | Every White Gliński placement is on the radius-5 board, in rows r ≥ 0. |
| Variants.GlinskiBlackOnBoard | crates/core/src/variants.rs:75-157 | Every Black Gliński placement is on the radius-5 board, in rows r < 0. |
| Variants.GlinskiAllPlaced | crates/core/src/variants.rs:75-157 | `create_board` keeps every Gliński placement. |
| Variants.GlinskiWhiteKing | crates/core/src/variants.rs:75-157 | White's placements are all White, with one king at g1 = (1,4). |
| Variants.GlinskiBlackKing | crates/core/src/variants.rs:75-157 | Black's placements are all Black, with one king at (3,-4). |
| Variants.GlinskiSidesDisjoint | crates/core/src/variants.rs:75-157 | No cell is given to both sides. |
| Variants.GlinskiKings | crates/core/src/variants.rs:75-157 | On the Gliński starting board, `get_king` finds (1,4) for White and (3,-4) for Black. |
| Variants.FairyInsertsHalfPlaced | crates/core/src/variants.rs:292-304 | Of four inserts over a base layout, only the on-board ones change the board built. |
| Variants.FairyInsertsAllDropped | crates/core/src/variants.rs:307-319 | Four off-board inserts leave the board built unchanged. |
| Variants.GlinskiCapablancaLayout | crates/core/src/variants.rs:292-304 | Same shape, pawn rule and special rules as Gliński. On the board, the two Archbishops are placed on two empty cells and both Chancellors are dropped. |
| Variants.McCooeyCapablancaLayout | crates/core/src/variants.rs:307-319 | Same shape and rules as McCooey, and the same starting board: all four fairy pieces are dropped. |
| Games.Classify | crates/core/src/game.rs:180-194 | The state assigned is never Draw. |
| Games.ClassifyCases | crates/core/src/game.rs:140-194 | The checks run in order: checkmate, then stalemate, then check, then playing. Checkmate means in check with no escape, and stores the opponent (the winner). Stalemate means not in check with no escape. The two never hold together. |
| Games.InCheck | crates/core/src/game.rs:118-137 | No contract of its own: some opposing piece's raw moves reach the colour's king. `Games.Game.IsKingInCheck` is proved equal to it. |
| Games.EscapesFrom | crates/core/src/game.rs:146-154 | No contract of its own: some valid move of the piece leaves the colour out of check. `Games.Game.PieceEscapes` is proved equal to it. |
| Games.CanEscape | crates/core/src/game.rs:145-156 | No contract of its own: some piece of the colour has such a move. `Games.Game.HasEscapeMove` is proved equal to it. |
| Games.Checkmated | crates/core/src/game.rs:140-157 | No contract of its own: in check and no escape. `Games.ClassifyCases` and `Games.Game.IsCheckmate` carry it. |
| Games.Stalemated | crates/core/src/game.rs:160-177 | No contract of its own: not in check and no escape. `Games.ClassifyCases` and `Games.Game.IsStalemate` carry it. |
| Games.Validation | crates/core/src/game.rs:92-115 | No contract of its own: the rejection cascade. `Games.ValidationOrder`, `Games.ValidationAccepts` and `Games.ValidatedMoveApplies` state it. |
| Games.ValidationOrder | crates/core/src/game.rs:92-115 | NoPieceAtCoordinate exactly when `from` is empty. NotYourPiece exactly when the piece is the other side's. InvalidMove exactly when the target is not among the valid moves. |
| Games.ValidationAccepts | crates/core/src/game.rs:92-115 | On a valid board no board error surfaces. A move is accepted exactly when it is the mover's, offered by `get_valid_moves`, and leaves the mover out of check. |
| Games.ValidatedMoveApplies | crates/core/src/game.rs:57-66 | After validation passes, the piece lookup and `move_piece` in `make_move` cannot fail. |
| Games.Unplay | crates/core/src/game.rs:211-233 | The reverse move fails exactly when a cell is off the board or `to` is empty. Otherwise `from` gets the mover back and `to` gets the recorded capture. Every other cell keeps its piece, and validity is preserved. |
| Games.UndoInvertsMove | crates/core/src/game.rs:211-233 | Replaying a legal move's record backwards gives back the board before it. |
| Games.Recorded | crates/core/src/game.rs:68-77 | The history grows by one entry holding the move, the piece moved, the prior occupant of `to`, and move number `len/2 + 1`. |
| Games.MiniCentreRejected | crates/core/src/game.rs:282-289 | On the Mini board, a move from the empty centre is rejected with NoPieceAtCoordinate first. |
| Games.Game.constructor | crates/core/src/game.rs:40-50 | Starts with the variant's board, White to move, empty history and Playing. |
| Games.Game.IsKingInCheck | crates/core/src/game.rs:118-137 | The scan answers exactly "some opposing piece's raw moves reach the king". It is false when there is no king. |
| Games.Game.EscapeAmong | crates/core/src/game.rs:148-153 | The inner loop finds a target after which the side is out of check exactly when one exists. |
| Games.Game.PieceEscapes | crates/core/src/game.rs:146-154 | One piece's valid moves include an escape exactly when one exists. |
| Games.Game.HasEscapeMove | crates/core/src/game.rs:145-156 | Some piece of the side has an escaping move exactly when one exists. |
| Games.Game.IsCheckmate | crates/core/src/game.rs:140-157 | True exactly when the side is in check and has no escape. |
| Games.Game.IsStalemate | crates/core/src/game.rs:160-177 | True exactly when the side is not in check and has no escape. |
| Games.Game.UpdateGameState | crates/core/src/game.rs:180-194 | Stores the classification of the position for the side to move. |
| Games.Game.ValidateMove | crates/core/src/game.rs:92-115 | Returns exactly the cascade's verdict and changes nothing. |
| Games.Game.Play | crates/core/src/game.rs:57-86 | The board becomes the moved board, one record is appended and the turn passes. The state is reclassified and validity is kept. |
| Games.Game.MakeMove | crates/core/src/game.rs:53-89 | The result is the cascade's verdict. A rejected move changes nothing. An accepted one moves the piece, records it, passes the turn and reclassifies. |
| Games.Game.UndoMove | crates/core/src/game.rs:211-233 | With an empty history it gives NoMovesToUndo and changes nothing. Otherwise it pops the last record and replays it backwards. On success it passes the turn back and reclassifies. |
| Games.Game.GetValidMoves | crates/core/src/game.rs:197-208 | Lists exactly the side to move's pieces that have a valid move, each once, with its valid-move list. |
| Games.Game.GetResult | crates/core/src/game.rs:236-249 | A verdict exactly for Checkmate, Stalemate and Draw, with the fixed texts and the winner's name. On a valid game, where Draw never occurs, only for Checkmate and Stalemate. |
| Games.MoveThenUndo | crates/core/src/game.rs:53-89 | A successful move followed by an undo succeeds. Together they restore the board, the side to move and the history exactly. Lines 211-233 give the undo. |

## Left out

- `to_pixel` / `from_pixel` (crates/core/src/coords.rs:83-96) are floating-point screen geometry and are not modelled.
- i32, u8 and u32 overflow is not modelled: integers are unbounded.
- Iteration order of hash maps and sets is not modelled:
  - `get_king` takes the first king in hash order. The model takes the lexicographically least, which is the same whenever a side has one king.
  - `get_pieces_by_color` is a map.
  - `Game::get_valid_moves` lists pieces in an unspecified order.
  - The searches visit pieces in an unspecified order.
- `PawnMovement` and `SpecialRule` are carried as data but never consulted. There is no en passant, castling or promotion.
- The `eprintln!` diagnostic in `create_board`, serde derives and the `thiserror` message texts of the error enums are left out.
- Games.Game.MakeMove, Games.Game.UndoMove, Games.Game.IsCheckmate, Games.Game.IsStalemate and Games.Game.UpdateGameState require a board whose pieces stand on its cells. The source's fields are public, so a caller could break that. The `unwrap`s in the checkmate search would then panic, and that panic is not modelled.
- Games.Game.Valid also excludes `Draw`, which no operation assigns.
- Variants.GlinskiChess: the count of its placements (18 per side, 36 in all) is not stated. The model proves that both sides' cells are disjoint, that every placement lands on the board, and that each side has exactly one king. The number of entries in an 18-entry map display is not proved.
- Variants.MiniHexchess: the count of 24 entries and 20 placed pieces is not stated. The model proves which four entries are dropped and that the pawn blocks are exactly the hexagon cells of their rows.
- Board mutation in place is modelled by value. `with_move`'s clone and the receiver being unchanged hold trivially, and aliasing of boards does not arise.
- The builders' sequences of `insert` calls are written as map displays and unions. Later inserts overwrite earlier ones, as the Capablanca builders rely on.
- The other crates are not part of this model: the Bevy front end (rendering, input, clocks, its own legality filters) and the websocket signalling server.
