/**
 * The game (crates/core/src/game.rs): whose turn it is, the list of moves played,
 * the check / checkmate / stalemate classification and the move and undo
 * operations that change them.
 *
 * `Game` is a class: make_move, undo_move and update_game_state change its
 * fields in place. The positional judgements it relies on (is the king attacked,
 * is there a move that leaves it safe) are stated first as functions of a board;
 * the methods that loop over the pieces are proved against them.
 */
module Games {
  import opened Wrappers
  import opened Coords
  import opened Pieces
  import opened Boards
  import opened MoveGen
  import opened Variants

  /** The outcome so far. Checkmate carries the WINNER: update_game_state stores
      the opponent of the side that has no escape. */
  datatype GameState = Playing | Check(inCheck: Color) | Checkmate(winner: Color) | Stalemate | Draw

  /** One entry of the move history. */
  datatype Move = Move(from: HexCoord, to: HexCoord, piece: Piece, capturedPiece: Option<Piece>, moveNumber: nat)

  datatype GameError =
    | NoPieceAtCoordinate
    | NotYourPiece
    | InvalidMove
    | MoveWouldPutKingInCheck
    | NoMovesToUndo
    | BoardErr(error: BoardError)

  // ---------------------------------------------------------------------------
  // Positional judgements

  /** The piece on `from` reaches `target` with its raw generator (own-colour
      targets are not filtered out, as in is_king_in_check). */
  predicate Attacks(b: Board, from: HexCoord, target: HexCoord) {
    from in b.pieces && target in GetMoves(b.pieces[from].kind, from, b)
  }

  /** is_king_in_check: a side without a king is never in check; otherwise some
      opposing piece reaches the king's cell. */
  predicate InCheck(b: Board, color: Color) {
    match GetKing(b, color)
    case None => false
    case Some(k) =>
      exists c {:trigger Attacks(b, c, k)} :: c in b.pieces && b.pieces[c].color == Opponent(color) && Attacks(b, c, k)
  }

  /** Some move get_valid_moves offers the piece on `from` leaves `color` out of check. */
  predicate EscapesFrom(b: Board, color: Color, from: HexCoord) {
    exists to {:trigger MovePiece(b, from, to)} :: to in ValidMoves(b, from) && !InCheck(MovePiece(b, from, to).board, color)
  }

  /** One more step of the escape search: when the moves to the first `i` targets
      and the move to target `i` all leave `color` in check, so do the first i + 1. */
  lemma InCheckPrefixGrows(b: Board, color: Color, from: HexCoord, targets: seq<HexCoord>, i: nat)
    requires i < |targets|
    requires forall j :: 0 <= j < i ==> InCheck(MovePiece(b, from, targets[j]).board, color)
    requires InCheck(MovePiece(b, from, targets[i]).board, color)
    ensures forall j :: 0 <= j < i + 1 ==> InCheck(MovePiece(b, from, targets[j]).board, color)
  {
  }

  /** Some piece of `color` has such a move: the search both is_checkmate and
      is_stalemate run. */
  predicate CanEscape(b: Board, color: Color) {
    exists from {:trigger EscapesFrom(b, color, from)} :: from in b.pieces && b.pieces[from].color == color && EscapesFrom(b, color, from)
  }

  predicate Checkmated(b: Board, color: Color) {
    InCheck(b, color) && !CanEscape(b, color)
  }

  predicate Stalemated(b: Board, color: Color) {
    !InCheck(b, color) && !CanEscape(b, color)
  }

  /** The state update_game_state assigns for the side to move: checkmate first,
      then stalemate, then check, then playing. */
  function Classify(b: Board, player: Color): (s: GameState)
    ensures s != Draw
  {
    if Checkmated(b, player) then Checkmate(Opponent(player))
    else if Stalemated(b, player) then Stalemate
    else if InCheck(b, player) then Check(player)
    else Playing
  }

  /** Each state Classify assigns, with exactly the condition for it. Checkmate
      needs the king attacked and stalemate needs it safe, so no position is both;
      Checkmate names the side that delivered it. */
  lemma ClassifyCases(b: Board, player: Color)
    ensures Classify(b, player).Checkmate? <==> InCheck(b, player) && !CanEscape(b, player)
    ensures Classify(b, player).Checkmate? ==> Classify(b, player).winner == Opponent(player)
    ensures Classify(b, player) == Stalemate <==> !InCheck(b, player) && !CanEscape(b, player)
    ensures Classify(b, player).Check? <==> InCheck(b, player) && CanEscape(b, player)
    ensures Classify(b, player).Check? ==> Classify(b, player).inCheck == player
    ensures Classify(b, player) == Playing <==> !InCheck(b, player) && CanEscape(b, player)
    ensures !(Checkmated(b, player) && Stalemated(b, player))
  {
  }

  /** validate_move's cascade: the first failing test decides the error. */
  function Validation(b: Board, player: Color, from: HexCoord, to: HexCoord): (r: Result<(), GameError>) {
    if from !in b.pieces then Err(GameError.NoPieceAtCoordinate)
    else if b.pieces[from].color != player then Err(NotYourPiece)
    else if to !in ValidMoves(b, from) then Err(GameError.InvalidMove)
    else match WithMove(b, from, to)
      case Err(e) => Err(BoardErr(e))
      case Ok(test) => if InCheck(test, player) then Err(MoveWouldPutKingInCheck) else Ok(())
  }

  /** The order of the rejections: the first failing test decides the error. */
  lemma ValidationOrder(b: Board, player: Color, from: HexCoord, to: HexCoord)
    ensures Validation(b, player, from, to) == Err(GameError.NoPieceAtCoordinate) <==> from !in b.pieces
    ensures Validation(b, player, from, to) == Err(NotYourPiece) <==>
      from in b.pieces && b.pieces[from].color != player
    ensures Validation(b, player, from, to) == Err(GameError.InvalidMove) <==>
      from in b.pieces && b.pieces[from].color == player && to !in ValidMoves(b, from)
  {
  }

  /** On a valid board the board error with_move could raise never surfaces, and a
      move is accepted exactly when it is the mover's, offered by get_valid_moves,
      and leaves the mover's king safe. */
  lemma ValidationAccepts(b: Board, player: Color, from: HexCoord, to: HexCoord)
    requires b.Valid()
    ensures Validation(b, player, from, to).Err? ==> !Validation(b, player, from, to).error.BoardErr?
    ensures Validation(b, player, from, to) == Ok(()) <==>
      from in b.pieces && b.pieces[from].color == player && to in ValidMoves(b, from) &&
      !InCheck(MovePiece(b, from, to).board, player)
  {
    if from in b.pieces && to in ValidMoves(b, from) {
      ValidMoveApplies(b, from, to);
    }
  }

  /** A move that passed validation has a piece on `from`, and move_piece accepts it. */
  lemma ValidatedMoveApplies(b: Board, player: Color, from: HexCoord, to: HexCoord)
    requires Validation(b, player, from, to) == Ok(())
    ensures from in b.pieces && b.pieces[from].color == player
    ensures MovePiece(b, from, to).result.Ok?
  {
  }

  /** What undo_move does to the board: move the piece back from `to` to `from`,
      then put the captured piece, if any, back on `to`. */
  function Unplay(b: Board, mv: Move): (r: Result<Board, BoardError>)
    ensures r.Err? <==> !IsValidCoord(b, mv.to) || !IsValidCoord(b, mv.from) || !IsOccupied(b, mv.to)
    ensures r.Err? ==> r.error == MovePiece(b, mv.to, mv.from).result.error
    ensures r.Ok? ==> r.value.validCoords == b.validCoords && r.value.cellColors == b.cellColors
    ensures r.Ok? && b.Valid() ==> r.value.Valid()
    ensures r.Ok? && mv.from != mv.to ==> GetPiece(r.value, mv.from) == Some(b.pieces[mv.to])
    ensures r.Ok? && mv.from != mv.to ==> GetPiece(r.value, mv.to) == mv.capturedPiece
    ensures r.Ok? ==> forall c {:trigger GetPiece(r.value, c)} :: c != mv.from && c != mv.to ==> GetPiece(r.value, c) == GetPiece(b, c)
  {
    var m := MovePiece(b, mv.to, mv.from);
    if m.result.Err? then Err(m.result.error)
    else if mv.capturedPiece.Some? then Ok(PlacePiece(m.board, mv.to, mv.capturedPiece.value).board)
    else Ok(m.board)
  }

  /** Undo inverts a legal move: replaying the recorded move backwards on the board
      after it gives back the board before, piece for piece. */
  lemma UndoInvertsMove(b: Board, from: HexCoord, to: HexCoord, n: nat)
    requires b.Valid() && to in ValidMoves(b, from)
    ensures Unplay(MovePiece(b, from, to).board, Move(from, to, b.pieces[from], GetPiece(b, to), n)) == Ok(b)
  {
    ValidMoveApplies(b, from, to);
    MoveBackRestores(b, from, to);
  }

  /** The history after make_move records a move from `from` to `to` on `b`: the
      piece moved, what stood on `to`, and the full-move number (two entries per
      number, counting from 1). */
  function Recorded(history: seq<Move>, b: Board, from: HexCoord, to: HexCoord): (h: seq<Move>)
    requires from in b.pieces
    ensures |h| == |history| + 1 && h[..|history|] == history
    ensures h[|history|].piece == b.pieces[from] && h[|history|].capturedPiece == GetPiece(b, to)
    ensures h[|history|].from == from && h[|history|].to == to
    ensures h[|history|].moveNumber == |history| / 2 + 1
  {
    history + [Move(from, to, b.pieces[from], GetPiece(b, to), |history| / 2 + 1)]
  }

  /** The cells listed first in each entry of a move list. */
  function Firsts(moves: seq<(HexCoord, seq<HexCoord>)>): (cells: seq<HexCoord>)
    ensures |cells| == |moves|
    ensures forall i :: 0 <= i < |moves| ==> cells[i] == moves[i].0
  {
    seq(|moves|, i requires 0 <= i < |moves| => moves[i].0)
  }

  /** The strings get_result reports. */
  const WhiteWins := "White wins by checkmate"
  const BlackWins := "Black wins by checkmate"
  const StalemateText := "Draw by stalemate"
  const DrawText := "Draw"

  /** The state of Mini Hexchess at the start: (0,0) is empty, so moving from it
      is rejected first of all (the unit test of validate_move). */
  lemma MiniCentreRejected()
    ensures Validation(StartingBoard(MiniHexchess()), White, Origin, HexCoord(1, 0)) == Err(GameError.NoPieceAtCoordinate)
  {
    MiniCentreEmpty();
  }

  class Game {
    var board: Board
    var currentPlayer: Color
    var moveHistory: seq<Move>
    var gameState: GameState
    var variant: VariantConfig

    /** Pieces stand on cells of the board (so the unwraps in the checkmate
        search cannot fail), and Draw, which nothing assigns, is not the state. */
    predicate Valid()
      reads this
    {
      board.Valid() && gameState != Draw
    }

    /** Game::new: the variant's starting board, White to move, nothing played. */
    constructor(variant: VariantConfig)
      ensures board == StartingBoard(variant) && this.variant == variant
      ensures currentPlayer == White && moveHistory == [] && gameState == Playing
      ensures Valid()
    {
      var b := CreateBoard(variant);
      board := b;
      currentPlayer := White;
      moveHistory := [];
      gameState := Playing;
      this.variant := variant;
    }

    /** is_king_in_check: find the king, then scan the opponent's pieces for one
        whose raw moves reach it. */
    method IsKingInCheck(b: Board, color: Color) returns (inCheck: bool)
      ensures inCheck == InCheck(b, color)
    {
      var king := GetKing(b, color);
      if king.None? {
        return false;
      }
      var k := king.value;
      var theirs := PiecesByColor(b, Opponent(color));
      var rest := theirs.Keys;
      while rest != {}
        invariant rest <= theirs.Keys
        invariant forall c :: c in theirs.Keys - rest ==> !Attacks(b, c, k)
        decreases rest
      {
        var c :| c in rest;
        var moves := GetMoves(theirs[c].kind, c, b);
        if k in moves {
          assert Attacks(b, c, k);
          return true;
        }
        rest := rest - {c};
      }
      assert forall c :: c in b.pieces && b.pieces[c].color == Opponent(color) ==> c in theirs.Keys - rest;
      return false;
    }

    /** The inner loop of the escape search: is one of `targets`, moves of the piece
        on `from` that with_move accepts (the source unwraps its result), a move
        after which `color` is not in check? */
    method EscapeAmong(b: Board, color: Color, from: HexCoord, targets: seq<HexCoord>) returns (found: bool)
      requires forall t :: t in targets ==> WithMove(b, from, t).Ok?
      ensures found <==> exists t :: t in targets && !InCheck(MovePiece(b, from, t).board, color)
    {
      for i := 0 to |targets|
        invariant forall j :: 0 <= j < i ==> InCheck(MovePiece(b, from, targets[j]).board, color)
      {
        var test := WithMove(b, from, targets[i]).value;
        var check := IsKingInCheck(test, color);
        if !check {
          return true;
        }
        InCheckPrefixGrows(b, color, from, targets, i);
      }
      return false;
    }

    /** The escape search for one piece: its valid moves, tried one by one. */
    method PieceEscapes(color: Color, from: HexCoord) returns (found: bool)
      requires board.Valid()
      ensures found == EscapesFrom(board, color, from)
    {
      var targets := MoveGen.GetValidMoves(board, from);
      forall t | t in targets
        ensures WithMove(board, from, t).Ok?
      {
        ValidMoveApplies(board, from, t);
      }
      found := EscapeAmong(board, color, from, targets);
    }

    /** The search shared by is_checkmate and is_stalemate (the source writes the
        same loops in both): does some piece of `color` have a valid move after
        which `color` is not in check? */
    method HasEscapeMove(color: Color) returns (found: bool)
      requires board.Valid()
      ensures found == CanEscape(board, color)
    {
      var mine := PiecesByColor(board, color);
      var rest := mine.Keys;
      while rest != {}
        invariant rest <= mine.Keys
        invariant forall c :: c in mine.Keys - rest ==> !EscapesFrom(board, color, c)
        decreases rest
      {
        var c :| c in rest;
        var escapes := PieceEscapes(color, c);
        if escapes {
          return true;
        }
        rest := rest - {c};
      }
      assert forall c :: c in board.pieces && board.pieces[c].color == color ==> c in mine.Keys - rest;
      return false;
    }

    /** is_checkmate: in check, and no escape. */
    method IsCheckmate(color: Color) returns (mate: bool)
      requires board.Valid()
      ensures mate == Checkmated(board, color)
    {
      var check := IsKingInCheck(board, color);
      if !check {
        return false;
      }
      var escape := HasEscapeMove(color);
      return !escape;
    }

    /** is_stalemate: not in check, and no escape. */
    method IsStalemate(color: Color) returns (stale: bool)
      requires board.Valid()
      ensures stale == Stalemated(board, color)
    {
      var check := IsKingInCheck(board, color);
      if check {
        return false;
      }
      var escape := HasEscapeMove(color);
      return !escape;
    }

    /** update_game_state: classify the position for the side to move. */
    method UpdateGameState()
      requires board.Valid()
      modifies this`gameState
      ensures gameState == Classify(board, currentPlayer)
    {
      var mate := IsCheckmate(currentPlayer);
      if mate {
        gameState := Checkmate(Opponent(currentPlayer));
        return;
      }
      var stale := IsStalemate(currentPlayer);
      if stale {
        gameState := Stalemate;
        return;
      }
      var check := IsKingInCheck(board, currentPlayer);
      if check {
        gameState := Check(currentPlayer);
      } else {
        gameState := Playing;
      }
    }

    /** validate_move: reads the game, changes nothing. */
    method ValidateMove(from: HexCoord, to: HexCoord) returns (r: Result<(), GameError>)
      ensures r == Validation(board, currentPlayer, from, to)
    {
      if from !in board.pieces {
        return Err(GameError.NoPieceAtCoordinate);
      }
      var piece := board.pieces[from];
      if piece.color != currentPlayer {
        return Err(NotYourPiece);
      }
      var valid := MoveGen.GetValidMoves(board, from);
      if to !in valid {
        return Err(GameError.InvalidMove);
      }
      var test := WithMove(board, from, to);
      if test.Err? {
        return Err(BoardErr(test.error));
      }
      var check := IsKingInCheck(test.value, currentPlayer);
      if check {
        return Err(MoveWouldPutKingInCheck);
      }
      return Ok(());
    }

    /** The part of make_move after validation: move the piece, record the move,
        pass the turn and reclassify. */
    method Play(from: HexCoord, to: HexCoord)
      requires Valid() && from in board.pieces && MovePiece(board, from, to).result.Ok?
      modifies this
      ensures Valid() && variant == old(variant)
      ensures board == MovePiece(old(board), from, to).board
      ensures moveHistory == Recorded(old(moveHistory), old(board), from, to)
      ensures currentPlayer == Opponent(old(currentPlayer))
      ensures gameState == Classify(board, currentPlayer)
    {
      var piece := board.pieces[from];
      var captured := GetPiece(board, to);
      var m := MovePiece(board, from, to);
      board := m.board;
      var moveNumber := |moveHistory| / 2 + 1;
      moveHistory := moveHistory + [Move(from, to, piece, captured, moveNumber)];
      assert moveHistory == Recorded(old(moveHistory), old(board), from, to);
      currentPlayer := Opponent(currentPlayer);
      UpdateGameState();
    }

    /** make_move: validate; on success move the piece, record the move, pass the
        turn and reclassify. A rejected move changes nothing. The later `?`s of
        the source (the piece lookup and move_piece) cannot fail once validation
        has passed, as ValidatedMoveApplies shows. */
    method MakeMove(from: HexCoord, to: HexCoord) returns (r: Result<(), GameError>)
      requires Valid()
      modifies this
      ensures Valid() && variant == old(variant)
      ensures r == Validation(old(board), old(currentPlayer), from, to)
      ensures r.Err? ==> (board == old(board) && currentPlayer == old(currentPlayer) &&
                          moveHistory == old(moveHistory) && gameState == old(gameState))
      ensures r.Ok? ==> board == MovePiece(old(board), from, to).board
      ensures r.Ok? ==> moveHistory == Recorded(old(moveHistory), old(board), from, to)
      ensures r.Ok? ==> currentPlayer == Opponent(old(currentPlayer))
      ensures r.Ok? ==> gameState == Classify(board, currentPlayer)
    {
      r := ValidateMove(from, to);
      if r.Err? {
        return;
      }
      ValidatedMoveApplies(board, currentPlayer, from, to);
      Play(from, to);
    }

    /** undo_move: pop the last move and replay it backwards. The pop happens
        first, so when the board refuses the reverse move the history has still
        lost its last entry while board, player and state stay as they were. */
    method UndoMove() returns (r: Result<(), GameError>)
      requires Valid()
      modifies this
      ensures Valid() && variant == old(variant)
      ensures old(moveHistory) == [] ==> (r == Err(NoMovesToUndo) && moveHistory == [] &&
                                          board == old(board) && currentPlayer == old(currentPlayer) &&
                                          gameState == old(gameState))
      ensures old(moveHistory) != [] ==> moveHistory == old(moveHistory)[..|old(moveHistory)| - 1]
      ensures old(moveHistory) != [] ==>
        var back := Unplay(old(board), old(moveHistory)[|old(moveHistory)| - 1]);
        if back.Err? then
          r == Err(BoardErr(back.error)) && board == old(board) &&
          currentPlayer == old(currentPlayer) && gameState == old(gameState)
        else
          r == Ok(()) && board == back.value && currentPlayer == Opponent(old(currentPlayer)) &&
          gameState == Classify(board, currentPlayer)
    {
      if moveHistory == [] {
        return Err(NoMovesToUndo);
      }
      var last := moveHistory[|moveHistory| - 1];
      moveHistory := moveHistory[..|moveHistory| - 1];
      var m := MovePiece(board, last.to, last.from);
      if m.result.Err? {
        return Err(BoardErr(m.result.error));
      }
      board := m.board;
      if last.capturedPiece.Some? {
        var p := PlacePiece(board, last.to, last.capturedPiece.value);
        assert p.result.Ok?;
        board := p.board;
      }
      currentPlayer := Opponent(currentPlayer);
      UpdateGameState();
      return Ok(());
    }

    /** get_valid_moves (of the game): each piece of the side to move that has a
        valid move, with its list; one entry per such piece, in no particular order. */
    method GetValidMoves() returns (moves: seq<(HexCoord, seq<HexCoord>)>)
      ensures forall c {:trigger c in Firsts(moves)} :: c in Firsts(moves) <==>
        c in board.pieces && board.pieces[c].color == currentPlayer && ValidMoves(board, c) != []
      ensures forall i :: 0 <= i < |moves| ==> moves[i].1 == ValidMoves(board, moves[i].0)
      ensures forall i, j :: 0 <= i < j < |moves| ==> moves[i].0 != moves[j].0
    {
      var mine := PiecesByColor(board, currentPlayer);
      var rest := mine.Keys;
      moves := [];
      while rest != {}
        invariant rest <= mine.Keys
        invariant forall c {:trigger c in Firsts(moves)} :: c in Firsts(moves) <==>
          c in mine.Keys - rest && ValidMoves(board, c) != []
        invariant forall i :: 0 <= i < |moves| ==> moves[i].1 == ValidMoves(board, moves[i].0)
        invariant forall i, j :: 0 <= i < j < |moves| ==> moves[i].0 != moves[j].0
        decreases rest
      {
        var c :| c in rest;
        var pieceMoves := MoveGen.GetValidMoves(board, c);
        if pieceMoves != [] {
          assert c !in Firsts(moves);
          assert Firsts(moves + [(c, pieceMoves)]) == Firsts(moves) + [c];
          moves := moves + [(c, pieceMoves)];
        }
        rest := rest - {c};
      }
    }

    /** get_result: a verdict for a finished game, none while it goes on. */
    function GetResult(): (r: Option<string>)
      reads this
      ensures r.Some? <==> gameState.Checkmate? || gameState == Stalemate || gameState == Draw
      ensures gameState == Checkmate(White) ==> r == Some(WhiteWins)
      ensures gameState == Checkmate(Black) ==> r == Some(BlackWins)
      ensures gameState == Stalemate ==> r == Some(StalemateText)
      ensures gameState == Draw ==> r == Some(DrawText)
      ensures Valid() && r.Some? ==> gameState.Checkmate? || gameState == Stalemate
    {
      match gameState
      case Checkmate(winner) => Some(if winner == White then WhiteWins else BlackWins)
      case Stalemate => Some(StalemateText)
      case Draw => Some(DrawText)
      case _ => None
    }
  }

  /** A legal move followed at once by an undo gives back the board, the side to
      move and the history exactly. */
  method MoveThenUndo(g: Game, from: HexCoord, to: HexCoord) returns (made: Result<(), GameError>, undone: Result<(), GameError>)
    requires g.Valid()
    modifies g
    ensures made.Ok? ==> undone == Ok(())
    ensures made.Ok? ==> (g.board == old(g.board) && g.currentPlayer == old(g.currentPlayer) &&
                          g.moveHistory == old(g.moveHistory))
  {
    ghost var before := g.board;
    ghost var history := g.moveHistory;
    made := g.MakeMove(from, to);
    if made.Ok? {
      ValidationAccepts(before, old(g.currentPlayer), from, to);
      UndoInvertsMove(before, from, to, |history| / 2 + 1);
      assert g.moveHistory[..|g.moveHistory| - 1] == history;
    }
    undone := g.UndoMove();
  }
}
