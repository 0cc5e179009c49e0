/**
 * Piece values (crates/core/src/pieces.rs): the eight kinds, the two colours and
 * the one-letter display symbol.
 */
module Pieces {

  datatype PieceType = King | Queen | Rook | Bishop | Knight | Pawn | Chancellor | Archbishop

  datatype Color = White | Black

  datatype Piece = Piece(kind: PieceType, color: Color)

  /** The other side; written out in several places of the source as a match. */
  function Opponent(c: Color): (o: Color)
    ensures o != c
  {
    match c
    case White => Black
    case Black => White
  }

  /** The upper-case letter of each kind. */
  function BaseSymbol(kind: PieceType): char {
    match kind
    case King => 'K'
    case Queen => 'Q'
    case Rook => 'R'
    case Bishop => 'B'
    case Knight => 'N'
    case Pawn => 'P'
    case Chancellor => 'C'
    case Archbishop => 'A'
  }

  /** ASCII lower-casing: letters A..Z move down to a..z, anything else is kept. */
  function AsciiLower(c: char): char {
    if 'A' <= c <= 'Z' then (c as int + 32) as char else c
  }

  /** symbol: the kind's letter, lower-cased for Black. */
  function Symbol(p: Piece): (s: char)
    ensures p.color == White ==> 'A' <= s <= 'Z'
    ensures p.color == Black ==> 'a' <= s <= 'z'
  {
    match p.color
    case White => BaseSymbol(p.kind)
    case Black => AsciiLower(BaseSymbol(p.kind))
  }

  /** Different pieces show different symbols, and Black's symbol is White's lower-cased. */
  lemma SymbolInjective(p1: Piece, p2: Piece)
    ensures Symbol(p1) == Symbol(p2) ==> p1 == p2
    ensures Symbol(Piece(p1.kind, Black)) == AsciiLower(Symbol(Piece(p1.kind, White)))
  {
  }

  /** The values named by the crate's unit test. */
  lemma SymbolExamples()
    ensures Symbol(Piece(King, White)) == 'K' && Symbol(Piece(King, Black)) == 'k'
    ensures Symbol(Piece(Knight, White)) == 'N' && Symbol(Piece(Archbishop, Black)) == 'a'
  {
  }
}
