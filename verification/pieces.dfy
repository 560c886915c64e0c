/** Piece symbols and their decoding (`Game.getPiece` in script.js). */
module Pieces {

  datatype Color = White | Black

  /** The other player. */
  function Opponent(c: Color): (o: Color)
    ensures o != c
  {
    if c == White then Black else White
  }

  /** A decoded piece: `kind` is the lower-case symbol, `color` comes from the case. */
  datatype Piece = Piece(kind: char, color: Color)

  /** The board's empty marker. */
  const EMPTY: char := '.'

  /** The twelve symbols the board can store: lower case is white, upper case black. */
  predicate IsPieceSymbol(ch: char) {
    ch in "kqrbnpKQRBNP"
  }

  predicate IsKind(ch: char) {
    ch in "kqrbnp"
  }

  /** ASCII `toLowerCase`: lower-casing a piece symbol names its kind, and leaves exactly the white symbols unchanged. */
  function Lower(ch: char): (l: char)
    ensures IsPieceSymbol(ch) ==> IsKind(l) && (l == ch <==> IsKind(ch))
  {
    if 'A' <= ch <= 'Z' then (ch as int + 32) as char else ch
  }

  /** ASCII `toUpperCase`, used to write a black piece's symbol: it turns a kind into a black symbol of that kind. */
  function Upper(ch: char): (u: char)
    ensures IsKind(ch) ==> IsPieceSymbol(u) && !IsKind(u) && Lower(u) == ch
  {
    if 'a' <= ch <= 'z' then (ch as int - 32) as char else ch
  }

  /** Decoding a stored symbol: `type` is the lower-cased name, white iff the name is already lower case. */
  function Decode(ch: char): Piece {
    Piece(Lower(ch), if Lower(ch) == ch then White else Black)
  }

  /** The symbol the board would store for a piece. */
  function Encode(p: Piece): char {
    if p.color == White then p.kind else Upper(p.kind)
  }

  /** Every piece symbol decodes to a piece kind, with white exactly for the lower-case ones. */
  lemma DecodeSymbol(ch: char)
    requires IsPieceSymbol(ch)
    ensures IsKind(Decode(ch).kind)
    ensures Decode(ch).color == White <==> ch in "kqrbnp"
  {
  }

  /** Encoding then decoding gives the piece back. */
  lemma DecodeEncode(p: Piece)
    requires IsKind(p.kind)
    ensures IsPieceSymbol(Encode(p))
    ensures Decode(Encode(p)) == p
  {
  }

  /** Decoding then encoding gives the symbol back. */
  lemma EncodeDecode(ch: char)
    requires IsPieceSymbol(ch)
    ensures Encode(Decode(ch)) == ch
  {
  }
}
