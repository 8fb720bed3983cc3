/** Piece types and colours of the chess engine, with the SAN letter each type carries. */
module ChessTypes {

  datatype Option<+T> = None | Some(value: T)

  /** The six piece types; each carries the SAN letter the engine uses as its enum value. */
  datatype PieceType = Pawn | Rook | Knight | Queen | Bishop | King

  /** The colours; the enum values are 0 (white) and 1 (black). */
  datatype PieceColor = White | Black

  /** The SAN letter of a piece type: empty for a pawn. */
  function Letter(t: PieceType): string
  {
    match t
    case Pawn => ""
    case Rook => "R"
    case Knight => "N"
    case Queen => "Q"
    case Bishop => "B"
    case King => "K"
  }

  /** Looking a piece type up by its letter, as `PieceType(value)` does; None where Python raises. */
  function FromLetter(s: string): (r: Option<PieceType>)
    ensures r.Some? ==> Letter(r.value) == s
    ensures (exists t :: Letter(t) == s) ==> r.Some?
  {
    if s == "" then Some(Pawn)
    else if s == "R" then Some(Rook)
    else if s == "N" then Some(Knight)
    else if s == "Q" then Some(Queen)
    else if s == "B" then Some(Bishop)
    else if s == "K" then Some(King)
    else None
  }

  lemma FromLetterOfLetter(t: PieceType)
    ensures FromLetter(Letter(t)) == Some(t)
  {
  }

  /** The colour with the given enum value `n % 2`, as `PieceColor(n % 2)`. */
  function ColorOfPly(n: nat): (c: PieceColor)
    ensures c == White <==> n % 2 == 0
  {
    if n % 2 == 0 then White else Black
  }

  /** The other colour. */
  function Enemy(c: PieceColor): (e: PieceColor)
    ensures e != c
  {
    if c == White then Black else White
  }

  /** Letters that mark a piece (every type but the pawn). */
  const PieceLetters: seq<char> := ['N', 'Q', 'K', 'R', 'B']

  lemma PieceLettersAreLetters(c: char)
    ensures c in PieceLetters <==> exists t :: t != Pawn && Letter(t) == [c]
  {
    if c in PieceLetters {
      if c == 'N' { assert Letter(Knight) == [c]; }
      else if c == 'Q' { assert Letter(Queen) == [c]; }
      else if c == 'K' { assert Letter(King) == [c]; }
      else if c == 'R' { assert Letter(Rook) == [c]; }
      else { assert Letter(Bishop) == [c]; }
    }
  }
}
