/**
 * The coordinate translator: files a..h and ranks 1..8 against zero-based
 * (row, column) pairs, in the board-matrix orientation (rank 8 at row 0) and
 * in the image orientation (rank 1 at row 0).
 */
module Coordinates {

  const FileNames: seq<char> := ['a', 'b', 'c', 'd', 'e', 'f', 'g', 'h']
  const RankNames: seq<char> := ['1', '2', '3', '4', '5', '6', '7', '8']

  predicate IsFile(f: char) { 'a' <= f <= 'h' }
  predicate IsRank(r: char) { '1' <= r <= '8' }
  predicate IsSquare(f: char, r: char) { IsFile(f) && IsRank(r) }

  /** `int(rank)` for a one-character rank string. */
  function Digit(r: char): int
    requires '0' <= r <= '9'
  {
    r as int - '0' as int
  }

  /** The position of `f` in a..h, or -1 when it is not a file name. */
  function FileIndex(f: char): (col: int)
    ensures -1 <= col < 8
    ensures col >= 0 ==> FileNames[col] == f
    ensures col == -1 <==> f !in FileNames
  {
    if IsFile(f) then f as int - 'a' as int else -1
  }

  /** Matrix coordinates: column is the index of the file, row is 8 - rank. */
  function MatrixCoordinates(f: char, r: char): (rc: (int, int))
    requires '0' <= r <= '9'
    ensures rc.0 == 8 - Digit(r) && rc.1 == FileIndex(f)
    ensures IsSquare(f, r) ==> 0 <= rc.0 < 8 && 0 <= rc.1 < 8
  {
    (8 - Digit(r), FileIndex(f))
  }

  /** Python list indexing: a negative index counts from the end. */
  function PyIndex(s: seq<char>, i: int): char
    requires -|s| <= i < |s|
  {
    if i < 0 then s[|s| + i] else s[i]
  }

  /**
   * The square of a matrix cell: `fileNames[col]`, `rankNames[7 - row]`, with
   * Python's negative indexing; the callers only pass cells on the board.
   */
  function ChessNotationCoordinates(row: int, col: int): (sq: (char, char))
    requires -8 <= col < 8 && 0 <= row < 16
    ensures 0 <= row < 8 && 0 <= col < 8 ==> IsSquare(sq.0, sq.1)
  {
    (PyIndex(FileNames, col), PyIndex(RankNames, 7 - row))
  }

  /** The image coordinates: row is rank - 1, column the index of the file. */
  function ImageCoordinates(f: char, r: char): (rc: (int, int))
    requires '0' <= r <= '9'
    ensures rc.0 == Digit(r) - 1 && rc.1 == FileIndex(f)
  {
    (Digit(r) - 1, FileIndex(f))
  }

  /** The file-name search of getMatrixCoordinates, as the loop the source runs. */
  method GetMatrixCoordinates(f: char, r: char) returns (row: int, col: int)
    requires '0' <= r <= '9'
    ensures col == -1 <==> f !in FileNames
    ensures col != -1 ==> 0 <= col < 8 && FileNames[col] == f
    ensures row == 8 - Digit(r)
    ensures (row, col) == MatrixCoordinates(f, r)
  {
    row, col := -1, -1;
    var i := 0;
    while i < |FileNames|
      invariant 0 <= i <= |FileNames|
      invariant forall j :: 0 <= j < i ==> FileNames[j] != f
      invariant col == -1
    {
      if FileNames[i] == f {
        col := i;
        break;
      }
      i := i + 1;
    }
    row := 8 - Digit(r);
  }

  /** getImageCoordinates, with the same search loop. */
  method GetImageCoordinates(f: char, r: char) returns (row: int, col: int)
    requires '0' <= r <= '9'
    ensures col == -1 <==> f !in FileNames
    ensures col != -1 ==> 0 <= col < 8 && FileNames[col] == f
    ensures row == Digit(r) - 1
    ensures (row, col) == ImageCoordinates(f, r)
  {
    row, col := -1, -1;
    var i := 0;
    while i < |FileNames|
      invariant 0 <= i <= |FileNames|
      invariant forall j :: 0 <= j < i ==> FileNames[j] != f
      invariant col == -1
    {
      if FileNames[i] == f {
        col := i;
        break;
      }
      i := i + 1;
    }
    row := Digit(r) - 1;
  }

  /** Translating a square to matrix coordinates and back gives the square. */
  lemma MatrixRoundTrip(f: char, r: char)
    requires IsSquare(f, r)
    ensures var rc := MatrixCoordinates(f, r);
            0 <= rc.0 < 8 && 0 <= rc.1 < 8 && ChessNotationCoordinates(rc.0, rc.1) == (f, r)
  {
    var rc := MatrixCoordinates(f, r);
    assert PyIndex(FileNames, rc.1) == f;
    assert PyIndex(RankNames, 7 - rc.0) == r;
  }

  /** Translating a cell of the board to its square and back gives the cell. */
  lemma NotationRoundTrip(row: int, col: int)
    requires 0 <= row < 8 && 0 <= col < 8
    ensures var sq := ChessNotationCoordinates(row, col);
            IsSquare(sq.0, sq.1) && MatrixCoordinates(sq.0, sq.1) == (row, col)
  {
    var sq := ChessNotationCoordinates(row, col);
    assert sq.0 == FileNames[col] && sq.1 == RankNames[7 - row];
  }

  /** The two orientations are mirror images: image row = 7 - matrix row. */
  lemma ImageMirrorsMatrix(f: char, r: char)
    requires '0' <= r <= '9'
    ensures ImageCoordinates(f, r).0 == 7 - MatrixCoordinates(f, r).0
    ensures ImageCoordinates(f, r).1 == MatrixCoordinates(f, r).1
  {
  }
}
