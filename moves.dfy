/**
 * ChessMove: a SAN token. A move is built from its parts in a fixed order or
 * taken as a raw string; its capture, check and mate markers are substring
 * tests, and its destination is what remains at the end once every annotation
 * character has been deleted.
 */
module Moves {
  import opened ChessTypes

  /** The characters reduceMoveString deletes. */
  const SpecialSymbols: seq<char> := ['x', '+', '#', '=', 'N', 'Q', 'K', 'R', 'B']

  /** A move is its SAN string; two moves are equal when their strings are. */
  datatype ChessMove = ChessMove(moveString: string) {
    predicate Takes() { 'x' in moveString }
    predicate Check() { '+' in moveString }
    predicate CheckMate() { '#' in moveString }
  }

  predicate IsCastleMarker(castleMove: string) { castleMove == "O-O-O" || castleMove == "O-O" }

  /**
   * fromChessCoordinates: a castle is the marker followed by the mate and check
   * suffixes; any other move is piece + from + takes + to, then "=" and the
   * promotion letter when there is one, then the suffixes.
   */
  function FromChessCoordinates(pieceType: string, fromFile: string, fromRank: string,
                                toFile: string, toRank: string, takes: string, castleMove: string,
                                promotionPiece: string, check: string, checkmate: string): ChessMove
  {
    if IsCastleMarker(castleMove) then
      ChessMove(castleMove + checkmate + check)
    else
      ChessMove(pieceType + fromFile + fromRank + takes + toFile + toRank
                + (if promotionPiece != "" then "=" + promotionPiece else "")
                + checkmate + check)
  }

  /** The characters of `s` that are not in `excluded`, in order. */
  function Keep(s: string, excluded: seq<char>): (r: string)
    ensures |r| <= |s|
    ensures forall i :: 0 <= i < |r| ==> r[i] !in excluded
  {
    if s == [] then []
    else (if s[0] in excluded then [] else [s[0]]) + Keep(s[1..], excluded)
  }

  /** `s.replace(c, "")` for a one-character pattern. */
  function RemoveChar(s: string, c: char): string
  {
    Keep(s, [c])
  }

  /** The string left once every special symbol has been deleted. */
  function Reduce(s: string): string
  {
    Keep(s, SpecialSymbols)
  }

  lemma {:induction false} KeepAppend(a: string, b: string, excluded: seq<char>)
    ensures Keep(a + b, excluded) == Keep(a, excluded) + Keep(b, excluded)
  {
    if a == [] {
      assert a + b == b;
    } else {
      assert (a + b)[0] == a[0];
      assert (a + b)[1..] == a[1..] + b;
      KeepAppend(a[1..], b, excluded);
    }
  }

  lemma {:induction false} KeepNothing(s: string)
    ensures Keep(s, []) == s
  {
    if s != [] {
      KeepNothing(s[1..]);
    }
  }

  /** Deleting the characters of A and then the character c is deleting A + [c]. */
  lemma {:induction false} KeepThenRemove(s: string, excluded: seq<char>, c: char)
    ensures RemoveChar(Keep(s, excluded), c) == Keep(s, excluded + [c])
  {
    if s != [] {
      KeepThenRemove(s[1..], excluded, c);
      var head := if s[0] in excluded then [] else [s[0]];
      KeepAppend(head, Keep(s[1..], excluded), [c]);
    }
  }

  /** A string none of whose characters is in `excluded` is kept whole. */
  lemma {:induction false} KeepClean(s: string, excluded: seq<char>)
    requires forall i :: 0 <= i < |s| ==> s[i] !in excluded
    ensures Keep(s, excluded) == s
  {
    if s != [] {
      KeepClean(s[1..], excluded);
    }
  }

  /** A string made only of characters in `excluded` vanishes. */
  lemma {:induction false} KeepAllExcluded(s: string, excluded: seq<char>)
    requires forall i :: 0 <= i < |s| ==> s[i] in excluded
    ensures Keep(s, excluded) == []
  {
    if s != [] {
      KeepAllExcluded(s[1..], excluded);
    }
  }

  /**
   * reduceMoveString: the source's loop deleting each special symbol in turn;
   * it deletes exactly the special symbols.
   */
  method ReduceMoveString(moveString: string) returns (reducedString: string)
    ensures reducedString == Reduce(moveString)
    ensures forall i :: 0 <= i < |reducedString| ==> reducedString[i] !in SpecialSymbols
  {
    reducedString := moveString;
    KeepNothing(moveString);
    assert SpecialSymbols[..0] == [];
    for i := 0 to |SpecialSymbols|
      invariant reducedString == Keep(moveString, SpecialSymbols[..i])
    {
      KeepThenRemove(moveString, SpecialSymbols[..i], SpecialSymbols[i]);
      assert SpecialSymbols[..i] + [SpecialSymbols[i]] == SpecialSymbols[..i + 1];
      reducedString := RemoveChar(reducedString, SpecialSymbols[i]);
    }
    assert SpecialSymbols[..|SpecialSymbols|] == SpecialSymbols;
  }

  /** getPieceFinalPosition: the last two characters of the reduced string. */
  function FinalPosition(m: ChessMove): (sq: (char, char))
    requires |Reduce(m.moveString)| >= 2
    ensures var red := Reduce(m.moveString);
            red == red[..|red| - 2] + [sq.0, sq.1]
  {
    var red := Reduce(m.moveString);
    (red[|red| - 2], red[|red| - 1])
  }

  /** specifyFromPosition: a disambiguating file and rank go right after a leading piece letter. */
  function SpecifyFromPosition(m: ChessMove, file: string, rank: string): ChessMove
    requires |m.moveString| > 0
  {
    if m.moveString[0] in PieceLetters then
      ChessMove([m.moveString[0]] + file + rank + m.moveString[1..])
    else m
  }

  /** The prefix of `s` before the first `c` (all of `s` when there is none). */
  function Before(s: string, c: char): (r: string)
    ensures c !in r
    ensures |r| <= |s| && r == s[..|r|]
    ensures |r| < |s| ==> s[|r|] == c
  {
    if s == [] || s[0] == c then [] else [s[0]] + Before(s[1..], c)
  }

  /** The suffix of `s` after its first `c`. */
  function After(s: string, c: char): (r: string)
    requires c in s
    ensures |r| < |s| && s == Before(s, c) + [c] + r
  {
    if s[0] == c then s[1..] else After(s[1..], c)
  }

  /** `s.split("=")[1].replace("+", "").replace("#", "")`: the promotion letter of a move. */
  function PromotionLetter(s: string): string
    requires '=' in s
  {
    RemoveChar(RemoveChar(Before(After(s, '='), '='), '+'), '#')
  }

  predicate IsCastleString(red: string) { red == "O-O" || red == "O-O-O" }

  /**
   * A move executeMove can apply without raising: a castle, or one whose
   * reduced string has two characters for the square and whose promotion
   * letter, when it has "=", names a piece type.
   */
  predicate Executable(m: ChessMove)
  {
    var red := Reduce(m.moveString);
    IsCastleString(red) ||
    (|red| >= 2 && ('=' in m.moveString ==> FromLetter(PromotionLetter(m.moveString)).Some?))
  }

  predicate NoSpecial(s: string) { forall i :: 0 <= i < |s| ==> s[i] !in SpecialSymbols }
  predicate NoMarker(s: string) { 'x' !in s && '+' !in s && '#' !in s }

  /** The piece part of a SAN move: a piece letter, the empty pawn letter, or a capturing pawn's file. */
  predicate IsPiecePart(p: string)
  {
    p == "" || p in ["N", "Q", "K", "R", "B"] || (|p| == 1 && 'a' <= p[0] <= 'h')
  }

  predicate IsPromotionPart(p: string) { p == "" || p in ["Q", "R", "B", "N"] }

  /** The parts of a non-castle move as the engine assembles them. */
  predicate WellFormedParts(pieceType: string, fromFile: string, fromRank: string, toFile: string,
                            toRank: string, takes: string, promotionPiece: string, check: string,
                            checkmate: string)
  {
    IsPiecePart(pieceType) && NoSpecial(fromFile) && NoSpecial(fromRank) && NoMarker(fromFile) && NoMarker(fromRank) &&
    |toFile| == 1 && |toRank| == 1 && NoSpecial(toFile) && NoSpecial(toRank) && NoMarker(toFile) && NoMarker(toRank) &&
    (takes == "" || takes == "x") && IsPromotionPart(promotionPiece) &&
    (check == "" || check == "+") && (checkmate == "" || checkmate == "#")
  }

  lemma ReduceOfMarkers(takes: string, promotionPiece: string, check: string, checkmate: string)
    requires (takes == "" || takes == "x") && IsPromotionPart(promotionPiece)
    requires (check == "" || check == "+") && (checkmate == "" || checkmate == "#")
    ensures Reduce(takes) == [] && Reduce(checkmate) == [] && Reduce(check) == []
    ensures Reduce(if promotionPiece != "" then "=" + promotionPiece else "") == []
  {
    KeepAllExcluded(takes, SpecialSymbols);
    KeepAllExcluded(check, SpecialSymbols);
    KeepAllExcluded(checkmate, SpecialSymbols);
    KeepAllExcluded(if promotionPiece != "" then "=" + promotionPiece else "", SpecialSymbols);
  }

  lemma ReduceOfPiecePart(p: string)
    requires IsPiecePart(p)
    ensures |Reduce(p)| <= 1
  {
    if p in ["N", "Q", "K", "R", "B"] {
      KeepAllExcluded(p, SpecialSymbols);
    }
  }

  /** Appending characters that are all kept adds them unchanged. */
  lemma KeepAppendClean(a: string, b: string, excluded: seq<char>)
    requires forall i :: 0 <= i < |b| ==> b[i] !in excluded
    ensures Keep(a + b, excluded) == Keep(a, excluded) + b
  {
    KeepAppend(a, b, excluded);
    KeepClean(b, excluded);
  }

  /** Appending characters that are all deleted adds nothing. */
  lemma KeepAppendGone(a: string, b: string, excluded: seq<char>)
    requires forall i :: 0 <= i < |b| ==> b[i] in excluded
    ensures Keep(a + b, excluded) == Keep(a, excluded)
  {
    KeepAppend(a, b, excluded);
    KeepAllExcluded(b, excluded);
  }

  lemma InAppend(a: string, b: string, c: char)
    ensures c in a + b <==> c in a || c in b
  {
    if c in a + b {
      var i :| 0 <= i < |a + b| && (a + b)[i] == c;
      if i >= |a| { assert b[i - |a|] == c; }
    }
    if c in b {
      var i :| 0 <= i < |b| && b[i] == c;
      assert (a + b)[|a| + i] == c;
    }
  }

  /** The string assembled by fromChessCoordinates for a non-castle move. */
  function Assembled(pieceType: string, fromFile: string, fromRank: string, toFile: string,
                     toRank: string, takes: string, promotionPiece: string, check: string,
                     checkmate: string): string
  {
    pieceType + fromFile + fromRank + takes + toFile + toRank
    + (if promotionPiece != "" then "=" + promotionPiece else "")
    + checkmate + check
  }

  lemma ReducedAssembled(pieceType: string, fromFile: string, fromRank: string,
                         toFile: string, toRank: string, takes: string, promotionPiece: string,
                         check: string, checkmate: string)
    requires WellFormedParts(pieceType, fromFile, fromRank, toFile, toRank, takes, promotionPiece, check, checkmate)
    ensures Reduce(Assembled(pieceType, fromFile, fromRank, toFile, toRank, takes, promotionPiece, check, checkmate))
            == Reduce(pieceType) + fromFile + fromRank + toFile + toRank
  {
    var promo := if promotionPiece != "" then "=" + promotionPiece else "";
    var s1 := pieceType + fromFile;
    var s2 := s1 + fromRank;
    var s3 := s2 + takes;
    var s4 := s3 + toFile;
    var s5 := s4 + toRank;
    var s6 := s5 + promo;
    var s7 := s6 + checkmate;
    var s8 := s7 + check;
    assert Reduce(s8) == Reduce(s7) by { KeepAppendGone(s7, check, SpecialSymbols); }
    assert Reduce(s7) == Reduce(s6) by { KeepAppendGone(s6, checkmate, SpecialSymbols); }
    assert Reduce(s6) == Reduce(s5) by { KeepAppendGone(s5, promo, SpecialSymbols); }
    assert Reduce(s5) == Reduce(s4) + toRank by { KeepAppendClean(s4, toRank, SpecialSymbols); }
    assert Reduce(s4) == Reduce(s3) + toFile by { KeepAppendClean(s3, toFile, SpecialSymbols); }
    assert Reduce(s3) == Reduce(s2) by { KeepAppendGone(s2, takes, SpecialSymbols); }
    assert Reduce(s2) == Reduce(s1) + fromRank by { KeepAppendClean(s1, fromRank, SpecialSymbols); }
    assert Reduce(s1) == Reduce(pieceType) + fromFile by { KeepAppendClean(pieceType, fromFile, SpecialSymbols); }
    assert s8 == Assembled(pieceType, fromFile, fromRank, toFile, toRank, takes, promotionPiece, check, checkmate);
  }

  /**
   * Round trip: the reduced string of an assembled non-castle move is the
   * reduced piece part, the disambiguator and the destination, so its final
   * position is the destination it was built with.
   */
  lemma FinalPositionRoundTrip(pieceType: string, fromFile: string, fromRank: string,
                               toFile: string, toRank: string, takes: string,
                               castleMove: string, promotionPiece: string,
                               check: string, checkmate: string)
    requires !IsCastleMarker(castleMove)
    requires WellFormedParts(pieceType, fromFile, fromRank, toFile, toRank, takes, promotionPiece, check, checkmate)
    ensures var m := FromChessCoordinates(pieceType, fromFile, fromRank, toFile, toRank, takes,
                                          castleMove, promotionPiece, check, checkmate);
            Reduce(m.moveString) == Reduce(pieceType) + fromFile + fromRank + toFile + toRank &&
            FinalPosition(m) == (toFile[0], toRank[0])
  {
    var m := FromChessCoordinates(pieceType, fromFile, fromRank, toFile, toRank, takes,
                                  castleMove, promotionPiece, check, checkmate);
    assert m.moveString == Assembled(pieceType, fromFile, fromRank, toFile, toRank, takes, promotionPiece, check, checkmate);
    ReducedAssembled(pieceType, fromFile, fromRank, toFile, toRank, takes, promotionPiece, check, checkmate);
    var red := Reduce(pieceType) + fromFile + fromRank + toFile + toRank;
    assert red[|red| - 2] == toFile[0] && red[|red| - 1] == toRank[0];
  }

  /** Whether `c` occurs in the assembled string, part by part. */
  lemma InAssembled(pieceType: string, fromFile: string, fromRank: string,
                    toFile: string, toRank: string, takes: string, promotionPiece: string,
                    check: string, checkmate: string, c: char)
    ensures var promo := if promotionPiece != "" then "=" + promotionPiece else "";
            c in Assembled(pieceType, fromFile, fromRank, toFile, toRank, takes, promotionPiece, check, checkmate)
            <==> c in pieceType || c in fromFile || c in fromRank || c in takes || c in toFile ||
                 c in toRank || c in promo || c in checkmate || c in check
  {
    var promo := if promotionPiece != "" then "=" + promotionPiece else "";
    var s1 := pieceType + fromFile;
    var s2 := s1 + fromRank;
    var s3 := s2 + takes;
    var s4 := s3 + toFile;
    var s5 := s4 + toRank;
    var s6 := s5 + promo;
    var s7 := s6 + checkmate;
    InAppend(pieceType, fromFile, c);
    InAppend(s1, fromRank, c);
    InAppend(s2, takes, c);
    InAppend(s3, toFile, c);
    InAppend(s4, toRank, c);
    InAppend(s5, promo, c);
    InAppend(s6, checkmate, c);
    InAppend(s7, check, c);
  }

  /** The markers of an assembled non-castle move are exactly the markers it was built with. */
  lemma FlagsOfAssembledMove(pieceType: string, fromFile: string, fromRank: string,
                             toFile: string, toRank: string, takes: string,
                             castleMove: string, promotionPiece: string,
                             check: string, checkmate: string)
    requires !IsCastleMarker(castleMove)
    requires WellFormedParts(pieceType, fromFile, fromRank, toFile, toRank, takes, promotionPiece, check, checkmate)
    ensures var m := FromChessCoordinates(pieceType, fromFile, fromRank, toFile, toRank, takes,
                                          castleMove, promotionPiece, check, checkmate);
            (m.Takes() <==> takes == "x") && (m.Check() <==> check == "+") &&
            (m.CheckMate() <==> checkmate == "#") && ('=' in m.moveString <==> promotionPiece != "")
  {
    var m := FromChessCoordinates(pieceType, fromFile, fromRank, toFile, toRank, takes,
                                  castleMove, promotionPiece, check, checkmate);
    assert m.moveString == Assembled(pieceType, fromFile, fromRank, toFile, toRank, takes, promotionPiece, check, checkmate);
    assert NoSpecial(pieceType) || pieceType in ["N", "Q", "K", "R", "B"];
    InAssembled(pieceType, fromFile, fromRank, toFile, toRank, takes, promotionPiece, check, checkmate, 'x');
    InAssembled(pieceType, fromFile, fromRank, toFile, toRank, takes, promotionPiece, check, checkmate, '+');
    InAssembled(pieceType, fromFile, fromRank, toFile, toRank, takes, promotionPiece, check, checkmate, '#');
    InAssembled(pieceType, fromFile, fromRank, toFile, toRank, takes, promotionPiece, check, checkmate, '=');
  }

  /** The castle markers hold no special symbol and no "=". */
  lemma CastleMarkerClean(castleMove: string)
    requires IsCastleMarker(castleMove)
    ensures NoSpecial(castleMove) && NoMarker(castleMove) && '=' !in castleMove
  {
    if castleMove == "O-O" {
      assert forall i :: 0 <= i < |castleMove| ==> castleMove[i] in "O-";
    } else {
      assert forall i :: 0 <= i < |castleMove| ==> castleMove[i] in "O-";
    }
  }

  /** A clean head followed by the mate and check suffixes reduces to the head and carries only those markers. */
  lemma FlagsOfSuffixed(head: string, check: string, checkmate: string)
    requires NoSpecial(head) && NoMarker(head) && '=' !in head
    requires (check == "" || check == "+") && (checkmate == "" || checkmate == "#")
    ensures var s := head + checkmate + check;
            'x' !in s && ('+' in s <==> check == "+") && ('#' in s <==> checkmate == "#") &&
            '=' !in s && Reduce(s) == head
  {
    var s1 := head + checkmate;
    forall c | c in "x+#="
      ensures c in s1 + check <==> c in head || c in checkmate || c in check
    {
      InAppend(head, checkmate, c);
      InAppend(s1, check, c);
    }
    assert Reduce(s1 + check) == Reduce(s1) by { KeepAppendGone(s1, check, SpecialSymbols); }
    assert Reduce(s1) == Reduce(head) by { KeepAppendGone(head, checkmate, SpecialSymbols); }
    KeepClean(head, SpecialSymbols);
  }

  /** A castle move carries only its mate and check markers, and reduces to its marker. */
  lemma FlagsOfCastleMove(castleMove: string, check: string, checkmate: string)
    requires IsCastleMarker(castleMove)
    requires (check == "" || check == "+") && (checkmate == "" || checkmate == "#")
    ensures var m := FromChessCoordinates("", "", "", "", "", "", castleMove, "", check, checkmate);
            !m.Takes() && (m.Check() <==> check == "+") && (m.CheckMate() <==> checkmate == "#") &&
            '=' !in m.moveString && Reduce(m.moveString) == castleMove
  {
    CastleMarkerClean(castleMove);
    FlagsOfSuffixed(castleMove, check, checkmate);
  }

  /**
   * Disambiguating a move that starts with a piece letter puts the file and
   * rank in front of what remains once annotations are deleted, and keeps the
   * capture, check, checkmate and promotion markers of the original move.
   */
  lemma SpecifyKeepsMarkers(m: ChessMove, file: string, rank: string)
    requires |m.moveString| > 0 && NoSpecial(file) && NoSpecial(rank) && NoMarker(file) && NoMarker(rank)
    ensures var m' := SpecifyFromPosition(m, file, rank);
            (m.moveString[0] in PieceLetters ==> Reduce(m'.moveString) == file + rank + Reduce(m.moveString)) &&
            (m'.Takes() <==> m.Takes()) && (m'.Check() <==> m.Check()) && (m'.CheckMate() <==> m.CheckMate()) &&
            ('=' in m'.moveString <==> '=' in m.moveString)
  {
    var s := m.moveString;
    if s[0] in PieceLetters {
      var h := [s[0]];
      var t := s[1..];
      assert s == h + t;
      var s' := h + file + rank + t;
      assert Reduce(h) == [] by { KeepAllExcluded(h, SpecialSymbols); }
      assert Reduce(s) == Reduce(t) by { KeepAppend(h, t, SpecialSymbols); }
      assert Reduce(h + file) == file by { KeepAppendClean(h, file, SpecialSymbols); }
      assert Reduce(h + file + rank) == file + rank by { KeepAppendClean(h + file, rank, SpecialSymbols); }
      assert Reduce(s') == file + rank + Reduce(t) by { KeepAppend(h + file + rank, t, SpecialSymbols); }
      forall c | c in "x+#="
        ensures c in s' <==> c in s
      {
        InAppend(h, t, c);
        InAppend(h, file, c);
        InAppend(h + file, rank, c);
        InAppend(h + file + rank, t, c);
      }
    }
  }

  /** A disambiguated move still ends on the square the original move names. */
  lemma SpecifyKeepsDestination(m: ChessMove, file: string, rank: string)
    requires |m.moveString| > 0 && NoSpecial(file) && NoSpecial(rank) && NoMarker(file) && NoMarker(rank)
    ensures var m' := SpecifyFromPosition(m, file, rank);
            |Reduce(m.moveString)| >= 2 ==> |Reduce(m'.moveString)| >= 2 && FinalPosition(m') == FinalPosition(m)
  {
    if m.moveString[0] in PieceLetters {
      SpecifyKeepsMarkers(m, file, rank);
      var red, red' := Reduce(m.moveString), Reduce(SpecifyFromPosition(m, file, rank).moveString);
      if |red| >= 2 {
        assert red'[|red'| - 2] == red[|red| - 2];
        assert red'[|red'| - 1] == red[|red| - 1];
      }
    }
  }

  /**
   * Before and after a disambiguation the promotion letter is the same: the
   * inserted file and rank come before the "=".
   */
  lemma SpecifyKeepsPromotion(m: ChessMove, file: string, rank: string)
    requires |m.moveString| > 0 && '=' in m.moveString && '=' !in file && '=' !in rank
    ensures var m' := SpecifyFromPosition(m, file, rank);
            '=' in m'.moveString && PromotionLetter(m'.moveString) == PromotionLetter(m.moveString)
  {
    var s := m.moveString;
    if s[0] in PieceLetters {
      var h := [s[0]];
      var t := s[1..];
      assert s == h + t;
      assert s[0] != '=';
      InAppend(h, file, '=');
      InAppend(h + file, rank, '=');
      assert '=' in t;
      AfterPrefix(h + file + rank, t, '=');
      AfterPrefix(h, t, '=');
    }
  }

  lemma {:induction false} AfterPrefix(p: string, s: string, c: char)
    requires c !in p && c in s
    ensures c in p + s && After(p + s, c) == After(s, c)
  {
    if p != [] {
      assert (p + s)[0] == p[0];
      assert (p + s)[1..] == p[1..] + s;
      AfterPrefix(p[1..], s, c);
    } else {
      assert p + s == s;
    }
  }

  /** What follows the "=" of an assembled promotion: the letter, then the suffixes, which are deleted. */
  lemma PromotionTail(promotionPiece: string, check: string, checkmate: string)
    requires IsPromotionPart(promotionPiece) && promotionPiece != ""
    requires (check == "" || check == "+") && (checkmate == "" || checkmate == "#")
    ensures RemoveChar(RemoveChar(Before(promotionPiece + checkmate + check, '='), '+'), '#') == promotionPiece
  {
    assert |promotionPiece| == 1 && promotionPiece[0] in "QRBN";
    var p1 := promotionPiece + checkmate;
    var post := p1 + check;
    assert '=' !in post by {
      InAppend(promotionPiece, checkmate, '=');
      InAppend(p1, check, '=');
    }
    BeforeClean(post, '=');
    assert RemoveChar(post, '+') == p1 by {
      KeepAppendGone(p1, check, ['+']);
      KeepAppendClean(promotionPiece, checkmate, ['+']);
      KeepClean(promotionPiece, ['+']);
    }
    assert RemoveChar(p1, '#') == promotionPiece by {
      KeepAppendGone(promotionPiece, checkmate, ['#']);
      KeepClean(promotionPiece, ['#']);
    }
  }

  /** The part of an assembled move before the promotion holds no "=". */
  lemma NoEqualsBeforePromotion(pieceType: string, fromFile: string, fromRank: string,
                                toFile: string, toRank: string, takes: string)
    requires IsPiecePart(pieceType) && NoSpecial(fromFile) && NoSpecial(fromRank)
    requires NoSpecial(toFile) && NoSpecial(toRank) && (takes == "" || takes == "x")
    ensures '=' !in pieceType + fromFile + fromRank + takes + toFile + toRank
  {
    InAppend(pieceType, fromFile, '=');
    InAppend(pieceType + fromFile, fromRank, '=');
    InAppend(pieceType + fromFile + fromRank, takes, '=');
    InAppend(pieceType + fromFile + fromRank + takes, toFile, '=');
    InAppend(pieceType + fromFile + fromRank + takes + toFile, toRank, '=');
  }

  /** A promotion move as the engine assembles it names its promotion letter after "=". */
  lemma PromotionRoundTrip(pieceType: string, fromFile: string, fromRank: string,
                           toFile: string, toRank: string, takes: string,
                           castleMove: string, promotionPiece: string,
                           check: string, checkmate: string)
    requires !IsCastleMarker(castleMove) && promotionPiece != ""
    requires WellFormedParts(pieceType, fromFile, fromRank, toFile, toRank, takes, promotionPiece, check, checkmate)
    ensures var m := FromChessCoordinates(pieceType, fromFile, fromRank, toFile, toRank, takes,
                                          castleMove, promotionPiece, check, checkmate);
            '=' in m.moveString && PromotionLetter(m.moveString) == promotionPiece
  {
    var pre := pieceType + fromFile + fromRank + takes + toFile + toRank;
    var post := promotionPiece + checkmate + check;
    var s := pre + "=" + promotionPiece + checkmate + check;
    assert s == pre + ("=" + post);
    assert s == FromChessCoordinates(pieceType, fromFile, fromRank, toFile, toRank, takes,
                                     castleMove, promotionPiece, check, checkmate).moveString;
    NoEqualsBeforePromotion(pieceType, fromFile, fromRank, toFile, toRank, takes);
    assert ("=" + post)[0] == '=';
    AfterPrefix(pre, "=" + post, '=');
    assert After("=" + post, '=') == post;
    PromotionTail(promotionPiece, check, checkmate);
  }

  lemma {:induction false} BeforeClean(s: string, c: char)
    requires c !in s
    ensures Before(s, c) == s
  {
    if s != [] {
      BeforeClean(s[1..], c);
    }
  }
}
