/**
 * computePieceMoves on values: what one piece adds to the cached move lists,
 * given the position (which the simulations leave as they found it) and the
 * lists computed so far. Legality, capture, promotion, castling,
 * disambiguation against a piece of the same kind and the check and mate
 * suffixes are each a definition here; the board's methods are proved to
 * compute exactly these lists.
 */
module Generation {
  import opened ChessTypes
  import opened Coordinates
  import opened Moves
  import opened Position

  predicate AllWellFormed(ms: seq<ChessMove>) { forall j :: 0 <= j < |ms| ==> WellFormedMove(ms[j]) }

  predicate ListsWellFormed(ls: seq<seq<ChessMove>>) { forall i :: 0 <= i < |ls| ==> AllWellFormed(ls[i]) }

  /** Replacing one list, or one move of a list, by well-formed ones keeps every list well formed. */
  lemma ReplacedWellFormed(ls: seq<seq<ChessMove>>, k: nat, ms: seq<ChessMove>)
    requires k < |ls| && ListsWellFormed(ls) && AllWellFormed(ms)
    ensures ListsWellFormed(ls[k := ms])
  {
  }

  lemma ReplacedMoveWellFormed(ms: seq<ChessMove>, j: nat, m: ChessMove)
    requires j < |ms| && AllWellFormed(ms) && WellFormedMove(m)
    ensures AllWellFormed(ms[j := m])
  {
  }

  /** The setting every definition below works in: one move list per piece, the k-th piece generating. */
  predicate Scope(pos: seq<PieceState>, ls: seq<seq<ChessMove>>, k: nat)
  {
    |ls| == |pos| && k < |pos| && AllOnBoard(pos) && ListsWellFormed(ls)
  }

  /** The move to (f, r) does not leave the mover's own king in check. */
  predicate Legal(pos: seq<PieceState>, k: nat, f: char, r: char)
    requires k < |pos| && AllOnBoard(pos) && IsSquare(f, r)
  {
    !OwnKingInCheckAfter(pos, k, pos[k].pieceType, f, r, pos[k].pieceColor)
  }

  /** addMove on values: the move is appended unless an equal one is already there. */
  function AddTo(ms: seq<ChessMove>, m: ChessMove): (r: seq<ChessMove>)
    ensures m in r && forall x :: x in r <==> x in ms || x == m
    ensures |ms| <= |r| && forall j :: 0 <= j < |ms| ==> r[j] == ms[j]
    ensures AllWellFormed(ms) && WellFormedMove(m) ==> AllWellFormed(r)
  {
    if m in ms then ms else ms + [m]
  }

  // ---------------------------------------------------------------------------
  // getNMoves
  // ---------------------------------------------------------------------------

  /** The number of cached moves of the pieces of colour c among the first n. */
  function MoveCount(pos: seq<PieceState>, ls: seq<seq<ChessMove>>, c: PieceColor, n: nat): nat
    requires n <= |pos| && |ls| == |pos|
  {
    if n == 0 then 0
    else MoveCount(pos, ls, c, n - 1) + (if pos[n - 1].pieceColor == c then |ls[n - 1]| else 0)
  }

  /** A colour has no moves exactly when every one of its pieces has an empty list. */
  lemma {:induction false} NoMovesMeans(pos: seq<PieceState>, ls: seq<seq<ChessMove>>, c: PieceColor, n: nat)
    requires n <= |pos| && |ls| == |pos|
    ensures MoveCount(pos, ls, c, n) == 0 <==> forall i :: 0 <= i < n && pos[i].pieceColor == c ==> ls[i] == []
  {
    if n > 0 {
      NoMovesMeans(pos, ls, c, n - 1);
    }
  }

  // ---------------------------------------------------------------------------
  // isDestinationSquareShared
  // ---------------------------------------------------------------------------

  /** getPieceFinalPosition names (f, r); a cached move always has a final position. */
  predicate EndsOn(m: ChessMove, f: char, r: char)
  {
    var red := Reduce(m.moveString);
    |red| >= 2 && red[|red| - 2] == f && red[|red| - 1] == r
  }

  /** The first index from j of a move of ms that ends on (f, r). */
  function MoveToFrom(ms: seq<ChessMove>, f: char, r: char, j: nat): (o: Option<nat>)
    requires j <= |ms|
    decreases |ms| - j
    ensures o.None? <==> forall i :: j <= i < |ms| ==> !EndsOn(ms[i], f, r)
    ensures o.Some? ==> j <= o.value < |ms| && EndsOn(ms[o.value], f, r) &&
                        forall i :: j <= i < o.value ==> !EndsOn(ms[i], f, r)
  {
    if j == |ms| then None
    else if EndsOn(ms[j], f, r) then Some(j)
    else MoveToFrom(ms, f, r, j + 1)
  }

  /** A piece the engine compares the mover with: not equal to it, of the same colour and type. */
  predicate Rival(ref: PieceState, p: PieceState, t: PieceType, c: PieceColor)
  {
    !SamePiece(ref, p) && p.pieceColor == c && p.pieceType == t
  }

  /**
   * isDestinationSquareShared from piece i on: the first rival with a cached
   * move ending on (f, r), and the index of the first such move in its list.
   */
  function SharedFrom(pos: seq<PieceState>, ls: seq<seq<ChessMove>>, ref: PieceState, t: PieceType,
                      c: PieceColor, f: char, r: char, i: nat): (o: Option<(nat, nat)>)
    requires |ls| == |pos| && i <= |pos|
    decreases |pos| - i
    ensures o.Some? ==> i <= o.value.0 < |pos| && Rival(ref, pos[o.value.0], t, c) &&
                        o.value.1 < |ls[o.value.0]| && EndsOn(ls[o.value.0][o.value.1], f, r)
  {
    if i == |pos| then None
    else if Rival(ref, pos[i], t, c) && MoveToFrom(ls[i], f, r, 0).Some? then Some((i, MoveToFrom(ls[i], f, r, 0).value))
    else SharedFrom(pos, ls, ref, t, c, f, r, i + 1)
  }

  /** One step of SharedFrom, given what piece i contributes. */
  lemma SharedFromStep(pos: seq<PieceState>, ls: seq<seq<ChessMove>>, ref: PieceState, t: PieceType,
                       c: PieceColor, f: char, r: char, i: nat, o: Option<nat>)
    requires |ls| == |pos| && i < |pos|
    requires o == if Rival(ref, pos[i], t, c) then MoveToFrom(ls[i], f, r, 0) else None
    ensures SharedFrom(pos, ls, ref, t, c, f, r, i) ==
            if o.Some? then Some((i, o.value)) else SharedFrom(pos, ls, ref, t, c, f, r, i + 1)
  { }

  /** Whether rival i has a cached move ending on (f, r). */
  predicate RivalReaches(pos: seq<PieceState>, ls: seq<seq<ChessMove>>, ref: PieceState, t: PieceType,
                         c: PieceColor, f: char, r: char, i: nat)
    requires |ls| == |pos| && i < |pos|
  {
    Rival(ref, pos[i], t, c) && exists j :: 0 <= j < |ls[i]| && EndsOn(ls[i][j], f, r)
  }

  /** SharedFrom finds nothing exactly when no rival from i on reaches (f, r). */
  lemma {:induction false} SharedFromNone(pos: seq<PieceState>, ls: seq<seq<ChessMove>>, ref: PieceState, t: PieceType,
                                          c: PieceColor, f: char, r: char, i: nat)
    requires |ls| == |pos| && i <= |pos|
    decreases |pos| - i
    ensures SharedFrom(pos, ls, ref, t, c, f, r, i).None? <==>
            forall q :: i <= q < |pos| ==> !RivalReaches(pos, ls, ref, t, c, f, r, q)
  {
    if i < |pos| {
      var m := MoveToFrom(ls[i], f, r, 0);
      if Rival(ref, pos[i], t, c) && m.Some? {
        assert EndsOn(ls[i][m.value], f, r);
        assert RivalReaches(pos, ls, ref, t, c, f, r, i);
      } else {
        SharedFromNone(pos, ls, ref, t, c, f, r, i + 1);
        assert !RivalReaches(pos, ls, ref, t, c, f, r, i);
      }
    }
  }

  /** The rival SharedFrom finds is the first one from i on that reaches (f, r). */
  lemma {:induction false} SharedFromFirst(pos: seq<PieceState>, ls: seq<seq<ChessMove>>, ref: PieceState, t: PieceType,
                                           c: PieceColor, f: char, r: char, i: nat)
    requires |ls| == |pos| && i <= |pos|
    decreases |pos| - i
    ensures var o := SharedFrom(pos, ls, ref, t, c, f, r, i);
            o.Some? ==> forall q :: i <= q < o.value.0 ==> !RivalReaches(pos, ls, ref, t, c, f, r, q)
  {
    if i < |pos| {
      var m := MoveToFrom(ls[i], f, r, 0);
      if !(Rival(ref, pos[i], t, c) && m.Some?) {
        SharedFromFirst(pos, ls, ref, t, c, f, r, i + 1);
        assert !RivalReaches(pos, ls, ref, t, c, f, r, i);
      }
    }
  }

  /**
   * The disambiguation the engine settles on when the destination is shared
   * with a rival on (of, or): the rival's rank is dropped when neither of
   * its coordinates matches the destination, its file when the file does,
   * and otherwise (then the rank matches) its rank.
   */
  function RivalMarks(of: char, or: char, f: char, r: char): (marks: (string, string))
    ensures (marks.0 == "") != (marks.1 == "")
    ensures marks.0 == "" || marks.0 == [of]
    ensures marks.1 == "" || marks.1 == [or]
  {
    if of != f && or != r then ([of], "")
    else if of == f then ("", [or])
    else ([of], "")
  }

  /**
   * The disambiguation step of computePieceMoves: when a rival reaches
   * (f, r), its move is rewritten by specifyFromPosition and the mover's
   * move gets its own file or rank, whichever coordinate the rival kept.
   */
  function Disambiguate(pos: seq<PieceState>, ls: seq<seq<ChessMove>>, k: nat, f: char, r: char)
    : (d: (seq<seq<ChessMove>>, string, string))
    requires Scope(pos, ls, k)
    ensures |d.0| == |ls| && d.0[k] == ls[k] && ListsWellFormed(d.0)
    ensures d.1 == "" || d.1 == [pos[k].file]
    ensures d.2 == "" || d.2 == [pos[k].rank]
  {
    var p := pos[k];
    match SharedFrom(pos, ls, p, p.pieceType, p.pieceColor, f, r, 0)
    case None => (ls, "", "")
    case Some((i, j)) =>
      var marks := RivalMarks(pos[i].file, pos[i].rank, f, r);
      var m' := SpecifyFromPosition(ls[i][j], marks.0, marks.1);
      SpecifiedWellFormed(ls[i][j], marks.0, marks.1);
      ReplacedMoveWellFormed(ls[i], j, m');
      ReplacedWellFormed(ls, i, ls[i][j := m']);
      assert i != k;
      var ls' := ls[i := ls[i][j := m']];
      (ls', if marks.0 != "" then [p.file] else "", if marks.1 != "" then [p.rank] else "")
  }

  /** Disambiguate when rival i's move j ends on (f, r). */
  lemma DisambiguateWith(pos: seq<PieceState>, ls: seq<seq<ChessMove>>, k: nat, f: char, r: char, i: nat, j: nat)
    requires Scope(pos, ls, k)
    requires SharedFrom(pos, ls, pos[k], pos[k].pieceType, pos[k].pieceColor, f, r, 0) == Some((i, j))
    ensures var marks := RivalMarks(pos[i].file, pos[i].rank, f, r);
            Disambiguate(pos, ls, k, f, r) ==
            (ls[i := ls[i][j := SpecifyFromPosition(ls[i][j], marks.0, marks.1)]],
             if marks.0 != "" then [pos[k].file] else "", if marks.1 != "" then [pos[k].rank] else "")
  { }

  // ---------------------------------------------------------------------------
  // The move strings
  // ---------------------------------------------------------------------------

  /** The SAN piece part: the type's letter, or a capturing pawn's own file. */
  function PiecePart(p: PieceState, takes: bool): (s: string)
    requires OnBoard(p)
    ensures IsPiecePart(s)
  {
    if takes && p.pieceType == Pawn then [p.file] else Letter(p.pieceType)
  }

  function TakesMark(takes: bool): string { if takes then "x" else "" }

  /**
   * The suffixes isEnemyKingCheckmatedAfterMove yields, as (check, checkmate):
   * "#" when the move mates, otherwise "+" when it checks and `plus` holds.
   * The branches that test the never-set local `check` instead of the
   * answer pass `plus` false: their moves never get "+".
   */
  function Suffixes(pos: seq<PieceState>, k: nat, t: PieceType, f: char, r: char, color: PieceColor, plus: bool)
    : (s: (string, string))
    requires k < |pos| && AllOnBoard(pos) && IsSquare(f, r)
    ensures (s.0 == "" || s.0 == "+") && (s.1 == "" || s.1 == "#")
    ensures s.1 == "#" <==> EnemyMatedAfter(pos, k, t, f, r, color)
    ensures s.0 == "+" <==> plus && !EnemyMatedAfter(pos, k, t, f, r, color) && EnemyKingInCheckAfter(pos, k, t, f, r, color)
  {
    if EnemyMatedAfter(pos, k, t, f, r, color) then ("", "#")
    else if plus && EnemyKingInCheckAfter(pos, k, t, f, r, color) then ("+", "")
    else ("", "")
  }

  /** A one-move addition built from its parts: everything but the destination and suffixes is given. */
  function PlainMove(pos: seq<PieceState>, k: nat, s: Sight, fromFile: string, fromRank: string, plus: bool)
    : (m: ChessMove)
    requires k < |pos| && AllOnBoard(pos) && IsSquare(s.file, s.rank)
    requires fromFile == "" || fromFile == [pos[k].file]
    requires fromRank == "" || fromRank == [pos[k].rank]
    ensures WellFormedMove(m) && '=' !in m.moveString && FinalPosition(m) == (s.file, s.rank)
  {
    var p := pos[k];
    var sfx := Suffixes(pos, k, p.pieceType, s.file, s.rank, p.pieceColor, plus);
    var piecePart := PiecePart(p, s.takes);
    AssembledWellFormed(piecePart, fromFile, fromRank, s.file, s.rank, TakesMark(s.takes), "", sfx.0, sfx.1);
    FromChessCoordinates(piecePart, fromFile, fromRank, [s.file], [s.rank], TakesMark(s.takes), "", "", sfx.0, sfx.1)
  }

  const PromotionLetters: seq<string> := ["Q", "R", "B", "N"]

  /** One promotion, to the type named by `letter`; its suffixes come from the simulation as that type. */
  function PromotionMove(pos: seq<PieceState>, k: nat, s: Sight, fromFile: string, fromRank: string, letter: string)
    : (m: ChessMove)
    requires k < |pos| && AllOnBoard(pos) && IsSquare(s.file, s.rank) && letter in PromotionLetters
    requires fromFile == "" || fromFile == [pos[k].file]
    requires fromRank == "" || fromRank == [pos[k].rank]
    ensures WellFormedMove(m) && FinalPosition(m) == (s.file, s.rank)
    ensures '=' in m.moveString && PromotionLetter(m.moveString) == letter
  {
    var p := pos[k];
    var t := FromLetter(letter).value;
    var sfx := Suffixes(pos, k, t, s.file, s.rank, p.pieceColor, true);
    var piecePart := PiecePart(p, s.takes);
    AssembledWellFormed(piecePart, fromFile, fromRank, s.file, s.rank, TakesMark(s.takes), letter, sfx.0, sfx.1);
    FromChessCoordinates(piecePart, fromFile, fromRank, [s.file], [s.rank], TakesMark(s.takes), "", letter, sfx.0, sfx.1)
  }

  /** The four promotions to s, in the order Q, R, B, N. */
  function Promotions(pos: seq<PieceState>, k: nat, s: Sight, fromFile: string, fromRank: string): (ps: seq<ChessMove>)
    requires k < |pos| && AllOnBoard(pos) && IsSquare(s.file, s.rank)
    requires fromFile == "" || fromFile == [pos[k].file]
    requires fromRank == "" || fromRank == [pos[k].rank]
    ensures |ps| == |PromotionLetters| && AllWellFormed(ps) && forall m :: m in ps ==> EndsOn(m, s.file, s.rank)
    ensures forall j :: 0 <= j < |ps| ==>
              EndsOn(ps[j], s.file, s.rank) && '=' in ps[j].moveString && PromotionLetter(ps[j].moveString) == PromotionLetters[j]
  {
    seq(|PromotionLetters|, j requires 0 <= j < |PromotionLetters| =>
      PromotionMove(pos, k, s, fromFile, fromRank, PromotionLetters[j]))
  }

  /** The append-if-absent loop: the moves of ps from the i-th on, each added to ms unless already there. */
  function AddAll(ms: seq<ChessMove>, ps: seq<ChessMove>, i: nat): (r: seq<ChessMove>)
    requires i <= |ps|
    ensures AllWellFormed(ms) && AllWellFormed(ps) ==> AllWellFormed(r)
    decreases |ps| - i
  {
    if i == |ps| then ms else AddAll(AddTo(ms, ps[i]), ps, i + 1)
  }

  /** A castle: the marker, and "#" when the rook's move alone mates (never "+"). */
  function CastleMove(pos: seq<PieceState>, ri: nat, short: bool, color: PieceColor): (m: ChessMove)
    requires ri < |pos| && AllOnBoard(pos)
    ensures WellFormedMove(m) && Reduce(m.moveString) == (if short then "O-O" else "O-O-O")
  {
    var rook := pos[ri];
    var sfx := Suffixes(pos, ri, rook.pieceType, if short then 'f' else 'd', rook.rank, color, false);
    var marker := if short then "O-O" else "O-O-O";
    FlagsOfCastleMove(marker, sfx.0, sfx.1);
    FromChessCoordinates("", "", "", "", "", "", marker, "", sfx.0, sfx.1)
  }

  // ---------------------------------------------------------------------------
  // One square of the vision
  // ---------------------------------------------------------------------------

  /** The king's squares g and c, seen from the e-file, are castling squares. */
  predicate CastleSquare(p: PieceState, s: Sight)
  {
    p.pieceType == King && p.file == 'e' && (s.file == 'g' || s.file == 'c')
  }

  predicate PromotionSquare(p: PieceState, s: Sight)
  {
    p.pieceType == Pawn && (s.rank == '1' || s.rank == '8')
  }

  /**
   * Castling on the king's side (`short`) or the queen's side: the same
   * castle move goes to the piece on the rook's square, at ri, and to the king.
   */
  function CastleStep(pos: seq<PieceState>, ls: seq<seq<ChessMove>>, k: nat, ri: nat, short: bool): (r: seq<seq<ChessMove>>)
    requires Scope(pos, ls, k) && ri < |pos|
    ensures |r| == |ls| && ListsWellFormed(r)
  {
    var m := CastleMove(pos, ri, short, pos[k].pieceColor);
    var ls1 := ls[ri := AddTo(ls[ri], m)];
    ls1[k := AddTo(ls1[k], m)]
  }

  /** The index of the piece a king castles with towards s: the first piece on the h- or a-file of its rank. */
  function CastleRook(pos: seq<PieceState>, k: nat, s: Sight): (ri: nat)
    requires k < |pos| && AllOnBoard(pos) && CastleSquare(pos[k], s) && s in PieceVision(pos, k)
    ensures ri < |pos|
  {
    CastleRookPresent(pos, k, s);
    PieceAt(pos, if s.file == 'g' then 'h' else 'a', pos[k].rank).value
  }

  /**
   * The outer branch of computePieceMoves, for one square of the vision: a
   * castle, else the four promotions (with no disambiguation), else one
   * disambiguated move, each only when the move is legal.
   */
  function NormalStep(pos: seq<PieceState>, ls: seq<seq<ChessMove>>, k: nat, s: Sight): (r: seq<seq<ChessMove>>)
    requires Scope(pos, ls, k) && s in PieceVision(pos, k)
    ensures |r| == |ls| && ListsWellFormed(r)
  {
    var p := pos[k];
    VisionOnBoard(pos, k, s);
    var legal := Legal(pos, k, s.file, s.rank);
    if legal && CastleSquare(p, s) then
      CastleStep(pos, ls, k, CastleRook(pos, k, s), s.file == 'g')
    else if legal && PromotionSquare(p, s) then
      var ms := AddAll(ls[k], Promotions(pos, k, s, "", ""), 0);
      ReplacedWellFormed(ls, k, ms);
      ls[k := ms]
    else if legal then
      var (ls1, ff, fr) := Disambiguate(pos, ls, k, s.file, s.rank);
      var ms := AddTo(ls1[k], PlainMove(pos, k, s, ff, fr, true));
      ReplacedWellFormed(ls1, k, ms);
      ls1[k := ms]
    else ls
  }

  /**
   * The branch for a side in check: no castling; the move is disambiguated
   * first, then it is either the four promotions or one move whose only
   * possible suffix is "#".
   */
  function CheckStep(pos: seq<PieceState>, ls: seq<seq<ChessMove>>, k: nat, s: Sight): (r: seq<seq<ChessMove>>)
    requires Scope(pos, ls, k) && s in PieceVision(pos, k)
    ensures |r| == |ls| && ListsWellFormed(r)
  {
    var p := pos[k];
    VisionOnBoard(pos, k, s);
    if Legal(pos, k, s.file, s.rank) then
      var (ls1, ff, fr) := Disambiguate(pos, ls, k, s.file, s.rank);
      var ms := if PromotionSquare(p, s) then AddAll(ls1[k], Promotions(pos, k, s, ff, fr), 0)
                else AddTo(ls1[k], PlainMove(pos, k, s, ff, fr, false));
      ReplacedWellFormed(ls1, k, ms);
      ls1[k := ms]
    else ls
  }

  function Step(pos: seq<PieceState>, ls: seq<seq<ChessMove>>, k: nat, check: bool, s: Sight): (r: seq<seq<ChessMove>>)
    requires Scope(pos, ls, k) && s in PieceVision(pos, k)
    ensures Scope(pos, r, k)
  {
    if check then CheckStep(pos, ls, k, s) else NormalStep(pos, ls, k, s)
  }

  /** The lists after the loop over the squares of the piece's vision from the j-th on, starting from ls. */
  function GenerateFrom(pos: seq<PieceState>, ls: seq<seq<ChessMove>>, k: nat, check: bool, j: nat): (r: seq<seq<ChessMove>>)
    requires Scope(pos, ls, k) && j <= |PieceVision(pos, k)|
    ensures Scope(pos, r, k)
    decreases |PieceVision(pos, k)| - j
  {
    var v := PieceVision(pos, k);
    if j == |v| then ls
    else GenerateFrom(pos, Step(pos, ls, k, check, v[j]), k, check, j + 1)
  }

  /** computePieceMoves: no moves at all after a mate, otherwise the loop over the whole vision. */
  function Generated(pos: seq<PieceState>, ls: seq<seq<ChessMove>>, k: nat, check: bool, checkmate: bool)
    : (r: seq<seq<ChessMove>>)
    requires Scope(pos, ls, k)
    ensures Scope(pos, r, k)
  {
    if checkmate then ls[k := []] else GenerateFrom(pos, ls, k, check, 0)
  }

  // ---------------------------------------------------------------------------
  // Lemmas the definitions need
  // ---------------------------------------------------------------------------

  lemma VisionOnBoard(pos: seq<PieceState>, k: nat, s: Sight)
    requires k < |pos| && AllOnBoard(pos) && s in PieceVision(pos, k)
    ensures IsSquare(s.file, s.rank)
  {
    var v := PieceVision(pos, k);
    var j :| 0 <= j < |v| && v[j] == s;
  }

  /** An illegal square leaves the lists as they were, in either branch. */
  lemma IllegalStepKeeps(pos: seq<PieceState>, ls: seq<seq<ChessMove>>, k: nat, s: Sight)
    requires Scope(pos, ls, k) && s in PieceVision(pos, k)
    requires IsSquare(s.file, s.rank) && !Legal(pos, k, s.file, s.rank)
    ensures NormalStep(pos, ls, k, s) == ls && CheckStep(pos, ls, k, s) == ls
  {
  }

  /** The branch NormalStep takes for a legal castling square. */
  lemma CastleBranch(pos: seq<PieceState>, ls: seq<seq<ChessMove>>, k: nat, s: Sight)
    requires Scope(pos, ls, k) && s in PieceVision(pos, k)
    requires IsSquare(s.file, s.rank) && Legal(pos, k, s.file, s.rank) && CastleSquare(pos[k], s)
    ensures NormalStep(pos, ls, k, s) == CastleStep(pos, ls, k, CastleRook(pos, k, s), s.file == 'g')
  {
  }

  /** The branch NormalStep takes for a legal promotion square. */
  lemma PromotionBranch(pos: seq<PieceState>, ls: seq<seq<ChessMove>>, k: nat, s: Sight)
    requires Scope(pos, ls, k) && s in PieceVision(pos, k)
    requires IsSquare(s.file, s.rank) && Legal(pos, k, s.file, s.rank)
    requires !CastleSquare(pos[k], s) && PromotionSquare(pos[k], s)
    ensures NormalStep(pos, ls, k, s) == ls[k := AddAll(ls[k], Promotions(pos, k, s, "", ""), 0)]
  {
  }

  /** The branch NormalStep takes for any other legal square. */
  lemma PlainBranch(pos: seq<PieceState>, ls: seq<seq<ChessMove>>, k: nat, s: Sight)
    requires Scope(pos, ls, k) && s in PieceVision(pos, k)
    requires IsSquare(s.file, s.rank) && Legal(pos, k, s.file, s.rank)
    requires !CastleSquare(pos[k], s) && !PromotionSquare(pos[k], s)
    ensures var d := Disambiguate(pos, ls, k, s.file, s.rank);
            NormalStep(pos, ls, k, s) == d.0[k := AddTo(d.0[k], PlainMove(pos, k, s, d.1, d.2, true))]
  {
  }

  /**
   * A legal castling square adds one castle move to two lists: the king's and
   * that of its own piece on the h- (or a-) file of its rank; no other list changes.
   */
  lemma CastleStepIs(pos: seq<PieceState>, ls: seq<seq<ChessMove>>, k: nat, s: Sight)
    requires Scope(pos, ls, k) && s in PieceVision(pos, k)
    requires IsSquare(s.file, s.rank) && Legal(pos, k, s.file, s.rank) && CastleSquare(pos[k], s)
    ensures var ri := CastleRook(pos, k, s);
            var m := CastleMove(pos, ri, s.file == 'g', pos[k].pieceColor);
            var r := NormalStep(pos, ls, k, s);
            ri != k && At(pos[ri], if s.file == 'g' then 'h' else 'a', pos[k].rank) &&
            pos[ri].pieceColor == pos[k].pieceColor &&
            Reduce(m.moveString) == (if s.file == 'g' then "O-O" else "O-O-O") &&
            r[k] == AddTo(ls[k], m) && r[ri] == AddTo(ls[ri], m) &&
            forall i :: 0 <= i < |ls| && i != k && i != ri ==> r[i] == ls[i]
  {
    CastleRookPresent(pos, k, s);
  }

  /**
   * A legal promotion square, outside check, adds exactly the four promotions
   * Q, R, B, N ending on it, without disambiguation, to the mover's list only.
   */
  lemma PromotionStepIs(pos: seq<PieceState>, ls: seq<seq<ChessMove>>, k: nat, s: Sight)
    requires Scope(pos, ls, k) && s in PieceVision(pos, k)
    requires IsSquare(s.file, s.rank) && Legal(pos, k, s.file, s.rank)
    requires !CastleSquare(pos[k], s) && PromotionSquare(pos[k], s)
    ensures var ps := Promotions(pos, k, s, "", "");
            var r := NormalStep(pos, ls, k, s);
            (forall j :: 0 <= j < |ps| ==>
               ps[j] in r[k] && EndsOn(ps[j], s.file, s.rank) && PromotionLetter(ps[j].moveString) == PromotionLetters[j]) &&
            (forall m :: m in r[k] <==> m in ls[k] || m in ps) &&
            forall i :: 0 <= i < |ls| && i != k ==> r[i] == ls[i]
  {
    var ps := Promotions(pos, k, s, "", "");
    AddAllSound(ls[k], ps, 0);
    forall j | 0 <= j < |ps|
      ensures ps[j] in AddAll(ls[k], ps, 0)
    {
      AddAllComplete(ls[k], ps, 0, j);
    }
  }

  /**
   * A legal square that is neither a castle nor a promotion adds one move,
   * ending on it and marked only with the mover's own file or rank, to the
   * mover's list; the only other list that may change is that of one rival,
   * and only in a move that ended on the same square.
   */
  lemma PlainStepIs(pos: seq<PieceState>, ls: seq<seq<ChessMove>>, k: nat, s: Sight)
    requires Scope(pos, ls, k) && s in PieceVision(pos, k)
    requires IsSquare(s.file, s.rank) && Legal(pos, k, s.file, s.rank)
    requires !CastleSquare(pos[k], s) && !PromotionSquare(pos[k], s)
    ensures var d := Disambiguate(pos, ls, k, s.file, s.rank);
            var m := PlainMove(pos, k, s, d.1, d.2, true);
            var r := NormalStep(pos, ls, k, s);
            r[k] == AddTo(ls[k], m) && FinalPosition(m) == (s.file, s.rank) && '=' !in m.moveString &&
            (d.1 == "" || d.1 == [pos[k].file]) && (d.2 == "" || d.2 == [pos[k].rank]) &&
            (forall i :: 0 <= i < |ls| && i != k && r[i] != ls[i] ==>
               Rival(pos[k], pos[i], pos[k].pieceType, pos[k].pieceColor) && |r[i]| == |ls[i]| &&
               forall j :: 0 <= j < |ls[i]| && r[i][j] != ls[i][j] ==> EndsOn(ls[i][j], s.file, s.rank)) &&
            forall i, i' :: 0 <= i < i' < |ls| && i != k && i' != k ==> r[i] == ls[i] || r[i'] == ls[i']
  {
    var p := pos[k];
    match SharedFrom(pos, ls, p, p.pieceType, p.pieceColor, s.file, s.rank, 0)
    case None =>
    case Some((i, j)) =>
      DisambiguateWith(pos, ls, k, s.file, s.rank, i, j);
  }

  /** A one-character coordinate, or nothing: what disambiguation inserts. */
  predicate Mark(s: string) { s == "" || (|s| == 1 && (IsFile(s[0]) || IsRank(s[0]))) }

  lemma MarkClean(s: string)
    requires Mark(s)
    ensures NoSpecial(s) && NoMarker(s) && '=' !in s
  {
  }

  /** The parts the engine assembles a non-castle move from. */
  predicate EngineParts(piecePart: string, fromFile: string, fromRank: string, f: char, r: char,
                        takes: string, promo: string, check: string, checkmate: string)
  {
    IsPiecePart(piecePart) && Mark(fromFile) && Mark(fromRank) && IsSquare(f, r) &&
    (takes == "" || takes == "x") && (promo == "" || promo in PromotionLetters) &&
    (check == "" || check == "+") && (checkmate == "" || checkmate == "#")
  }

  /** An assembled move ends on its destination, which is no castle. */
  lemma AssembledLands(piecePart: string, fromFile: string, fromRank: string, f: char, r: char,
                       takes: string, promo: string, check: string, checkmate: string)
    requires EngineParts(piecePart, fromFile, fromRank, f, r, takes, promo, check, checkmate)
    ensures var m := FromChessCoordinates(piecePart, fromFile, fromRank, [f], [r], takes, "", promo, check, checkmate);
            var red := Reduce(m.moveString);
            |m.moveString| > 0 && |red| >= 2 && !IsCastleString(red) && FinalPosition(m) == (f, r)
  {
    MarkClean(fromFile);
    MarkClean(fromRank);
    MarkClean([f]);
    MarkClean([r]);
    FinalPositionRoundTrip(piecePart, fromFile, fromRank, [f], [r], takes, "", promo, check, checkmate);
    var m := FromChessCoordinates(piecePart, fromFile, fromRank, [f], [r], takes, "", promo, check, checkmate);
    var red := Reduce(m.moveString);
    assert red[|red| - 1] == r;
  }

  /** An assembled move carries "=" exactly when it is a promotion, and then names its letter. */
  lemma AssembledPromotion(piecePart: string, fromFile: string, fromRank: string, f: char, r: char,
                           takes: string, promo: string, check: string, checkmate: string)
    requires EngineParts(piecePart, fromFile, fromRank, f, r, takes, promo, check, checkmate)
    ensures var m := FromChessCoordinates(piecePart, fromFile, fromRank, [f], [r], takes, "", promo, check, checkmate);
            ('=' in m.moveString <==> promo != "") && (promo != "" ==> PromotionLetter(m.moveString) == promo)
  {
    MarkClean(fromFile);
    MarkClean(fromRank);
    MarkClean([f]);
    MarkClean([r]);
    if promo != "" {
      PromotionRoundTrip(piecePart, fromFile, fromRank, [f], [r], takes, "", promo, check, checkmate);
    } else {
      var m := FromChessCoordinates(piecePart, fromFile, fromRank, [f], [r], takes, "", promo, check, checkmate);
      assert m.moveString == Assembled(piecePart, fromFile, fromRank, [f], [r], takes, promo, check, checkmate);
      InAssembled(piecePart, fromFile, fromRank, [f], [r], takes, promo, check, checkmate, '=');
      assert '=' !in piecePart by {
        if piecePart != "" { assert piecePart[0] != '='; }
      }
    }
  }

  /** A move assembled from the engine's parts is one the engine can execute, ending on the destination. */
  lemma AssembledWellFormed(piecePart: string, fromFile: string, fromRank: string, f: char, r: char,
                            takes: string, promo: string, check: string, checkmate: string)
    requires EngineParts(piecePart, fromFile, fromRank, f, r, takes, promo, check, checkmate)
    ensures var m := FromChessCoordinates(piecePart, fromFile, fromRank, [f], [r], takes, "", promo, check, checkmate);
            WellFormedMove(m) && FinalPosition(m) == (f, r) && ('=' in m.moveString <==> promo != "") &&
            (promo != "" ==> PromotionLetter(m.moveString) == promo)
  {
    AssembledLands(piecePart, fromFile, fromRank, f, r, takes, promo, check, checkmate);
    AssembledPromotion(piecePart, fromFile, fromRank, f, r, takes, promo, check, checkmate);
  }

  /** Disambiguation keeps a cached move executable. */
  lemma SpecifiedWellFormed(m: ChessMove, file: string, rank: string)
    requires WellFormedMove(m) && Mark(file) && Mark(rank)
    ensures WellFormedMove(SpecifyFromPosition(m, file, rank))
  {
    var s := m.moveString;
    if s[0] in PieceLetters {
      MarkClean(file);
      MarkClean(rank);
      var m' := SpecifyFromPosition(m, file, rank);
      SpecifyKeepsMarkers(m, file, rank);
      SpecifyKeepsDestination(m, file, rank);
      if '=' in s {
        SpecifyKeepsPromotion(m, file, rank);
      }
      var red' := Reduce(m'.moveString);
      assert red'[|red'| - 1] == FinalPosition(m).1;
    }
  }

  /** Every king step lands on a file next to the king's or on the king's own file. */
  lemma {:induction false} StepsNearFile(pos: seq<PieceState>, row: int, col: int, offsets: seq<(int, int)>,
                                         enemy: PieceColor, s: Sight)
    requires forall i :: 0 <= i < |offsets| ==> -1 <= offsets[i].1 <= 1
    requires s in Steps(pos, row, col, offsets, enemy)
    ensures 'a' as int + col - 1 <= s.file as int <= 'a' as int + col + 1
  {
    if offsets != [] {
      var head := StepSight(pos, row + offsets[0].0, col + offsets[0].1, enemy);
      if s in head {
        assert s == head[0];
      } else {
        StepsNearFile(pos, row, col, offsets[1..], enemy, s);
      }
    }
  }

  /**
   * A king on the e-file sees g or c only through castling, so the piece of
   * its colour it castles with stands on the h- or a-file of its rank.
   */
  lemma CastleRookPresent(pos: seq<PieceState>, k: nat, s: Sight)
    requires k < |pos| && AllOnBoard(pos) && CastleSquare(pos[k], s) && s in PieceVision(pos, k)
    ensures var rook := PieceAt(pos, if s.file == 'g' then 'h' else 'a', pos[k].rank);
            rook.Some? && pos[rook.value].rank == pos[k].rank && pos[rook.value].pieceColor == pos[k].pieceColor
  {
    var p := pos[k];
    var rc := MatrixCoordinates(p.file, p.rank);
    var steps := Steps(pos, rc.0, rc.1, KingOffsets, Enemy(p.pieceColor));
    var castles := CastleSights(pos, p.rank, p.moveCounter, p.pieceColor);
    assert PieceVision(pos, k) == steps + castles;
    if s in steps {
      StepsNearFile(pos, rc.0, rc.1, KingOffsets, Enemy(p.pieceColor), s);
      assert false;
    }
    assert s in castles;
  }

  // ---------------------------------------------------------------------------
  // What one piece's generation adds
  // ---------------------------------------------------------------------------

  /**
   * A move answers the square s of the piece's vision: a castle for a
   * castling square outside check, otherwise a move ending on s.
   */
  predicate Answers(p: PieceState, s: Sight, m: ChessMove, check: bool)
  {
    if !check && CastleSquare(p, s) then Reduce(m.moveString) == (if s.file == 'g' then "O-O" else "O-O-O")
    else EndsOn(m, s.file, s.rank)
  }

  /** The append-if-absent loop keeps ms and adds only moves of ps. */
  lemma {:induction false} AddAllSound(ms: seq<ChessMove>, ps: seq<ChessMove>, i: nat)
    requires i <= |ps|
    ensures forall m :: m in ms ==> m in AddAll(ms, ps, i)
    ensures forall m :: m in AddAll(ms, ps, i) ==> m in ms || m in ps
    decreases |ps| - i
  {
    if i < |ps| {
      AddAllSound(AddTo(ms, ps[i]), ps, i + 1);
    }
  }

  /** The append-if-absent loop adds every move of ps from the i-th on. */
  lemma {:induction false} AddAllComplete(ms: seq<ChessMove>, ps: seq<ChessMove>, i: nat, j: nat)
    requires i <= j < |ps|
    ensures ps[j] in AddAll(ms, ps, i)
    decreases |ps| - i
  {
    assert AddAll(ms, ps, i) == AddAll(AddTo(ms, ps[i]), ps, i + 1);
    if i == j {
      AddAllSound(AddTo(ms, ps[i]), ps, i + 1);
    } else {
      AddAllComplete(AddTo(ms, ps[i]), ps, i + 1, j);
    }
  }

  /** One square adds to the mover's list only moves that answer it, and only when the move is legal. */
  lemma StepSound(pos: seq<PieceState>, ls: seq<seq<ChessMove>>, k: nat, check: bool, s: Sight, m: ChessMove)
    requires Scope(pos, ls, k) && s in PieceVision(pos, k) && IsSquare(s.file, s.rank)
    requires m in Step(pos, ls, k, check, s)[k] && m !in ls[k]
    ensures Legal(pos, k, s.file, s.rank) && Answers(pos[k], s, m, check)
  {
    var p := pos[k];
    if Legal(pos, k, s.file, s.rank) {
      if !check && CastleSquare(p, s) {
        CastleRookPresent(pos, k, s);
      } else if PromotionSquare(p, s) {
        var d := Disambiguate(pos, ls, k, s.file, s.rank);
        var ff, fr := if check then d.1 else "", if check then d.2 else "";
        AddAllSound(ls[k], Promotions(pos, k, s, ff, fr), 0);
      }
    }
  }

  /** One square keeps every move the mover already had. */
  lemma StepKeeps(pos: seq<PieceState>, ls: seq<seq<ChessMove>>, k: nat, check: bool, s: Sight, m: ChessMove)
    requires Scope(pos, ls, k) && s in PieceVision(pos, k) && IsSquare(s.file, s.rank)
    requires m in ls[k]
    ensures m in Step(pos, ls, k, check, s)[k]
  {
    var p := pos[k];
    if Legal(pos, k, s.file, s.rank) && PromotionSquare(p, s) && !(!check && CastleSquare(p, s)) {
      var d := Disambiguate(pos, ls, k, s.file, s.rank);
      var ff, fr := if check then d.1 else "", if check then d.2 else "";
      AddAllSound(ls[k], Promotions(pos, k, s, ff, fr), 0);
    }
  }

  /** A legal square gets a move that answers it. */
  lemma StepAnswers(pos: seq<PieceState>, ls: seq<seq<ChessMove>>, k: nat, check: bool, s: Sight)
    requires Scope(pos, ls, k) && s in PieceVision(pos, k) && IsSquare(s.file, s.rank)
    requires Legal(pos, k, s.file, s.rank)
    ensures exists m :: m in Step(pos, ls, k, check, s)[k] && Answers(pos[k], s, m, check)
  {
    var p := pos[k];
    var r := Step(pos, ls, k, check, s);
    if !check && CastleSquare(p, s) {
      CastleRookPresent(pos, k, s);
      var m := CastleMove(pos, CastleRook(pos, k, s), s.file == 'g', p.pieceColor);
      assert m in r[k];
    } else {
      var d := Disambiguate(pos, ls, k, s.file, s.rank);
      var ff, fr := if check then d.1 else "", if check then d.2 else "";
      if PromotionSquare(p, s) {
        var ps := Promotions(pos, k, s, ff, fr);
        AddAllComplete(ls[k], ps, 0, 0);
        assert ps[0] in r[k] && EndsOn(ps[0], s.file, s.rank);
      } else {
        var m := PlainMove(pos, k, s, d.1, d.2, !check);
        assert m in r[k];
      }
    }
  }

  /** m answers a legal square of the vision from the j-th on. */
  predicate AnswersFrom(pos: seq<PieceState>, k: nat, check: bool, m: ChessMove, j: nat)
    requires k < |pos| && AllOnBoard(pos) && j <= |PieceVision(pos, k)|
    decreases |PieceVision(pos, k)| - j
  {
    var v := PieceVision(pos, k);
    j < |v| &&
    ((assert v[j] in v; VisionOnBoard(pos, k, v[j]);
      Legal(pos, k, v[j].file, v[j].rank) && Answers(pos[k], v[j], m, check)) ||
     AnswersFrom(pos, k, check, m, j + 1))
  }

  /** Names the square AnswersFrom speaks of. */
  lemma {:induction false} AnswersFromMeans(pos: seq<PieceState>, k: nat, check: bool, m: ChessMove, j: nat)
    requires k < |pos| && AllOnBoard(pos) && j <= |PieceVision(pos, k)|
    requires AnswersFrom(pos, k, check, m, j)
    ensures var v := PieceVision(pos, k);
            exists i :: j <= i < |v| && Legal(pos, k, v[i].file, v[i].rank) && Answers(pos[k], v[i], m, check)
    decreases |PieceVision(pos, k)| - j
  {
    var v := PieceVision(pos, k);
    if !(Legal(pos, k, v[j].file, v[j].rank) && Answers(pos[k], v[j], m, check)) {
      AnswersFromMeans(pos, k, check, m, j + 1);
      var i :| j + 1 <= i < |v| && Legal(pos, k, v[i].file, v[i].rank) && Answers(pos[k], v[i], m, check);
      assert j <= i;
    }
  }

  /** A move of the mover after the loop from square j was there before or answers a legal square from j on. */
  lemma {:induction false} GenerateSound(pos: seq<PieceState>, ls: seq<seq<ChessMove>>, k: nat, check: bool, j: nat, m: ChessMove)
    requires Scope(pos, ls, k) && j <= |PieceVision(pos, k)|
    requires m in GenerateFrom(pos, ls, k, check, j)[k]
    ensures m in ls[k] || AnswersFrom(pos, k, check, m, j)
    decreases |PieceVision(pos, k)| - j
  {
    var v := PieceVision(pos, k);
    if j < |v| {
      var next := Step(pos, ls, k, check, v[j]);
      assert v[j] in v;
      GenerateSound(pos, next, k, check, j + 1, m);
      if m !in ls[k] && m in next[k] {
        StepSound(pos, ls, k, check, v[j], m);
      }
    }
  }

  /** The loop keeps every move the mover already has. */
  lemma {:induction false} GenerateKeeps(pos: seq<PieceState>, ls: seq<seq<ChessMove>>, k: nat, check: bool, j: nat, m: ChessMove)
    requires Scope(pos, ls, k) && j <= |PieceVision(pos, k)|
    requires m in ls[k]
    ensures m in GenerateFrom(pos, ls, k, check, j)[k]
    decreases |PieceVision(pos, k)| - j
  {
    var v := PieceVision(pos, k);
    if j < |v| {
      assert v[j] in v;
      StepKeeps(pos, ls, k, check, v[j], m);
      GenerateKeeps(pos, Step(pos, ls, k, check, v[j]), k, check, j + 1, m);
    }
  }

  /** After the loop from square j, the legal square i >= j is answered. */
  lemma {:induction false} GenerateAnswers(pos: seq<PieceState>, ls: seq<seq<ChessMove>>, k: nat, check: bool, j: nat, i: nat)
    requires Scope(pos, ls, k) && j <= i < |PieceVision(pos, k)|
    requires Legal(pos, k, PieceVision(pos, k)[i].file, PieceVision(pos, k)[i].rank)
    ensures exists m :: m in GenerateFrom(pos, ls, k, check, j)[k] && Answers(pos[k], PieceVision(pos, k)[i], m, check)
    decreases |PieceVision(pos, k)| - j
  {
    var v := PieceVision(pos, k);
    var next := Step(pos, ls, k, check, v[j]);
    assert v[j] in v;
    if i == j {
      StepAnswers(pos, ls, k, check, v[j]);
      var m :| m in next[k] && Answers(pos[k], v[j], m, check);
      GenerateKeeps(pos, next, k, check, j + 1, m);
    } else {
      GenerateAnswers(pos, next, k, check, j + 1, i);
    }
  }

  /**
   * What computePieceMoves offers outside mate: besides the moves the piece
   * already had, answers to legal squares of its vision only, and an answer
   * to every legal square.
   */
  lemma GeneratedMoves(pos: seq<PieceState>, ls: seq<seq<ChessMove>>, k: nat, check: bool)
    requires Scope(pos, ls, k)
    ensures var v := PieceVision(pos, k);
            var r := Generated(pos, ls, k, check, false);
            (forall m :: m in r[k] ==>
               m in ls[k] || exists i :: 0 <= i < |v| && Legal(pos, k, v[i].file, v[i].rank) && Answers(pos[k], v[i], m, check)) &&
            (forall i :: 0 <= i < |v| && Legal(pos, k, v[i].file, v[i].rank) ==>
               exists m :: m in r[k] && Answers(pos[k], v[i], m, check))
  {
    var v := PieceVision(pos, k);
    var r := Generated(pos, ls, k, check, false);
    forall m | m in r[k] && m !in ls[k]
      ensures exists i :: 0 <= i < |v| && Legal(pos, k, v[i].file, v[i].rank) && Answers(pos[k], v[i], m, check)
    {
      GenerateSound(pos, ls, k, check, 0, m);
      AnswersFromMeans(pos, k, check, m, 0);
    }
    forall i | 0 <= i < |v| && Legal(pos, k, v[i].file, v[i].rank)
      ensures exists m :: m in r[k] && Answers(pos[k], v[i], m, check)
    {
      GenerateAnswers(pos, ls, k, check, 0, i);
    }
  }

  // ---------------------------------------------------------------------------
  // One piece's generation stays on its own side
  // ---------------------------------------------------------------------------

  /** r keeps every list of ls that belongs to a piece not of colour c. */
  predicate OthersKept(pos: seq<PieceState>, ls: seq<seq<ChessMove>>, r: seq<seq<ChessMove>>, c: PieceColor)
  {
    |r| == |ls| && forall i :: 0 <= i < |ls| && i < |pos| && pos[i].pieceColor != c ==> r[i] == ls[i]
  }

  /** The rival disambiguation rewrites is of the mover's colour. */
  lemma DisambiguateOnSide(pos: seq<PieceState>, ls: seq<seq<ChessMove>>, k: nat, f: char, r: char)
    requires Scope(pos, ls, k)
    ensures OthersKept(pos, ls, Disambiguate(pos, ls, k, f, r).0, pos[k].pieceColor)
  {
    var p := pos[k];
    var o := SharedFrom(pos, ls, p, p.pieceType, p.pieceColor, f, r, 0);
    if o.Some? {
      var (i, j) := o.value;
      assert Rival(p, pos[i], p.pieceType, p.pieceColor);
      DisambiguateWith(pos, ls, k, f, r, i, j);
    }
  }

  /** One square of the outer branch changes only lists of the mover's colour. */
  lemma NormalStepOnSide(pos: seq<PieceState>, ls: seq<seq<ChessMove>>, k: nat, s: Sight)
    requires Scope(pos, ls, k) && s in PieceVision(pos, k)
    ensures OthersKept(pos, ls, NormalStep(pos, ls, k, s), pos[k].pieceColor)
  {
    VisionOnBoard(pos, k, s);
    if !Legal(pos, k, s.file, s.rank) {
      IllegalStepKeeps(pos, ls, k, s);
    } else if CastleSquare(pos[k], s) {
      CastleRookPresent(pos, k, s);
      CastleBranch(pos, ls, k, s);
    } else if PromotionSquare(pos[k], s) {
      PromotionBranch(pos, ls, k, s);
    } else {
      PlainBranch(pos, ls, k, s);
      DisambiguateOnSide(pos, ls, k, s.file, s.rank);
    }
  }

  /** One square of the branch for a side in check changes only lists of the mover's colour. */
  lemma CheckStepOnSide(pos: seq<PieceState>, ls: seq<seq<ChessMove>>, k: nat, s: Sight)
    requires Scope(pos, ls, k) && s in PieceVision(pos, k)
    ensures OthersKept(pos, ls, CheckStep(pos, ls, k, s), pos[k].pieceColor)
  {
    VisionOnBoard(pos, k, s);
    DisambiguateOnSide(pos, ls, k, s.file, s.rank);
  }

  lemma StepOnSide(pos: seq<PieceState>, ls: seq<seq<ChessMove>>, k: nat, check: bool, s: Sight)
    requires Scope(pos, ls, k) && s in PieceVision(pos, k)
    ensures OthersKept(pos, ls, Step(pos, ls, k, check, s), pos[k].pieceColor)
  {
    if check {
      CheckStepOnSide(pos, ls, k, s);
    } else {
      NormalStepOnSide(pos, ls, k, s);
    }
  }

  /** The loop over the vision leaves the list of a piece i of the other colour as it was. */
  lemma {:induction false} GenerateFromOnSide(pos: seq<PieceState>, ls: seq<seq<ChessMove>>, k: nat, check: bool, j: nat,
                                              i: nat)
    requires Scope(pos, ls, k) && j <= |PieceVision(pos, k)|
    requires i < |pos| && pos[i].pieceColor != pos[k].pieceColor
    ensures GenerateFrom(pos, ls, k, check, j)[i] == ls[i]
    decreases |PieceVision(pos, k)| - j
  {
    var v := PieceVision(pos, k);
    if j < |v| {
      var next := Step(pos, ls, k, check, v[j]);
      assert v[j] in v;
      StepOnSide(pos, ls, k, check, v[j]);
      GenerateFromOnSide(pos, next, k, check, j + 1, i);
    }
  }

  /** computePieceMoves touches no list of a piece of the other colour. */
  lemma GeneratedOnSide(pos: seq<PieceState>, ls: seq<seq<ChessMove>>, k: nat, check: bool, checkmate: bool)
    requires Scope(pos, ls, k)
    ensures OthersKept(pos, ls, Generated(pos, ls, k, check, checkmate), pos[k].pieceColor)
  {
    if !checkmate {
      forall i | 0 <= i < |pos| && pos[i].pieceColor != pos[k].pieceColor
        ensures GenerateFrom(pos, ls, k, check, 0)[i] == ls[i]
      {
        GenerateFromOnSide(pos, ls, k, check, 0, i);
      }
    }
  }
}
