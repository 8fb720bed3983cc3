/**
 * The engine's mutable objects: a piece whose placement and cached move list
 * the board updates in place, and the board that owns the list of pieces.
 * Every query the board answers is proved equal to the matching definition
 * on the position value its pieces currently describe.
 */
module Game {
  import opened ChessTypes
  import opened Coordinates
  import opened Moves
  import opened Position
  import opened Generation
  import opened Turn

  /** The elements at i and j differ; named so that distinctness is used only where a proof asks for it. */
  predicate Differ<T(==)>(s: seq<T>, i: nat, j: nat)
    requires i < |s| && j < |s|
  {
    s[i] != s[j]
  }

  predicate NoDuplicates<T(==)>(s: seq<T>) { forall i, j :: 0 <= i < j < |s| ==> Differ(s, i, j) }

  /** Appending an element not yet present keeps the elements distinct exactly when they were. */
  lemma NoDuplicatesAppended<T>(s: seq<T>, x: T)
    requires x !in s
    ensures NoDuplicates(s + [x]) == NoDuplicates(s)
  {
    var t := s + [x];
    if NoDuplicates(s) {
      forall a, b | 0 <= a < b < |t| ensures Differ(t, a, b) {
        if b < |s| { DistinctAt(s, a, b); }
      }
    } else {
      var a, b :| 0 <= a < b < |s| && !Differ(s, a, b);
      assert !Differ(t, a, b);
    }
  }

  /** Dropping the last element of a list without duplicates keeps it so, and the last element is not among the rest. */
  lemma NoDuplicatesInit<T>(s: seq<T>)
    requires |s| > 0 && NoDuplicates(s)
    ensures NoDuplicates(s[..|s| - 1]) && s[|s| - 1] !in s[..|s| - 1]
  {
    var p := s[..|s| - 1];
    forall i, j | 0 <= i < j < |p| ensures Differ(p, i, j) {
      assert Differ(s, i, j);
    }
    forall i | 0 <= i < |p| ensures p[i] != s[|s| - 1] {
      assert Differ(s, i, |s| - 1);
    }
  }

  lemma DistinctAt<T>(s: seq<T>, i: nat, j: nat)
    requires NoDuplicates(s) && i < |s| && j < |s| && i != j
    ensures s[i] != s[j]
  {
    if i < j { assert Differ(s, i, j); } else { assert Differ(s, j, i); }
  }

  lemma RemoveAtKeepsDistinct<T>(s: seq<T>, j: nat)
    requires j < |s| && NoDuplicates(s)
    ensures NoDuplicates(RemoveAt(s, j))
  {
    var r := RemoveAt(s, j);
    forall a, b | 0 <= a < b < |r| ensures Differ(r, a, b) {
      var a' := if a < j then a else a + 1;
      var b' := if b < j then b else b + 1;
      assert r[a] == s[a'] && r[b] == s[b'];
      DistinctAt(s, a', b');
    }
  }

  /** One round of the promotion loop on values: the j-th promotion joins the list, and what is left to add shrinks by one. */
  lemma PromotionRound(ls: seq<seq<ChessMove>>, k: nat, ms: seq<ChessMove>, ps: seq<ChessMove>, j: nat)
    requires k < |ls| && j < |ps|
    ensures ls[k := ms][k := AddTo(ms, ps[j])] == ls[k := AddTo(ms, ps[j])]
    ensures AddAll(ms, ps, j) == AddAll(AddTo(ms, ps[j]), ps, j + 1)
  {
  }

  /** A list without duplicates no longer holds the element removed from it. */
  lemma RemovedIsGone<T>(s: seq<T>, k: nat)
    requires k < |s| && NoDuplicates(s)
    ensures s[k] !in RemoveAt(s, k)
  {
    var r := RemoveAt(s, k);
    forall i | 0 <= i < |r| ensures r[i] != s[k] {
      if i < k { assert r[i] == s[i]; DistinctAt(s, i, k); } else { assert r[i] == s[i + 1]; DistinctAt(s, i + 1, k); }
    }
  }

  /** `list.insert(j, x)` puts back the element x that removal at j took out. */
  lemma InsertUndoesRemove<T>(s: seq<T>, j: nat)
    requires j < |s|
    ensures RemoveAt(s, j)[..j] + [s[j]] + RemoveAt(s, j)[j..] == s
  {
    var r := RemoveAt(s, j);
    var t := r[..j] + [s[j]] + r[j..];
    forall i | 0 <= i < |s| ensures t[i] == s[i] {
      if i < j { assert t[i] == r[i]; } else if i > j { assert t[i] == r[i - 1]; }
    }
  }

  /** Every element left after a removal at j (or after none, at -1) was in the list. */
  lemma RemoveAtWithin<T>(s: seq<T>, r: seq<T>, j: int)
    requires -1 <= j < |s|
    requires j == -1 ==> r == s
    requires j != -1 ==> r == RemoveAt(s, j)
    ensures forall x :: x in r ==> x in s
  {
    forall x | x in r ensures x in s {
      var i :| 0 <= i < |r| && r[i] == x;
      if j != -1 && i >= j { assert s[i + 1] == x; } else { assert s[i] == x; }
    }
  }

  /** Any other element moves down by one place when it stood after the removed one. */
  lemma RemoveAtShifts<T>(s: seq<T>, j: nat, k: nat)
    requires j < |s| && k < |s| && j != k
    ensures var k' := if j < k then k - 1 else k; k' < |s| - 1 && RemoveAt(s, j)[k'] == s[k]
  {
  }

  /** The cached move lists of a list of pieces. */
  ghost function Lists(ps: seq<ChessPiece>): (ls: seq<seq<ChessMove>>)
    reads ps`pieceMoves
    ensures |ls| == |ps| && forall i :: 0 <= i < |ps| ==> ls[i] == ps[i].pieceMoves
  {
    if ps == [] then [] else Lists(ps[..|ps| - 1]) + [ps[|ps| - 1].pieceMoves]
  }

  /** Removing a piece from the list removes its placement. */
  lemma StatesRemoveAt(ps: seq<ChessPiece>, j: nat)
    requires j < |ps|
    ensures States(RemoveAt(ps, j)) == RemoveAt(States(ps), j)
  {
    var rest := RemoveAt(ps, j);
    var a, b := States(rest), States(ps);
    forall i | 0 <= i < |a| ensures a[i] == RemoveAt(b, j)[i] {
      var i' := if i < j then i else i + 1;
      assert rest[i] == ps[i'] && RemoveAt(b, j)[i] == b[i'];
    }
  }

  /** Removing a piece from the list removes its move list. */
  lemma ListsRemoveAt(ps: seq<ChessPiece>, j: nat)
    requires j < |ps|
    ensures Lists(RemoveAt(ps, j)) == RemoveAt(Lists(ps), j)
  {
    var rest := RemoveAt(ps, j);
    var a, b := Lists(rest), Lists(ps);
    forall i | 0 <= i < |a| ensures a[i] == RemoveAt(b, j)[i] {
      var i' := if i < j then i else i + 1;
      assert rest[i] == ps[i'] && RemoveAt(b, j)[i] == b[i'];
    }
  }

  /** The placements of a list of pieces. */
  ghost function States(ps: seq<ChessPiece>): (pos: seq<PieceState>)
    reads ps`pieceType, ps`pieceColor, ps`file, ps`rank, ps`moveCounter
    ensures |pos| == |ps| && forall i :: 0 <= i < |ps| ==> pos[i] == ps[i].State()
  {
    if ps == [] then [] else States(ps[..|ps| - 1]) + [ps[|ps| - 1].State()]
  }

  /** Appending a piece appends its placement and its move list. */
  lemma AppendedStates(ps: seq<ChessPiece>, p: ChessPiece)
    ensures States(ps + [p]) == States(ps) + [p.State()]
    ensures Lists(ps + [p]) == Lists(ps) + [p.pieceMoves]
  {
    assert (ps + [p])[..|ps|] == ps;
  }

  /** The move lists of ps, as one state sees them. */
  lemma ListsAre(ps: seq<ChessPiece>, ls: seq<seq<ChessMove>>)
    requires |ps| == |ls| && forall i :: 0 <= i < |ps| ==> ps[i].pieceMoves == ls[i]
    ensures Lists(ps) == ls
  {
  }

  class ChessPiece {
    var pieceType: PieceType
    var pieceColor: PieceColor
    var file: char
    var rank: char
    var pieceMoves: seq<ChessMove>
    var moveCounter: nat

    constructor (pieceType: PieceType, pieceColor: PieceColor, file: char, rank: char)
      ensures State() == PieceState(pieceType, pieceColor, file, rank, 0)
      ensures pieceMoves == []
    {
      this.pieceType := pieceType;
      this.pieceColor := pieceColor;
      this.file := file;
      this.rank := rank;
      this.pieceMoves := [];
      this.moveCounter := 0;
    }

    /** The placement of this piece as a value. */
    function State(): PieceState
      reads `pieceType, `pieceColor, `file, `rank, `moveCounter
    {
      PieceState(pieceType, pieceColor, file, rank, moveCounter)
    }

    method SetPosition(file: char, rank: char)
      modifies this`file, this`rank
      ensures State() == old(State()).(file := file, rank := rank)
    {
      this.file := file;
      this.rank := rank;
    }

    method SetPieceType(pieceType: PieceType)
      modifies this`pieceType
      ensures State() == old(State()).(pieceType := pieceType)
    {
      this.pieceType := pieceType;
    }

    method IncreaseMoveCounter()
      modifies this`moveCounter
      ensures State() == old(State()).(moveCounter := old(moveCounter) + 1)
    {
      moveCounter := moveCounter + 1;
    }

    /** addMove: appends the move unless an equal move string is already cached. */
    method AddMove(move: ChessMove)
      modifies this`pieceMoves
      ensures move in pieceMoves
      ensures pieceMoves == if move in old(pieceMoves) then old(pieceMoves) else old(pieceMoves) + [move]
      ensures NoDuplicates(old(pieceMoves)) ==> NoDuplicates(pieceMoves)
    {
      if move !in pieceMoves {
        ghost var before := pieceMoves;
        pieceMoves := pieceMoves + [move];
        if NoDuplicates(before) {
          forall a, b | 0 <= a < b < |pieceMoves| ensures Differ(pieceMoves, a, b) {
            if b < |before| { DistinctAt(before, a, b); }
          }
        }
      }
    }

    method ResetPieceMoves()
      modifies this`pieceMoves
      ensures pieceMoves == []
    {
      pieceMoves := [];
    }

    /** The in-place specifyFromPosition on the cached move at index j. */
    method SpecifyMove(j: nat, file: string, rank: string)
      requires j < |pieceMoves| && |pieceMoves[j].moveString| > 0
      modifies this`pieceMoves
      ensures pieceMoves == old(pieceMoves)[j := SpecifyFromPosition(old(pieceMoves)[j], file, rank)]
    {
      pieceMoves := pieceMoves[j := SpecifyFromPosition(pieceMoves[j], file, rank)];
    }

    /**
     * computePieceMoves: after a mate the piece has no moves; otherwise every
     * square of its vision goes through the branch for a side in check or
     * through the outer branch, and the lists end as Generated describes.
     * The source raises when a king the simulations look for is missing;
     * that is excluded here.
     */
    method ComputePieceMoves(board: ChessBoard, ghost k: nat, checkGlobal: bool, checkmateGlobal: bool)
      requires board.Valid() && k < |board.pieces| && board.pieces[k] == this
      requires !checkmateGlobal ==> HasKing(board.Snapshot(), pieceColor) && HasKing(board.Snapshot(), Enemy(pieceColor))
      modifies board`pieces, board.pieces`file, board.pieces`rank, board.pieces`pieceType, board.pieces`pieceMoves
      ensures board.pieces == old(board.pieces) && board.Snapshot() == old(board.Snapshot()) && board.Valid()
      ensures board.MoveLists() == Generated(old(board.Snapshot()), old(board.MoveLists()), k, checkGlobal, checkmateGlobal)
    {
      ghost var pos, ls0 := board.Snapshot(), board.MoveLists();
      if checkmateGlobal {
        board.ResetMovesOf(k, this);
      } else {
        var v := board.GetPieceBoardVision(pieceType, file, rank, moveCounter, pieceColor);
        assert v == PieceVision(pos, k);
        var i := 0;
        while i < |v|
          invariant i <= |v| && board.pieces == old(board.pieces) && board.Snapshot() == pos && board.Valid()
          invariant GenerateFrom(pos, board.MoveLists(), k, checkGlobal, i) == GenerateFrom(pos, ls0, k, checkGlobal, 0)
        {
          ghost var ls := board.MoveLists();
          assert v[i] in v;
          assert GenerateFrom(pos, ls, k, checkGlobal, i) ==
                 GenerateFrom(pos, Step(pos, ls, k, checkGlobal, v[i]), k, checkGlobal, i + 1);
          if checkGlobal {
            ComputeSquareInCheck(board, pos, k, v[i], checkGlobal);
          } else {
            ComputeSquare(board, pos, k, v[i], checkGlobal);
          }
          i := i + 1;
        }
      }
    }

    /** One square of the outer branch: a castle, the four promotions, or one disambiguated move. */
    method ComputeSquare(board: ChessBoard, ghost pos: seq<PieceState>, ghost k: nat, s: Sight, checkGlobal: bool)
      requires board.Valid() && board.Snapshot() == pos && k < |pos| && board.pieces[k] == this
      requires s in PieceVision(pos, k) && HasKing(pos, pieceColor) && HasKing(pos, Enemy(pieceColor))
      modifies board`pieces, board.pieces`file, board.pieces`rank, board.pieces`pieceType, board.pieces`pieceMoves
      ensures board.pieces == old(board.pieces) && board.Snapshot() == pos && board.Valid()
      ensures board.MoveLists() == NormalStep(pos, old(board.MoveLists()), k, s)
    {
      VisionOnBoard(pos, k, s);
      ghost var ls := board.MoveLists();
      var inCheck := CheckAfterMove(board, pos, k, s);
      if pieceType == King && !inCheck && file == 'e' && (s.file == 'g' || s.file == 'c') {
        AddCastle(board, pos, k, s, checkGlobal);
        CastleBranch(pos, ls, k, s);
      } else if pieceType == Pawn && (s.rank == '1' || s.rank == '8') && !inCheck {
        AddPromotions(board, pos, k, s, "", "", checkGlobal);
        PromotionBranch(pos, ls, k, s);
      } else if !inCheck {
        AddDisambiguatedMove(board, pos, k, s, true, checkGlobal);
        PlainBranch(pos, ls, k, s);
      } else {
        IllegalStepKeeps(pos, ls, k, s);
      }
    }

    /** One square of the branch for a side in check: disambiguation, then the promotions or one move. */
    method ComputeSquareInCheck(board: ChessBoard, ghost pos: seq<PieceState>, ghost k: nat, s: Sight, checkGlobal: bool)
      requires board.Valid() && board.Snapshot() == pos && k < |pos| && board.pieces[k] == this
      requires s in PieceVision(pos, k) && HasKing(pos, pieceColor) && HasKing(pos, Enemy(pieceColor))
      modifies board`pieces, board.pieces`file, board.pieces`rank, board.pieces`pieceType, board.pieces`pieceMoves
      ensures board.pieces == old(board.pieces) && board.Snapshot() == pos && board.Valid()
      ensures board.MoveLists() == CheckStep(pos, old(board.MoveLists()), k, s)
    {
      VisionOnBoard(pos, k, s);
      var inCheck := CheckAfterMove(board, pos, k, s);
      if !inCheck {
        if pieceType == Pawn && (s.rank == '8' || s.rank == '1') {
          AddDisambiguatedPromotions(board, pos, k, s, checkGlobal);
        } else {
          AddDisambiguatedMove(board, pos, k, s, false, checkGlobal);
        }
      }
    }

    /** isKingInCheckAfterMoving for this piece moved to s: the move lists are left alone. */
    method CheckAfterMove(board: ChessBoard, ghost pos: seq<PieceState>, ghost k: nat, s: Sight) returns (inCheck: bool)
      requires board.Valid() && board.Snapshot() == pos && k < |pos| && board.pieces[k] == this
      requires IsSquare(s.file, s.rank) && HasKing(pos, pieceColor)
      modifies board`pieces, board.pieces`file, board.pieces`rank, board.pieces`pieceType
      ensures board.pieces == old(board.pieces) && board.Snapshot() == pos && board.Valid()
      ensures board.MoveLists() == old(board.MoveLists())
      ensures inCheck == !Legal(pos, k, s.file, s.rank)
    {
      SimulatedKeepsKing(pos, k, pieceType, s.file, s.rank, pieceColor, pieceColor);
      ghost var ls := board.MoveLists();
      inCheck := board.IsKingInCheckAfterMoving(pos, k, this, pieceType, s.file, s.rank, pieceColor);
      ListsAre(board.pieces, ls);
    }

    /** The disambiguation step, then the one move to s it leads to. */
    method AddDisambiguatedMove(board: ChessBoard, ghost pos: seq<PieceState>, ghost k: nat, s: Sight,
                                plus: bool, checkGlobal: bool)
      requires board.Valid() && board.Snapshot() == pos && k < |pos| && board.pieces[k] == this
      requires IsSquare(s.file, s.rank) && HasKing(pos, Enemy(pieceColor))
      modifies board`pieces, board.pieces`file, board.pieces`rank, board.pieces`pieceType, board.pieces`pieceMoves
      ensures board.pieces == old(board.pieces) && board.Snapshot() == pos && board.Valid()
      ensures var d := Disambiguate(pos, old(board.MoveLists()), k, s.file, s.rank);
              board.MoveLists() == d.0[k := AddTo(d.0[k], PlainMove(pos, k, s, d.1, d.2, plus))]
    {
      var fromFile, fromRank := Disambiguation(board, pos, k, s.file, s.rank);
      AddPlainMove(board, pos, k, s, fromFile, fromRank, plus, checkGlobal);
    }

    /** The disambiguation step, then the four promotions to s with the marks it chose. */
    method AddDisambiguatedPromotions(board: ChessBoard, ghost pos: seq<PieceState>, ghost k: nat, s: Sight,
                                      checkGlobal: bool)
      requires board.Valid() && board.Snapshot() == pos && k < |pos| && board.pieces[k] == this
      requires IsSquare(s.file, s.rank) && PromotionSquare(pos[k], s) && HasKing(pos, Enemy(pieceColor))
      modifies board`pieces, board.pieces`file, board.pieces`rank, board.pieces`pieceType, board.pieces`pieceMoves
      ensures board.pieces == old(board.pieces) && board.Snapshot() == pos && board.Valid()
      ensures var d := Disambiguate(pos, old(board.MoveLists()), k, s.file, s.rank);
              board.MoveLists() == d.0[k := AddAll(d.0[k], Promotions(pos, k, s, d.1, d.2), 0)]
    {
      var fromFile, fromRank := Disambiguation(board, pos, k, s.file, s.rank);
      AddPromotions(board, pos, k, s, fromFile, fromRank, checkGlobal);
    }

    /**
     * Castling towards s: the castle move goes to the rook on the h- or
     * a-file and to the king.
     */
    method AddCastle(board: ChessBoard, ghost pos: seq<PieceState>, ghost k: nat, s: Sight, checkGlobal: bool)
      requires board.Valid() && board.Snapshot() == pos && k < |pos| && board.pieces[k] == this
      requires s in PieceVision(pos, k) && CastleSquare(pos[k], s) && HasKing(pos, Enemy(pieceColor))
      modifies board`pieces, board.pieces`file, board.pieces`rank, board.pieces`pieceType, board.pieces`pieceMoves
      ensures board.pieces == old(board.pieces) && board.Snapshot() == pos && board.Valid()
      ensures board.MoveLists() == CastleStep(pos, old(board.MoveLists()), k, CastleRook(pos, k, s), s.file == 'g')
    {
      ghost var ls := board.MoveLists();
      var rook, move := CastleMoveFor(board, pos, k, s, checkGlobal);
      ListsAre(board.pieces, ls);
      board.AddCastleMoves(CastleRook(pos, k, s), k, rook, this, move);
    }

    /**
     * The castle move and the rook it goes to, the first piece on the h- or
     * a-file of the king's rank: the rook is simulated on the f- or d-file,
     * and the move gets "#" when that mates (never "+": the branch tests a
     * local flag that is never set).
     */
    method CastleMoveFor(board: ChessBoard, ghost pos: seq<PieceState>, ghost k: nat, s: Sight, checkGlobal: bool)
      returns (rook: ChessPiece, move: ChessMove)
      requires board.Placed() && board.Snapshot() == pos && k < |pos| && board.pieces[k] == this
      requires s in PieceVision(pos, k) && CastleSquare(pos[k], s) && HasKing(pos, Enemy(pieceColor))
      modifies board`pieces, board.pieces`file, board.pieces`rank, board.pieces`pieceType
      ensures board.pieces == old(board.pieces) && board.Snapshot() == pos && board.Placed()
      ensures rook == board.pieces[CastleRook(pos, k, s)]
      ensures move == CastleMove(pos, CastleRook(pos, k, s), s.file == 'g', pos[k].pieceColor) && WellFormedMove(move)
    {
      ghost var ri := CastleRook(pos, k, s);
      CastleRookPresent(pos, k, s);
      var short := s.file == 'g';
      var found := board.GetPieceAtPosition(if short then 'h' else 'a', rank);
      rook := found;
      var rookFile := if short then 'f' else 'd';
      SimulatedKeepsKing(pos, ri, rook.pieceType, rookFile, rook.rank, pieceColor, Enemy(pieceColor));
      var check, mated := board.IsEnemyKingCheckmatedAfterMove(pos, ri, rook, rook.pieceType, rookFile, rook.rank,
                                                               pieceColor, checkGlobal);
      move := FromChessCoordinates("", "", "", "", "", "", if short then "O-O" else "O-O-O", "", "",
                                   if mated then "#" else "");
    }

    /** The four promotions to s, in the order Q, R, B, N. */
    method AddPromotions(board: ChessBoard, ghost pos: seq<PieceState>, ghost k: nat, s: Sight,
                         fromFile: string, fromRank: string, checkGlobal: bool)
      requires board.Valid() && board.Snapshot() == pos && k < |pos| && board.pieces[k] == this
      requires IsSquare(s.file, s.rank) && PromotionSquare(pos[k], s) && HasKing(pos, Enemy(pieceColor))
      requires fromFile == "" || fromFile == [pos[k].file]
      requires fromRank == "" || fromRank == [pos[k].rank]
      modifies board`pieces, board.pieces`file, board.pieces`rank, board.pieces`pieceType, board.pieces`pieceMoves
      ensures board.pieces == old(board.pieces) && board.Snapshot() == pos && board.Valid()
      ensures var ls := old(board.MoveLists());
              board.MoveLists() == ls[k := AddAll(ls[k], Promotions(pos, k, s, fromFile, fromRank), 0)]
    {
      ghost var ls0 := board.MoveLists();
      ghost var ps := Promotions(pos, k, s, fromFile, fromRank);
      ghost var ms := ls0[k];
      for j := 0 to |PromotionLetters|
        invariant board.pieces == old(board.pieces) && board.Snapshot() == pos && board.Valid()
        invariant board.MoveLists() == ls0[k := ms] && AddAll(ms, ps, j) == AddAll(ls0[k], ps, 0)
      {
        AddPromotion(board, pos, k, s, fromFile, fromRank, PromotionLetters[j], checkGlobal);
        PromotionRound(ls0, k, ms, ps, j);
        ms := AddTo(ms, ps[j]);
      }
    }

    /** One round of the promotion loop: the promotion the letter names goes to this piece's list. */
    method AddPromotion(board: ChessBoard, ghost pos: seq<PieceState>, ghost k: nat, s: Sight,
                        fromFile: string, fromRank: string, letter: string, checkGlobal: bool)
      requires board.Valid() && board.Snapshot() == pos && k < |pos| && board.pieces[k] == this
      requires IsSquare(s.file, s.rank) && PromotionSquare(pos[k], s) && HasKing(pos, Enemy(pieceColor))
      requires letter in PromotionLetters
      requires fromFile == "" || fromFile == [pos[k].file]
      requires fromRank == "" || fromRank == [pos[k].rank]
      modifies board`pieces, board.pieces`file, board.pieces`rank, board.pieces`pieceType, board.pieces`pieceMoves
      ensures board.pieces == old(board.pieces) && board.Snapshot() == pos && board.Valid()
      ensures var ls := old(board.MoveLists());
              board.MoveLists() == ls[k := AddTo(ls[k], PromotionMove(pos, k, s, fromFile, fromRank, letter))]
    {
      ghost var ls := board.MoveLists();
      var move := PromotionMoveFor(board, pos, k, s, fromFile, fromRank, letter, checkGlobal);
      ListsAre(board.pieces, ls);
      board.AddMoveTo(k, this, move);
    }

    /** One promotion, to the type the letter names; its suffix comes from the simulation as that type. */
    method PromotionMoveFor(board: ChessBoard, ghost pos: seq<PieceState>, ghost k: nat, s: Sight,
                            fromFile: string, fromRank: string, letter: string, checkGlobal: bool)
      returns (move: ChessMove)
      requires board.Placed() && board.Snapshot() == pos && k < |pos| && board.pieces[k] == this
      requires IsSquare(s.file, s.rank) && PromotionSquare(pos[k], s) && HasKing(pos, Enemy(pieceColor))
      requires letter in PromotionLetters
      requires fromFile == "" || fromFile == [pos[k].file]
      requires fromRank == "" || fromRank == [pos[k].rank]
      modifies board`pieces, board.pieces`file, board.pieces`rank, board.pieces`pieceType
      ensures board.pieces == old(board.pieces) && board.Snapshot() == pos && board.Placed()
      ensures move == PromotionMove(pos, k, s, fromFile, fromRank, letter) && WellFormedMove(move)
    {
      var piecePart := if s.takes then [file] else Letter(pieceType);
      var t := FromLetter(letter).value;
      SimulatedKeepsKing(pos, k, t, s.file, s.rank, pieceColor, Enemy(pieceColor));
      var check, mated := board.IsEnemyKingCheckmatedAfterMove(pos, k, this, t, s.file, s.rank, pieceColor, checkGlobal);
      move := FromChessCoordinates(piecePart, fromFile, fromRank, [s.file], [s.rank], TakesMark(s.takes), "",
                                   letter, if !mated && check then "+" else "", if mated then "#" else "");
    }

    /** Adds PlainMoveFor's move. */
    method AddPlainMove(board: ChessBoard, ghost pos: seq<PieceState>, ghost k: nat, s: Sight,
                        fromFile: string, fromRank: string, plus: bool, checkGlobal: bool)
      requires board.Valid() && board.Snapshot() == pos && k < |pos| && board.pieces[k] == this
      requires IsSquare(s.file, s.rank) && HasKing(pos, Enemy(pieceColor))
      requires fromFile == "" || fromFile == [pos[k].file]
      requires fromRank == "" || fromRank == [pos[k].rank]
      modifies board`pieces, board.pieces`file, board.pieces`rank, board.pieces`pieceType, board.pieces`pieceMoves
      ensures board.pieces == old(board.pieces) && board.Snapshot() == pos && board.Valid()
      ensures var ls := old(board.MoveLists());
              board.MoveLists() == ls[k := AddTo(ls[k], PlainMove(pos, k, s, fromFile, fromRank, plus))]
    {
      ghost var ls := board.MoveLists();
      var move := PlainMoveFor(board, pos, k, s, fromFile, fromRank, plus, checkGlobal);
      ListsAre(board.pieces, ls);
      board.AddMoveTo(k, this, move);
    }

    /**
     * One move to s: "#" when it mates, otherwise "+" when it checks and `plus`
     * holds (the branch for a side in check passes false: it tests a local
     * flag that is never set).
     */
    method PlainMoveFor(board: ChessBoard, ghost pos: seq<PieceState>, ghost k: nat, s: Sight,
                        fromFile: string, fromRank: string, plus: bool, checkGlobal: bool)
      returns (move: ChessMove)
      requires board.Placed() && board.Snapshot() == pos && k < |pos| && board.pieces[k] == this
      requires IsSquare(s.file, s.rank) && HasKing(pos, Enemy(pieceColor))
      requires fromFile == "" || fromFile == [pos[k].file]
      requires fromRank == "" || fromRank == [pos[k].rank]
      modifies board`pieces, board.pieces`file, board.pieces`rank, board.pieces`pieceType
      ensures board.pieces == old(board.pieces) && board.Snapshot() == pos && board.Placed()
      ensures move == PlainMove(pos, k, s, fromFile, fromRank, plus) && WellFormedMove(move)
    {
      var piecePart := Letter(pieceType);
      if s.takes && pieceType == Pawn {
        piecePart := [file];
      }
      SimulatedKeepsKing(pos, k, pieceType, s.file, s.rank, pieceColor, Enemy(pieceColor));
      var check, mated := board.IsEnemyKingCheckmatedAfterMove(pos, k, this, pieceType, s.file, s.rank, pieceColor, checkGlobal);
      move := FromChessCoordinates(piecePart, fromFile, fromRank, [s.file], [s.rank], TakesMark(s.takes), "", "",
                                   if !mated && plus && check then "+" else "", if mated then "#" else "");
    }

    /**
     * The disambiguation step: when a rival reaches (f, r), its move gets the
     * rival's file or rank and this move gets this piece's, as RivalMarks says.
     */
    method Disambiguation(board: ChessBoard, ghost pos: seq<PieceState>, ghost k: nat, f: char, r: char)
      returns (fromFile: string, fromRank: string)
      requires board.Valid() && board.Snapshot() == pos && k < |pos| && board.pieces[k] == this
      modifies board.pieces`pieceMoves
      ensures board.pieces == old(board.pieces) && board.Snapshot() == pos && board.Valid()
      ensures var d := Disambiguate(pos, old(board.MoveLists()), k, f, r);
              board.MoveLists() == d.0 && fromFile == d.1 && fromRank == d.2
    {
      ghost var ls := board.MoveLists();
      var shared := board.IsDestinationSquareShared(pos, ls, this, pieceType, pieceColor, f, r);
      fromFile, fromRank := "", "";
      if shared.Some? {
        var (i, j) := shared.value;
        DisambiguateWith(pos, ls, k, f, r, i, j);
        var otherFile, otherRank := board.SpecifyRival(pos, i, j, f, r);
        if otherFile != "" {
          fromFile := [file];
        }
        if otherRank != "" {
          fromRank := [rank];
        }
      }
    }
  }

  class ChessBoard {
    var pieces: seq<ChessPiece>
    var moveNumber: nat
    var gameEnded: bool
    var winner: Option<PieceColor>
    var executedMoves: seq<ChessMove>

    constructor ()
      ensures pieces == [] && moveNumber == 0 && !gameEnded && winner == None && executedMoves == []
    {
      pieces := [];
      moveNumber := 0;
      gameEnded := false;
      winner := None;
      executedMoves := [];
    }

    /** The position the pieces describe, in list order. */
    ghost function Snapshot(): (pos: seq<PieceState>)
      reads `pieces, pieces`pieceType, pieces`pieceColor, pieces`file, pieces`rank, pieces`moveCounter
      ensures |pos| == |pieces| && forall i :: 0 <= i < |pieces| ==> pos[i] == pieces[i].State()
    {
      States(pieces)
    }

    /** No piece object appears twice in the list. */
    ghost predicate Distinct()
      reads `pieces
    {
      NoDuplicates(pieces)
    }

    /** The cached move lists of the pieces, in list order. */
    ghost function MoveLists(): (ls: seq<seq<ChessMove>>)
      reads `pieces, pieces`pieceMoves
      ensures |ls| == |pieces| && forall i :: 0 <= i < |pieces| ==> ls[i] == pieces[i].pieceMoves
    {
      Lists(pieces)
    }

    /**
     * The board's invariant: distinct piece objects, every piece on a square,
     * every cached move one that executeMove can apply.
     */
    ghost predicate Valid()
      reads this, pieces
    {
      Placed() && ListsWellFormed(MoveLists())
    }

    /** The part of the invariant the simulations need: distinct pieces, each on a square. */
    ghost predicate Placed()
      reads `pieces, pieces`pieceType, pieces`pieceColor, pieces`file, pieces`rank, pieces`moveCounter
    {
      Distinct() && AllOnBoard(Snapshot())
    }

    method IsOccupied(f: char, r: char) returns (b: bool)
      ensures pieces == old(pieces) && Snapshot() == old(Snapshot())
      ensures b == Occupied(Snapshot(), f, r)
    {
      for i := 0 to |pieces|
        invariant forall j :: 0 <= j < i ==> !At(pieces[j].State(), f, r)
      {
        if pieces[i].file == f && pieces[i].rank == r {
          assert At(Snapshot()[i], f, r);
          return true;
        }
      }
      return false;
    }

    method IsOccupiedByEnemyPiece(f: char, r: char, enemyColor: PieceColor) returns (b: bool)
      ensures pieces == old(pieces) && Snapshot() == old(Snapshot())
      ensures b == OccupiedBy(Snapshot(), f, r, enemyColor)
    {
      for i := 0 to |pieces|
        invariant forall j :: 0 <= j < i ==> !(At(pieces[j].State(), f, r) && pieces[j].pieceColor == enemyColor)
      {
        if pieces[i].file == f && pieces[i].rank == r && pieces[i].pieceColor == enemyColor {
          assert At(Snapshot()[i], f, r) && Snapshot()[i].pieceColor == enemyColor;
          return true;
        }
      }
      return false;
    }

    method GetPieceAtPosition(f: char, r: char) returns (p: ChessPiece?)
      ensures pieces == old(pieces) && Snapshot() == old(Snapshot())
      ensures p == null <==> PieceAt(Snapshot(), f, r).None?
      ensures p != null ==> PieceAt(Snapshot(), f, r).Some? && p == pieces[PieceAt(Snapshot(), f, r).value]
    {
      for i := 0 to |pieces|
        invariant forall j :: 0 <= j < i ==> !At(pieces[j].State(), f, r)
      {
        if pieces[i].file == f && pieces[i].rank == r {
          assert At(Snapshot()[i], f, r);
          return pieces[i];
        }
      }
      return null;
    }

    /** list.index: the first piece equal to p in type, colour and square. */
    method IndexOf(p: ChessPiece) returns (i: nat)
      requires exists j :: 0 <= j < |pieces| && SamePiece(pieces[j].State(), p.State())
      ensures i < |pieces| && SamePiece(pieces[i].State(), p.State())
      ensures forall j :: 0 <= j < i ==> !SamePiece(pieces[j].State(), p.State())
    {
      i := 0;
      while !SamePiece(pieces[i].State(), p.State())
        invariant i < |pieces|
        invariant forall j :: 0 <= j < i ==> !SamePiece(pieces[j].State(), p.State())
        decreases |pieces| - i
      {
        i := i + 1;
      }
    }

    /** One sliding loop `for i in range(1, 8)` of getPieceBoardVision; (r, c) is the i-th cell. */
    method RayVision(ghost pos: seq<PieceState>, row: int, col: int, dr: int, dc: int, len: nat, enemy: PieceColor) returns (v: seq<Sight>)
      requires pos == Snapshot()
      ensures Snapshot() == pos
      ensures v == Ray(pos, row + dr, col + dc, dr, dc, len, enemy)
    {
      v := [];
      var r, c := row + dr, col + dc;
      var n := len;
      ghost var whole := Ray(pos, r, c, dr, dc, n, enemy);
      while n > 0
        invariant pos == Snapshot()
        invariant whole == v + Ray(pos, r, c, dr, dc, n, enemy)
      {
        ghost var rest := Ray(pos, r + dr, c + dc, dr, dc, n - 1, enemy);
        if InBounds(r, c) {
          var stop, s := CellVision(pos, r, c, enemy);
          if stop {
            assert Ray(pos, r, c, dr, dc, n, enemy) == s;
            v := v + s;
            return;
          }
          assert Ray(pos, r, c, dr, dc, n, enemy) == s + rest;
          assert v + (s + rest) == (v + s) + rest;
          v := v + s;
        }
        r, c, n := r + dr, c + dc, n - 1;
      }
    }

    /** The body of a sliding loop for a cell on the board. */
    method CellVision(ghost pos: seq<PieceState>, r: int, c: int, enemy: PieceColor) returns (stop: bool, s: seq<Sight>)
      requires pos == Snapshot() && InBounds(r, c)
      ensures Snapshot() == pos
      ensures (stop, s) == RayCell(pos, r, c, enemy)
    {
      var sq := ChessNotationCoordinates(r, c);
      CellIsNotation(r, c);
      var obstructing := GetPieceAtPosition(sq.0, sq.1);
      if obstructing != null {
        stop := true;
        s := if obstructing.pieceColor == enemy then [Sight(sq.0, sq.1, true)] else [];
      } else {
        stop, s := false, [Sight(sq.0, sq.1, false)];
      }
    }

    /** The sliding loops for each direction in turn. */
    method RaysVision(ghost pos: seq<PieceState>, row: int, col: int, dirs: seq<(int, int)>, len: nat, enemy: PieceColor) returns (v: seq<Sight>)
      requires pos == Snapshot()
      ensures Snapshot() == pos
      ensures v == Rays(pos, row, col, dirs, len, enemy)
    {
      v := [];
      for d := 0 to |dirs|
        invariant pos == Snapshot()
        invariant Rays(pos, row, col, dirs, len, enemy) == v + Rays(pos, row, col, dirs[d..], len, enemy)
      {
        assert dirs[d..][1..] == dirs[d + 1..];
        var ray := RayVision(pos, row, col, dirs[d].0, dirs[d].1, len, enemy);
        v := v + ray;
      }
    }

    /** A knight's or king's single step to (row, col). */
    method StepVision(ghost pos: seq<PieceState>, row: int, col: int, enemy: PieceColor) returns (v: seq<Sight>)
      requires pos == Snapshot()
      ensures Snapshot() == pos
      ensures v == StepSight(pos, row, col, enemy)
    {
      v := [];
      if InBounds(row, col) {
        var sq := ChessNotationCoordinates(row, col);
        CellIsNotation(row, col);
        var obstructing := GetPieceAtPosition(sq.0, sq.1);
        if obstructing != null {
          if obstructing.pieceColor == enemy {
            v := [Sight(sq.0, sq.1, true)];
          }
        } else {
          v := [Sight(sq.0, sq.1, false)];
        }
      }
    }

    /** The knight's or king's nested offset loops, in the source's order. */
    method StepsVision(ghost pos: seq<PieceState>, row: int, col: int, offsets: seq<(int, int)>, enemy: PieceColor) returns (v: seq<Sight>)
      requires pos == Snapshot()
      ensures Snapshot() == pos
      ensures v == Steps(pos, row, col, offsets, enemy)
    {
      v := [];
      for d := 0 to |offsets|
        invariant pos == Snapshot()
        invariant v == StepsUpTo(pos, row, col, offsets, d, enemy)
      {
        var step := StepVision(pos, row + offsets[d].0, col + offsets[d].1, enemy);
        v := v + step;
      }
      StepsUpToAll(pos, row, col, offsets, enemy);
    }

    /** A pawn push: the square, when it is on the board and isOccupied says no. */
    method PushVision(ghost pos: seq<PieceState>, row: int, col: int) returns (v: seq<Sight>)
      requires pos == Snapshot()
      ensures Snapshot() == pos
      ensures v == PushSight(pos, row, col)
    {
      v := [];
      if InBounds(row, col) {
        var t := ChessNotationCoordinates(row, col);
        CellIsNotation(row, col);
        var occupied := IsOccupied(t.0, t.1);
        if !occupied {
          v := [Sight(t.0, t.1, false)];
        }
      }
    }

    /** A pawn capture: the square, when isOccupiedByEnemyPiece says yes. */
    method CaptureVision(ghost pos: seq<PieceState>, row: int, col: int, enemy: PieceColor) returns (v: seq<Sight>)
      requires pos == Snapshot()
      ensures Snapshot() == pos
      ensures v == CaptureSight(pos, row, col, enemy)
    {
      v := [];
      if InBounds(row, col) {
        var t := ChessNotationCoordinates(row, col);
        var enemyThere := IsOccupiedByEnemyPiece(t.0, t.1, enemy);
        CellIsNotation(row, col);
        if enemyThere {
          v := [Sight(t.0, t.1, true)];
        }
      }
    }

    /** A pawn's forward pushes and diagonal captures. */
    method PawnVision(ghost pos: seq<PieceState>, row: int, col: int, moveCounter: nat, dir: int, enemy: PieceColor) returns (v: seq<Sight>)
      requires InBounds(row, col) && (dir == -1 || dir == 1)
      requires pos == Snapshot()
      ensures Snapshot() == pos
      ensures v == PawnSights(pos, row, col, moveCounter, dir, enemy)
    {
      var one := PushVision(pos, row + dir, col);
      var two := [];
      if moveCounter == 0 {
        two := PushVision(pos, row + 2 * dir, col);
      }
      var left := CaptureVision(pos, row + dir, col - 1, enemy);
      var right := CaptureVision(pos, row + dir, col + 1, enemy);
      v := one + two + left + right;
    }

    /** The short castling square: rook on h unmoved, king unmoved, f and g empty. */
    method ShortCastleVision(ghost pos: seq<PieceState>, rank: char, moveCounter: nat, color: PieceColor) returns (v: seq<Sight>)
      requires pos == Snapshot()
      ensures Snapshot() == pos
      ensures v == if ShortCastleOpen(pos, rank, moveCounter, color) then [Sight('g', rank, false)] else []
    {
      v := [];
      var rook1 := GetPieceAtPosition('h', rank);
      if rook1 != null && rook1.pieceColor == color && rook1.moveCounter == 0 && moveCounter == 0 {
        var f := IsOccupied('f', rank);
        var g := IsOccupied('g', rank);
        if !f && !g {
          v := [Sight('g', rank, false)];
        }
      }
    }

    /** The long castling square: rook on a unmoved, king unmoved, b, c and d empty. */
    method LongCastleVision(ghost pos: seq<PieceState>, rank: char, moveCounter: nat, color: PieceColor) returns (v: seq<Sight>)
      requires pos == Snapshot()
      ensures Snapshot() == pos
      ensures v == if LongCastleOpen(pos, rank, moveCounter, color) then [Sight('c', rank, false)] else []
    {
      v := [];
      var rook2 := GetPieceAtPosition('a', rank);
      if rook2 != null && rook2.pieceColor == color && rook2.moveCounter == 0 && moveCounter == 0 {
        var b := IsOccupied('b', rank);
        var c := IsOccupied('c', rank);
        var d := IsOccupied('d', rank);
        if !b && !c && !d {
          v := [Sight('c', rank, false)];
        }
      }
    }

    /** getPieceBoardVision: the pseudo-legal squares of a piece of the given kind on (f, r). */
    method GetPieceBoardVision(t: PieceType, f: char, r: char, moveCounter: nat, color: PieceColor) returns (v: seq<Sight>)
      requires IsSquare(f, r)
      ensures v == Vision(Snapshot(), t, f, r, moveCounter, color)
      ensures SightsOnBoard(v)
    {
      ghost var pos := Snapshot();
      var row, col := GetMatrixCoordinates(f, r);
      var enemy := if color == Black then White else Black;
      match t
      case Pawn =>
        v := PawnVision(pos, row, col, moveCounter, if color == White then -1 else 1, enemy);
      case Bishop =>
        v := RaysVision(pos, row, col, BishopDirections, RayLength, enemy);
      case Rook =>
        v := RaysVision(pos, row, col, RookDirections, RayLength, enemy);
      case Queen =>
        v := RaysVision(pos, row, col, BishopDirections + RookDirections, RayLength, enemy);
      case Knight =>
        v := StepsVision(pos, row, col, KnightOffsets, enemy);
      case King =>
        var steps := StepsVision(pos, row, col, KingOffsets, enemy);
        var short := ShortCastleVision(pos, r, moveCounter, color);
        var long := LongCastleVision(pos, r, moveCounter, color);
        v := steps + (short + long);
    }

    /**
     * The first half of the provisional move: the piece found on (f, r), when
     * it is not a king and not of `color`, leaves the list (`list.remove`
     * deletes the first equal element, the one `list.index` found).
     */
    method RemoveCaptured(ghost pos: seq<PieceState>, f: char, r: char, color: PieceColor)
      returns (removed: ChessPiece?, index: int)
      requires pos == Snapshot() && Placed()
      modifies this`pieces
      ensures Placed() && index == CaptureIndex(pos, f, r, color)
      ensures index == -1 ==> pieces == old(pieces) && Snapshot() == pos
      ensures index != -1 ==> removed == old(pieces)[index] && pieces == RemoveAt(old(pieces), index) &&
                              Snapshot() == RemoveAt(pos, index) && removed.State() == pos[index]
    {
      removed := GetPieceAtPosition(f, r);
      ghost var c := Captured(pos, f, r, color);
      index := -1;
      if removed != null && removed.pieceType != King && color != removed.pieceColor {
        ghost var j := PieceAt(pos, f, r).value;
        assert removed == pieces[j] && c == Some(j);
        index := IndexOf(removed);
        assert index == j;
        Pop(pos, index);
      } else {
        assert c.None?;
      }
    }

    /** `list.pop(index)` on the piece list. */
    method Pop(ghost pos: seq<PieceState>, index: nat)
      requires pos == Snapshot() && Placed() && index < |pieces|
      modifies this`pieces
      ensures Placed() && pieces == RemoveAt(old(pieces), index) && Snapshot() == RemoveAt(pos, index)
      ensures MoveLists() == RemoveAt(old(MoveLists()), index)
    {
      ghost var ps := pieces;
      RemoveAtKeepsDistinct(ps, index);
      pieces := RemoveAt(pieces, index);
      assert States(ps) == pos;
      StatesRemoveAt(ps, index);
      ListsRemoveAt(ps, index);
    }

    /**
     * The second half of the provisional move: the piece, the k-th of the list
     * `ps` the board held before the capture at `index`, takes (f, r) and the type t.
     */
    method Place(ghost pos: seq<PieceState>, ghost ps: seq<ChessPiece>, ghost k: nat, ghost index: int,
                 ghost other: ChessPiece?, piece: ChessPiece, t: PieceType, f: char, r: char)
      requires Placed() && IsSquare(f, r) && |ps| == |pos| && k < |ps| && ps[k] == piece && NoDuplicates(ps)
      requires piece.State() == pos[k] && -1 <= index < |ps|
      requires index == -1 ==> pieces == ps && Snapshot() == pos
      requires index != -1 ==> pieces == RemoveAt(ps, index) && Snapshot() == RemoveAt(pos, index)
      modifies piece`file, piece`rank, piece`pieceType
      ensures Placed() && piece.State() == pos[k].(pieceType := t, file := f, rank := r)
      ensures Snapshot() == Moved(pos, k, piece.State(), index)
      ensures other != null && other != piece ==> other.State() == old(other.State())
    {
      ghost var mid := Snapshot();
      piece.file, piece.rank, piece.pieceType := f, r, t;
      ghost var m := Moved(pos, k, piece.State(), index);
      forall i | 0 <= i < |pieces| ensures pieces[i].State() == m[i] {
        var j := if index == -1 || i < index then i else i + 1;
        assert pieces[i] == ps[j] && mid[i] == pos[j];
        if j != k {
          DistinctAt(ps, j, k);
        }
      }
    }

    /**
     * The provisional move shared by the three simulations: RemoveCaptured,
     * then Place.
     */
    method Displace(ghost pos: seq<PieceState>, ghost k: nat, piece: ChessPiece, t: PieceType, f: char, r: char, color: PieceColor)
      returns (removed: ChessPiece?, index: int)
      requires pos == Snapshot() && Placed() && k < |pieces| && pieces[k] == piece && IsSquare(f, r)
      modifies this`pieces, piece`file, piece`rank, piece`pieceType
      ensures Placed() && index == CaptureIndex(pos, f, r, color)
      ensures piece.State() == pos[k].(pieceType := t, file := f, rank := r)
      ensures Snapshot() == Simulated(pos, k, t, f, r, color)
      ensures Displacement(pos, old(pieces), pieces, Snapshot(), k, piece, piece.State(), removed, index)
      ensures index != -1 && index != k ==> removed.State() == pos[index]
    {
      ghost var ps := pieces;
      assert piece.State() == pos[k];
      removed, index := RemoveCaptured(pos, f, r, color);
      if index != -1 && index != k {
        DistinctAt(ps, index, k);
      }
      Place(pos, ps, k, index, removed, piece, t, f, r);
    }

    /**
     * The board in the middle of a simulation, as values: `ps`, the list before
     * it, describes `pos`; the list is now `cur` and describes `sim`, where the
     * piece at k has taken the placement x and the one at `index` (unless -1)
     * is off the list.
     */
    ghost predicate Displacement(pos: seq<PieceState>, ps: seq<ChessPiece>, cur: seq<ChessPiece>, sim: seq<PieceState>,
                                 k: nat, piece: ChessPiece, x: PieceState, removed: ChessPiece?, index: int)
    {
      |ps| == |pos| && k < |ps| && ps[k] == piece && NoDuplicates(ps) && AllOnBoard(pos) && -1 <= index < |ps| &&
      sim == Moved(pos, k, x, index) &&
      (index == -1 ==> cur == ps) &&
      (index != -1 ==> removed == ps[index] && cur == RemoveAt(ps, index))
    }

    method Restore(ghost pos: seq<PieceState>, ghost ps: seq<ChessPiece>, ghost k: nat, piece: ChessPiece,
                   ghost x: PieceState, removed: ChessPiece?, index: int, file: char, rank: char, t: PieceType)
      requires Displacement(pos, ps, pieces, Snapshot(), k, piece, x, removed, index)
      requires index != -1 && index != k ==> removed.State() == pos[index]
      requires pos[k] == PieceState(t, piece.pieceColor, file, rank, piece.moveCounter)
      modifies this`pieces, piece`file, piece`rank, piece`pieceType
      ensures pieces == ps && Snapshot() == pos && Placed()
    {
      forall i | 0 <= i < |ps| && i != k ensures ps[i].State() == pos[i] {
        if index == -1 || i < index {
          assert ps[i] == pieces[i];
        } else if i > index {
          assert ps[i] == pieces[i - 1];
        }
      }
      piece.file, piece.rank, piece.pieceType := file, rank, t;
      Reinsert(ps, removed, index);
      forall i | 0 <= i < |ps| ensures ps[i].State() == pos[i] {
        if i != k {
          DistinctAt(ps, i, k);
        }
      }
    }

    /** `list.insert(index, removed)`: puts the captured piece back where it was. */
    method Reinsert(ghost ps: seq<ChessPiece>, removed: ChessPiece?, index: int)
      requires -1 <= index < |ps|
      requires index == -1 ==> pieces == ps
      requires index != -1 ==> removed == ps[index] && pieces == RemoveAt(ps, index)
      modifies this`pieces
      ensures pieces == ps
    {
      if index != -1 {
        var back: ChessPiece := removed;
        InsertUndoesRemove(ps, index);
        pieces := pieces[..index] + [back] + pieces[index..];
      }
    }

    /** The king search of isKingInCheckAfterMoving: it runs to the end, so it finds the last king. */
    method FindLastKing(ghost pos: seq<PieceState>, color: PieceColor) returns (king: int)
      requires pos == Snapshot()
      ensures king == -1 <==> LastKing(pos, color).None?
      ensures king != -1 ==> king == LastKing(pos, color).value
    {
      king := -1;
      for i := 0 to |pieces|
        invariant king == -1 ==> forall j :: 0 <= j < i ==> !IsKingOf(pos[j], color)
        invariant king != -1 ==> 0 <= king < i && IsKingOf(pos[king], color) &&
                                 forall j :: king < j < i ==> !IsKingOf(pos[j], color)
      {
        if pieces[i].pieceType == King && pieces[i].pieceColor == color {
          king := i;
        }
      }
    }

    /** The king search of isEnemyKingInCheckAfterMoving: it stops at the first king. */
    method FindFirstKing(ghost pos: seq<PieceState>, color: PieceColor) returns (king: int)
      requires pos == Snapshot()
      ensures king == -1 <==> FirstKing(pos, color).None?
      ensures king != -1 ==> king == FirstKing(pos, color).value
    {
      king := -1;
      for i := 0 to |pieces|
        invariant king == -1 && forall j :: 0 <= j < i ==> !IsKingOf(pos[j], color)
      {
        if pieces[i].pieceType == King && pieces[i].pieceColor == color {
          king := i;
          return;
        }
      }
    }

    /** getPieceBoardVision called with the fields of the piece at index i. */
    method PieceBoardVision(ghost pos: seq<PieceState>, i: nat) returns (v: seq<Sight>)
      requires pos == Snapshot() && i < |pos| && OnBoard(pos[i])
      ensures Snapshot() == pos
      ensures v == PieceVision(pos, i)
    {
      v := GetPieceBoardVision(pieces[i].pieceType, pieces[i].file, pieces[i].rank,
                               pieces[i].moveCounter, pieces[i].pieceColor);
    }

    /**
     * The vision scan of the simulations: whether a piece of colour `color`
     * (when `own`) or of any other colour (when not) sees (kf, kr).
     */
    method SquareSeen(ghost pos: seq<PieceState>, color: PieceColor, own: bool, kf: char, kr: char) returns (seen: bool)
      requires pos == Snapshot() && AllOnBoard(pos)
      ensures pieces == old(pieces) && Snapshot() == pos
      ensures seen == SeenUpTo(pos, color, own, kf, kr, |pos|)
    {
      seen := false;
      var i := 0;
      while i < |pieces|
        invariant i <= |pieces| && !SeenUpTo(pos, color, own, kf, kr, i)
      {
        if (pieces[i].pieceColor == color) == own {
          var v := PieceBoardVision(pos, i);
          var found := FindSight(v, kf, kr);
          if found {
            assert SeenUpTo(pos, color, own, kf, kr, i + 1);
            SeenUpToMonotone(pos, color, own, kf, kr, i + 1, |pos|);
            seen := true;
            return;
          }
        }
        i := i + 1;
      }
    }

    /** The scan of isKingInCheckAfterMoving: whether a piece of another colour sees the last king of `color`. */
    method LastKingAttacked(ghost pos: seq<PieceState>, color: PieceColor) returns (check: bool)
      requires pos == Snapshot() && AllOnBoard(pos) && HasKing(pos, color)
      ensures pieces == old(pieces) && Snapshot() == pos
      ensures check == KingInCheck(pos, color)
    {
      var king := FindLastKing(pos, color);
      check := SquareSeen(pos, color, false, pieces[king].file, pieces[king].rank);
    }

    /**
     * isKingInCheckAfterMoving: makes the move provisionally, asks whether a
     * piece of another colour sees the (last) king of `color`, and undoes the
     * move. The source raises when no such king is left; that is excluded here.
     */
    method IsKingInCheckAfterMoving(ghost pos: seq<PieceState>, ghost k: nat, piece: ChessPiece,
                                    newPieceType: PieceType, file: char, rank: char, pieceColor: PieceColor)
      returns (check: bool)
      requires pos == Snapshot() && Placed() && k < |pieces| && pieces[k] == piece && IsSquare(file, rank)
      requires HasKing(Simulated(pos, k, newPieceType, file, rank, pieceColor), pieceColor)
      modifies this`pieces, piece`file, piece`rank, piece`pieceType
      ensures pieces == old(pieces) && Snapshot() == pos && Placed()
      ensures check == KingInCheck(Simulated(pos, k, newPieceType, file, rank, pieceColor), pieceColor)
    {
      ghost var ps := pieces;
      var originalFile, originalRank, originalType := piece.file, piece.rank, piece.pieceType;
      var removed, index := Displace(pos, k, piece, newPieceType, file, rank, pieceColor);
      ghost var sim, x := Snapshot(), piece.State();
      SimulatedOnBoard(pos, k, newPieceType, file, rank, pieceColor);
      check := LastKingAttacked(sim, pieceColor);
      Restore(pos, ps, k, piece, x, removed, index, originalFile, originalRank, originalType);
    }

    /**
     * isEnemyKingInCheckAfterMoving: finds the first enemy king before the
     * move, makes the move provisionally, asks whether a piece of `color` sees
     * the king's square, and undoes the move. The source raises when there is
     * no enemy king; that is excluded here.
     */
    method IsEnemyKingInCheckAfterMoving(ghost pos: seq<PieceState>, ghost k: nat, piece: ChessPiece,
                                         newPieceType: PieceType, file: char, rank: char, pieceColor: PieceColor)
      returns (check: bool)
      requires pos == Snapshot() && Placed() && k < |pieces| && pieces[k] == piece && IsSquare(file, rank)
      requires HasKing(pos, Enemy(pieceColor))
      modifies this`pieces, piece`file, piece`rank, piece`pieceType
      ensures pieces == old(pieces) && Snapshot() == pos && Placed()
      ensures check == EnemyKingInCheckAfter(pos, k, newPieceType, file, rank, pieceColor)
    {
      var enemyColor := if pieceColor == Black then White else Black;
      var king := FindFirstKing(pos, enemyColor);
      check := SeenAfterMoving(pos, k, piece, newPieceType, file, rank, pieceColor, pieces[king].file, pieces[king].rank);
    }

    /** The move, the scan for a piece of `color` that sees (kf, kr), and the undo. */
    method SeenAfterMoving(ghost pos: seq<PieceState>, ghost k: nat, piece: ChessPiece,
                           newPieceType: PieceType, file: char, rank: char, pieceColor: PieceColor, kf: char, kr: char)
      returns (seen: bool)
      requires pos == Snapshot() && Placed() && k < |pieces| && pieces[k] == piece && IsSquare(file, rank)
      modifies this`pieces, piece`file, piece`rank, piece`pieceType
      ensures pieces == old(pieces) && Snapshot() == pos && Placed()
      ensures var sim := Simulated(pos, k, newPieceType, file, rank, pieceColor);
              seen == SeenUpTo(sim, pieceColor, true, kf, kr, |sim|)
    {
      ghost var ps := pieces;
      var originalFile, originalRank, originalType := piece.file, piece.rank, piece.pieceType;
      var removed, index := Displace(pos, k, piece, newPieceType, file, rank, pieceColor);
      ghost var sim, x := Snapshot(), piece.State();
      SimulatedOnBoard(pos, k, newPieceType, file, rank, pieceColor);
      seen := SquareSeen(sim, pieceColor, true, kf, kr);
      Restore(pos, ps, k, piece, x, removed, index, originalFile, originalRank, originalType);
    }

    /**
     * isEnemyKingCheckmatedAfterMove: the move gives check, and no piece of
     * another colour has a square in its vision that gets its own king out
     * of check once the move is made. The unused checkGlobal flag is kept.
     */
    method IsEnemyKingCheckmatedAfterMove(ghost pos: seq<PieceState>, ghost k: nat, piece: ChessPiece,
                                          newPieceType: PieceType, file: char, rank: char, pieceColor: PieceColor,
                                          checkGlobal: bool)
      returns (check: bool, checkmated: bool)
      requires pos == Snapshot() && Placed() && k < |pieces| && pieces[k] == piece && IsSquare(file, rank)
      requires HasKing(pos, Enemy(pieceColor))
      requires EnemyKingInCheckAfter(pos, k, newPieceType, file, rank, pieceColor) ==>
               HasKing(Simulated(pos, k, newPieceType, file, rank, pieceColor), Enemy(pieceColor))
      modifies this`pieces, pieces`file, pieces`rank, pieces`pieceType
      ensures pieces == old(pieces) && Snapshot() == pos && Placed()
      ensures check == EnemyKingInCheckAfter(pos, k, newPieceType, file, rank, pieceColor)
      ensures checkmated == EnemyMatedAfter(pos, k, newPieceType, file, rank, pieceColor)
    {
      check := IsEnemyKingInCheckAfterMoving(pos, k, piece, newPieceType, file, rank, pieceColor);
      checkmated := false;
      if check {
        checkmated := NoEscapeAfterMoving(pos, k, piece, newPieceType, file, rank, pieceColor);
      }
    }

    /** The mate scan: the move made provisionally, AnyEscape, and the undo. */
    method NoEscapeAfterMoving(ghost pos: seq<PieceState>, ghost k: nat, piece: ChessPiece,
                               newPieceType: PieceType, file: char, rank: char, pieceColor: PieceColor)
      returns (mated: bool)
      requires pos == Snapshot() && Placed() && k < |pieces| && pieces[k] == piece && IsSquare(file, rank)
      requires HasKing(Simulated(pos, k, newPieceType, file, rank, pieceColor), Enemy(pieceColor))
      modifies this`pieces, pieces`file, pieces`rank, pieces`pieceType
      ensures pieces == old(pieces) && Snapshot() == pos && Placed()
      ensures mated == NoEscape(Simulated(pos, k, newPieceType, file, rank, pieceColor), pieceColor)
    {
      ghost var ps := pieces;
      var originalFile, originalRank, originalType := piece.file, piece.rank, piece.pieceType;
      var removed, index := Displace(pos, k, piece, newPieceType, file, rank, pieceColor);
      SimulatedOnBoard(pos, k, newPieceType, file, rank, pieceColor);
      mated := ScanAndRestore(pos, ps, k, piece, piece.State(), removed, index,
                              originalFile, originalRank, originalType, pieceColor);
    }

    /** AnyEscape on the provisional board, then the undo. */
    method ScanAndRestore(ghost pos: seq<PieceState>, ghost ps: seq<ChessPiece>, ghost k: nat, piece: ChessPiece,
                          ghost x: PieceState, removed: ChessPiece?, index: int,
                          originalFile: char, originalRank: char, originalType: PieceType, pieceColor: PieceColor)
      returns (mated: bool)
      requires Placed() && Displacement(pos, ps, pieces, Snapshot(), k, piece, x, removed, index)
      requires index != -1 && index != k ==> removed.State() == pos[index]
      requires pos[k] == PieceState(originalType, piece.pieceColor, originalFile, originalRank, piece.moveCounter)
      requires HasKing(Snapshot(), Enemy(pieceColor))
      modifies this`pieces, ps`file, ps`rank, ps`pieceType
      ensures pieces == ps && Snapshot() == pos && Placed()
      ensures mated == NoEscape(old(Snapshot()), pieceColor)
    {
      ghost var sim := Snapshot();
      RemoveAtWithin(ps, pieces, index);
      if index != -1 {
        RemovedIsGone(ps, index);
      }
      var escapes := AnyEscape(sim, pieceColor);
      mated := !escapes;
      Restore(pos, ps, k, piece, x, removed, index, originalFile, originalRank, originalType);
    }

    /** The outer loop of the mate scan, over the pieces not of `color`. */
    method AnyEscape(ghost sim: seq<PieceState>, color: PieceColor) returns (escapes: bool)
      requires sim == Snapshot() && Placed() && HasKing(sim, Enemy(color))
      modifies this`pieces, pieces`file, pieces`rank, pieces`pieceType
      ensures pieces == old(pieces) && Snapshot() == sim && Placed()
      ensures escapes == EscapeUpTo(sim, color, |sim|)
    {
      escapes := false;
      var i := 0;
      while i < |pieces| && !escapes
        invariant pieces == old(pieces) && Snapshot() == sim && Placed() && i <= |pieces|
        invariant escapes == EscapeUpTo(sim, color, i)
      {
        escapes := EscapeOf(sim, color, i);
        i := i + 1;
      }
      if escapes { EscapeUpToMonotone(sim, color, i, |sim|); }
    }

    /** One round of the outer loop: pieces of `color` are skipped. */
    method EscapeOf(ghost sim: seq<PieceState>, color: PieceColor, i: nat) returns (e: bool)
      requires sim == Snapshot() && Placed() && i < |pieces| && HasKing(sim, Enemy(color))
      modifies this`pieces, pieces`file, pieces`rank, pieces`pieceType
      ensures pieces == old(pieces) && Snapshot() == sim && Placed()
      ensures e == (sim[i].pieceColor != color && PieceEscapes(sim, i))
    {
      e := false;
      if pieces[i].pieceColor != color {
        assert sim[i].pieceColor == Enemy(color);
        e := HasEscape(sim, i);
      }
    }

    /** The inner loop of the mate scan: isKingInCheckAfterMoving for each square the piece sees. */
    method HasEscape(ghost sim: seq<PieceState>, i: nat) returns (escapes: bool)
      requires sim == Snapshot() && Placed() && i < |pieces| && HasKing(sim, sim[i].pieceColor)
      modifies this`pieces, pieces`file, pieces`rank, pieces`pieceType
      ensures pieces == old(pieces) && Snapshot() == sim && Placed()
      ensures escapes == PieceEscapes(sim, i)
    {
      var v := PieceBoardVision(sim, i);
      escapes := false;
      var j := 0;
      while j < |v|
        invariant pieces == old(pieces) && Snapshot() == sim && Placed() && j <= |v|
        invariant !EscapeAmong(sim, i, v, j)
      {
        SimulatedKeepsKing(sim, i, sim[i].pieceType, v[j].file, v[j].rank, sim[i].pieceColor, sim[i].pieceColor);
        var check := IsKingInCheckAfterMoving(sim, i, pieces[i], pieces[i].pieceType, v[j].file, v[j].rank,
                                              pieces[i].pieceColor);
        if !check {
          escapes := true;
          EscapeAmongMonotone(sim, i, v, j + 1, |v|);
          return;
        }
        j := j + 1;
      }
    }

    /** The castle move goes to the rook at ri, then to the king at k. */
    method AddCastleMoves(ghost ri: nat, ghost k: nat, rook: ChessPiece, king: ChessPiece, move: ChessMove)
      requires Valid() && ri < |pieces| && k < |pieces| && pieces[ri] == rook && pieces[k] == king
      requires WellFormedMove(move)
      modifies pieces`pieceMoves
      ensures pieces == old(pieces) && Snapshot() == old(Snapshot()) && Valid()
      ensures var ls := old(MoveLists());
              var ls1 := ls[ri := AddTo(ls[ri], move)];
              MoveLists() == ls1[k := AddTo(ls1[k], move)]
    {
      AddMoveTo(ri, rook, move);
      AddMoveTo(k, king, move);
    }

    /** The piece at i (given as `piece`) loses its cached moves; the other lists stay. */
    method ResetMovesOf(ghost i: nat, piece: ChessPiece)
      requires Valid() && i < |pieces| && pieces[i] == piece
      modifies pieces`pieceMoves
      ensures pieces == old(pieces) && Snapshot() == old(Snapshot()) && Valid()
      ensures MoveLists() == old(MoveLists())[i := []]
    {
      ghost var ls := MoveLists();
      piece.ResetPieceMoves();
      forall j | 0 <= j < |pieces| ensures MoveLists()[j] == ls[i := []][j] {
        if j != i {
          DistinctAt(pieces, j, i);
        }
      }
      ReplacedWellFormed(ls, i, []);
    }

    /** addMove on the piece at index i, stated on the move lists. */
    method AddMoveTo(ghost i: nat, piece: ChessPiece, move: ChessMove)
      requires Distinct() && i < |pieces| && pieces[i] == piece
      modifies pieces`pieceMoves
      ensures pieces == old(pieces) && Snapshot() == old(Snapshot())
      ensures MoveLists() == old(MoveLists())[i := AddTo(old(MoveLists())[i], move)]
      ensures old(Valid()) && WellFormedMove(move) ==> Valid()
    {
      ghost var ls := MoveLists();
      piece.AddMove(move);
      ghost var ls' := ls[i := AddTo(ls[i], move)];
      forall j | 0 <= j < |pieces| ensures MoveLists()[j] == ls'[j] {
        if j != i {
          DistinctAt(pieces, j, i);
        }
      }
      if ListsWellFormed(ls) && WellFormedMove(move) {
        ReplacedWellFormed(ls, i, AddTo(ls[i], move));
      }
    }

    /**
     * The rival's side of disambiguation: its move j gets the rival's file
     * when that differs from f, otherwise its rank.
     */
    method SpecifyRival(ghost pos: seq<PieceState>, i: nat, j: nat, f: char, r: char)
      returns (otherFile: string, otherRank: string)
      requires Valid() && Snapshot() == pos && i < |pieces| && j < |pieces[i].pieceMoves|
      modifies pieces`pieceMoves
      ensures pieces == old(pieces) && Snapshot() == pos && Valid()
      ensures (otherFile, otherRank) == RivalMarks(pos[i].file, pos[i].rank, f, r)
      ensures var ls := old(MoveLists());
              MoveLists() == ls[i := ls[i][j := SpecifyFromPosition(ls[i][j], otherFile, otherRank)]]
    {
      otherFile, otherRank := [pieces[i].file], [pieces[i].rank];
      if otherFile != [f] && otherRank != [r] {
        otherRank := "";
      } else if otherFile == [f] {
        otherFile := "";
      } else if otherRank == [r] {
        otherRank := "";
      }
      ghost var ls := MoveLists();
      assert AllWellFormed(ls[i]) && ls[i][j] == pieces[i].pieceMoves[j];
      SpecifiedWellFormed(ls[i][j], otherFile, otherRank);
      SpecifyMoveAt(i, j, otherFile, otherRank);
    }

    /** specifyFromPosition on the j-th cached move of the piece at index i. */
    method SpecifyMoveAt(i: nat, j: nat, file: string, rank: string)
      requires Distinct() && i < |pieces| && j < |pieces[i].pieceMoves| && |pieces[i].pieceMoves[j].moveString| > 0
      modifies pieces`pieceMoves
      ensures pieces == old(pieces) && Snapshot() == old(Snapshot())
      ensures var ls := old(MoveLists());
              MoveLists() == ls[i := ls[i][j := SpecifyFromPosition(ls[i][j], file, rank)]]
      ensures old(Valid()) && WellFormedMove(SpecifyFromPosition(old(pieces[i].pieceMoves[j]), file, rank)) ==> Valid()
    {
      ghost var ls := MoveLists();
      ghost var m' := SpecifyFromPosition(ls[i][j], file, rank);
      pieces[i].SpecifyMove(j, file, rank);
      ghost var ls' := ls[i := ls[i][j := m']];
      forall j' | 0 <= j' < |pieces| ensures MoveLists()[j'] == ls'[j'] {
        if j' != i {
          DistinctAt(pieces, j', i);
        }
      }
      if ListsWellFormed(ls) && WellFormedMove(m') {
        ReplacedMoveWellFormed(ls[i], j, m');
        ReplacedWellFormed(ls, i, ls[i][j := m']);
      }
    }

    /**
     * isDestinationSquareShared: the first piece other than refPiece, of the
     * given colour and type, with a cached move ending on (f, r), and the
     * index of that move in its list (the source returns the piece's square
     * and the move object itself).
     */
    method IsDestinationSquareShared(ghost pos: seq<PieceState>, ghost ls: seq<seq<ChessMove>>, refPiece: ChessPiece,
                                     pieceType: PieceType, pieceColor: PieceColor, f: char, r: char)
      returns (shared: Option<(nat, nat)>)
      requires pos == Snapshot() && ls == MoveLists()
      ensures shared == SharedFrom(pos, ls, refPiece.State(), pieceType, pieceColor, f, r, 0)
    {
      ghost var ref := refPiece.State();
      shared := None;
      var i: nat := 0;
      while i < |pieces| && shared.None?
        invariant i <= |pieces|
        invariant (if shared.None? then SharedFrom(pos, ls, ref, pieceType, pieceColor, f, r, i) else shared) ==
                  SharedFrom(pos, ls, ref, pieceType, pieceColor, f, r, 0)
      {
        assert pieces[i].State() == pos[i] && pieces[i].pieceMoves == ls[i];
        var j := RivalMoveEndingOn(refPiece, pieces[i], pieceType, pieceColor, f, r);
        SharedFromStep(pos, ls, ref, pieceType, pieceColor, f, r, i, j);
        if j.Some? {
          shared := Some((i, j.value));
        }
        i := i + 1;
      }
    }

    // -------------------------------------------------------------------------
    // Board-wide operations
    // -------------------------------------------------------------------------

    /** The state makeMove reads and writes, as a value. */
    ghost function State(): BoardState
      reads this, pieces
    {
      BoardState(Snapshot(), MoveLists(), moveNumber, gameEnded, winner, executedMoves)
    }

    /** getMaterial: the material balance, white's values minus black's. */
    method GetMaterial() returns (material: int)
      ensures material == Material(Snapshot())
    {
      ghost var pos := Snapshot();
      material := 0;
      for i := 0 to |pieces|
        invariant material == Material(pos[..i])
      {
        var sign := 1;
        var piece := pieces[i];
        if piece.pieceColor == Black {
          sign := -1;
        }
        if piece.pieceType == Pawn {
          material := material + sign * 1;
        } else if piece.pieceType == Bishop || piece.pieceType == Knight {
          material := material + sign * 3;
        } else if piece.pieceType == Rook {
          material := material + sign * 5;
        } else if piece.pieceType == Queen {
          material := material + sign * 9;
        }
        assert pos[..i + 1][..i] == pos[..i];
      }
      assert pos[..|pieces|] == pos;
    }

    /** getSpace: the number of distinct squares of the opponent's half that the pieces of `color` see. */
    method GetSpace(color: PieceColor) returns (space: nat)
      requires Placed()
      ensures space == |SpaceUpTo(Snapshot(), color, |pieces|)|
    {
      var enemyRanks := EnemyRanks(color);
      ghost var pos := Snapshot();
      space := 0;
      var registered: set<(char, char)> := {};
      for i := 0 to |pieces|
        invariant registered == SpaceUpTo(pos, color, i) && space == |registered|
      {
        registered, space := RegisterPiece(pos, i, color, enemyRanks, registered, space);
      }
    }

    /** One round of getSpace: the squares the i-th piece sees in the opponent's half, if it is of `color`. */
    method RegisterPiece(ghost pos: seq<PieceState>, i: nat, color: PieceColor, enemyRanks: seq<char>,
                         registered: set<(char, char)>, space: nat) returns (reg: set<(char, char)>, sp: nat)
      requires Placed() && pos == Snapshot() && i < |pos| && enemyRanks == EnemyRanks(color) && space == |registered|
      ensures reg == registered + SpaceOf(pos, i, color) && sp == |reg|
    {
      reg, sp := registered, space;
      if pieces[i].pieceColor == color {
        var v := PieceBoardVision(pos, i);
        reg, sp := RegisterSquares(v, enemyRanks, registered, space);
      } else {
        assert SpaceOf(pos, i, color) == {};
      }
    }

    /** getNMoves: the number of cached moves of the pieces of one colour. */
    method GetNMoves(pieceColor: PieceColor) returns (nMoves: nat)
      ensures nMoves == MoveCount(Snapshot(), MoveLists(), pieceColor, |pieces|)
    {
      nMoves := 0;
      for i := 0 to |pieces|
        invariant nMoves == MoveCount(Snapshot(), MoveLists(), pieceColor, i)
      {
        if pieces[i].pieceColor == pieceColor {
          nMoves := nMoves + |pieces[i].pieceMoves|;
        }
      }
    }

    /** `piece in self.pieces`: some piece has the same type, colour and square. */
    method ContainsPiece(piece: ChessPiece) returns (b: bool)
      ensures b == Contains(Snapshot(), piece.State())
    {
      for i := 0 to |pieces|
        invariant forall j :: 0 <= j < i ==> !SamePiece(pieces[j].State(), piece.State())
      {
        var p := pieces[i];
        if p.pieceType == piece.pieceType && p.pieceColor == piece.pieceColor && p.file == piece.file && p.rank == piece.rank {
          assert SamePiece(Snapshot()[i], piece.State());
          return true;
        }
      }
      return false;
    }

    /** addPiece: a new piece with no moves joins the end of the list unless an equal piece is already on it. */
    method AddPiece(pieceType: PieceType, pieceColor: PieceColor, file: char, rank: char)
      modifies this`pieces
      ensures Snapshot() == Added(old(Snapshot()), NewPiece(pieceType, pieceColor, file, rank))
      ensures MoveLists() == old(MoveLists()) + (if |pieces| == old(|pieces|) then [] else [[]])
      ensures old(Valid()) && IsSquare(file, rank) ==> Valid()
      ensures forall p :: p in pieces ==> p in old(pieces) || fresh(p)
    {
      var piece := new ChessPiece(pieceType, pieceColor, file, rank);
      AddUnlessPresent(piece);
    }

    /** The body of addPiece once the new piece object exists. */
    method AddUnlessPresent(piece: ChessPiece)
      requires piece !in pieces && piece.pieceMoves == []
      modifies this`pieces
      ensures Snapshot() == Added(old(Snapshot()), piece.State())
      ensures MoveLists() == old(MoveLists()) + (if |pieces| == old(|pieces|) then [] else [[]])
      ensures old(Valid()) && OnBoard(piece.State()) ==> Valid()
      ensures pieces == old(pieces) || pieces == old(pieces) + [piece]
    {
      var present := ContainsPiece(piece);
      if !present {
        AppendNew(piece);
      }
    }

    /** The append of addPiece, for a piece equal to none on the list. */
    method AppendNew(piece: ChessPiece)
      requires piece !in pieces && piece.pieceMoves == [] && !Contains(Snapshot(), piece.State())
      modifies this`pieces
      ensures Snapshot() == Added(old(Snapshot()), piece.State())
      ensures MoveLists() == old(MoveLists()) + [[]]
      ensures old(Valid()) && OnBoard(piece.State()) ==> Valid()
      ensures pieces == old(pieces) + [piece]
    {
      ghost var pos, ls := Snapshot(), MoveLists();
      Append(piece);
      AppendedWithin(pos, ls, piece.State());
    }

    /** `list.append` of a piece object not yet on the list. */
    method Append(piece: ChessPiece)
      requires piece !in pieces
      modifies this`pieces
      ensures pieces == old(pieces) + [piece]
      ensures Snapshot() == old(Snapshot()) + [piece.State()] && MoveLists() == old(MoveLists()) + [piece.pieceMoves]
      ensures Distinct() == old(Distinct())
    {
      ghost var ps := pieces;
      pieces := pieces + [piece];
      AppendedStates(ps, piece);
      NoDuplicatesAppended(ps, piece);
    }

    /** removePiece: the first piece of the given colour on (f, r) leaves the list, if there is one. */
    method RemovePiece(f: char, r: char, pieceColor: PieceColor)
      requires Valid()
      modifies this`pieces
      ensures Valid() && (Snapshot(), MoveLists()) == Removed(old(Snapshot()), old(MoveLists()), f, r, pieceColor)
      ensures forall p :: p in pieces ==> p in old(pieces)
    {
      ghost var pos, ls := Snapshot(), MoveLists();
      var i := FindPieceAt(pos, f, r, pieceColor);
      if i < |pieces| {
        RemoveAtWithin(pieces, RemoveAt(pieces, i), i);
        Pop(pos, i);
        assert (Snapshot(), MoveLists()) == (RemoveAt(pos, i), RemoveAt(ls, i));
      }
    }

    /** The search of removePiece: the index of the first piece of colour c on (f, r), or the length of the list. */
    method FindPieceAt(ghost pos: seq<PieceState>, f: char, r: char, c: PieceColor) returns (i: nat)
      requires pos == Snapshot()
      ensures i <= |pos| && (if i < |pos| then Some(i) else None) == FirstPieceAt(pos, f, r, c, 0)
    {
      i := 0;
      while i < |pieces| && !(pieces[i].pieceColor == c && pieces[i].file == f && pieces[i].rank == r)
        invariant i <= |pieces| && forall j :: 0 <= j < i ==> !IsPieceAt(pos[j], f, r, c)
      {
        i := i + 1;
      }
      if i < |pieces| {
        assert IsPieceAt(pos[i], f, r, c);
      }
    }

    /** The reset loop: resetPieceMoves on every piece whose colour is in cs. */
    method ResetColors(cs: set<PieceColor>)
      requires Valid()
      modifies pieces`pieceMoves
      ensures pieces == old(pieces) && Snapshot() == old(Snapshot()) && Valid()
      ensures MoveLists() == Cleared(Snapshot(), old(MoveLists()), cs)
    {
      ghost var pos, ls := Snapshot(), MoveLists();
      for i := 0 to |pieces|
        invariant pieces == old(pieces) && Snapshot() == pos && Valid()
        invariant MoveLists() == ClearedUpTo(pos, ls, cs, i)
      {
        ClearedUpToStep(pos, ls, cs, i);
        if pieces[i].pieceColor in cs {
          ResetMovesOf(i, pieces[i]);
        }
      }
      assert ClearedUpTo(pos, ls, cs, |pieces|) == Cleared(pos, ls, cs);
    }

    /** The compute loop: computePieceMoves on every piece whose colour is in cs, in list order. */
    method ComputeColors(cs: set<PieceColor>, check: bool, checkmate: bool)
      requires Valid() && (!checkmate ==> HasKing(Snapshot(), White) && HasKing(Snapshot(), Black))
      modifies this`pieces, pieces`file, pieces`rank, pieces`pieceType, pieces`pieceMoves
      ensures pieces == old(pieces) && Snapshot() == old(Snapshot()) && Valid()
      ensures MoveLists() == Regenerated(Snapshot(), old(MoveLists()), cs, check, checkmate, 0)
    {
      ghost var pos, ls0 := Snapshot(), MoveLists();
      for i := 0 to |pieces|
        invariant pieces == old(pieces) && Snapshot() == pos && Valid()
        invariant Regenerated(pos, MoveLists(), cs, check, checkmate, i) == Regenerated(pos, ls0, cs, check, checkmate, 0)
      {
        if pieces[i].pieceColor in cs {
          pieces[i].ComputePieceMoves(this, i, check, checkmate);
        }
      }
    }

    /** updateMoves: every list reset, then every list recomputed. */
    method UpdateMoves(check: bool, checkMate: bool)
      requires Valid() && (!checkMate ==> HasKing(Snapshot(), White) && HasKing(Snapshot(), Black))
      modifies this`pieces, pieces`file, pieces`rank, pieces`pieceType, pieces`pieceMoves
      ensures pieces == old(pieces) && Snapshot() == old(Snapshot()) && Valid()
      ensures MoveLists() == Recomputed(Snapshot(), old(MoveLists()), {White, Black}, check, checkMate)
    {
      ResetColors({White, Black});
      ComputeColors({White, Black}, check, checkMate);
    }

    /**
     * initializeBoard: the sixteen rounds of addPiece in the source's order,
     * then updateMoves(False, False), which recomputes every list from nothing.
     */
    method InitializeBoard()
      requires Valid()
      modifies this`pieces, pieces`file, pieces`rank, pieces`pieceType, pieces`pieceMoves
      ensures Valid() && Snapshot() == Setup(old(Snapshot()), 16)
      ensures MoveLists() == Recomputed(Snapshot(), NoMoves(|pieces|), {White, Black}, false, false)
    {
      ghost var pos0 := Snapshot();
      PlaceInitialPieces(pos0);
      UpdateFromNothing();
    }

    /** The closing updateMoves(False, False) of initializeBoard: the lists it had before do not matter. */
    method UpdateFromNothing()
      requires Valid() && HasKing(Snapshot(), White) && HasKing(Snapshot(), Black)
      modifies this`pieces, pieces`file, pieces`rank, pieces`pieceType, pieces`pieceMoves
      ensures pieces == old(pieces) && Snapshot() == old(Snapshot()) && Valid()
      ensures MoveLists() == Recomputed(Snapshot(), NoMoves(|pieces|), {White, Black}, false, false)
    {
      ghost var ls := MoveLists();
      UpdateMoves(false, false);
      RecomputedIgnoresStaleLists(Snapshot(), ls, NoMoves(|pieces|), false, false);
    }

    /** The sixteen rounds of addPiece of initializeBoard. */
    method PlaceInitialPieces(ghost pos0: seq<PieceState>)
      requires Valid() && Snapshot() == pos0
      modifies this`pieces
      ensures Valid() && Snapshot() == Setup(pos0, 16)
      ensures HasKing(Snapshot(), White) && HasKing(Snapshot(), Black)
      ensures forall i :: 0 <= i < |pieces| ==> pieces[i] in old(pieces) || fresh(pieces[i])
    {
      var files := ['a', 'b', 'c', 'd', 'e', 'f', 'g', 'h'];
      for i := 0 to 8
        invariant Valid() && Snapshot() == Setup(pos0, i)
        invariant forall p :: p in pieces ==> p in old(pieces) || fresh(p)
      {
        AddRound(pos0, i, Pawn, files[i], '7', '2');
      }
      PlaceBackRank(pos0);
      SetupHasKings(pos0);
      OldOrFreshByIndex(this);
    }

    /**
     * The rounds of initializeBoard after the pawns: the rook, knight and
     * bishop pairs of files, then the queen and the king, in that order.
     */
    method PlaceBackRank(ghost pos0: seq<PieceState>)
      requires Valid() && Snapshot() == Setup(pos0, 8)
      modifies this`pieces
      ensures Valid() && Snapshot() == Setup(pos0, 16)
      ensures forall p :: p in pieces ==> p in old(pieces) || fresh(p)
    {
      var types := [Rook, Rook, Knight, Knight, Bishop, Bishop, Queen, King];
      var files := ['a', 'h', 'b', 'g', 'c', 'f', 'd', 'e'];
      for n := 8 to 16
        invariant Valid() && Snapshot() == Setup(pos0, n)
        invariant forall p :: p in pieces ==> p in old(pieces) || fresh(p)
      {
        AddRound(pos0, n, types[n - 8], files[n - 8], '8', '1');
      }
    }

    /** One round of initializeBoard: the black piece of round n, then the white one. */
    method AddRound(ghost pos0: seq<PieceState>, ghost n: nat, pieceType: PieceType, file: char, blackRank: char, whiteRank: char)
      requires n < 16 && Round(n) == Pair(pieceType, file, blackRank, whiteRank)
      requires Valid() && Snapshot() == Setup(pos0, n)
      modifies this`pieces
      ensures Valid() && Snapshot() == Setup(pos0, n + 1)
      ensures forall p :: p in pieces ==> p in old(pieces) || fresh(p)
    {
      InitialPairOnBoard(n);
      AddPiece(pieceType, Black, file, blackRank);
      AddPiece(pieceType, White, file, whiteRank);
    }

    // -------------------------------------------------------------------------
    // makeMove
    // -------------------------------------------------------------------------

    /**
     * makeMove: every piece of the side to move that has the move cached
     * executes it, the captures are removed, and, when a piece moved, the
     * opponent's lists are recomputed and the turn passes.
     */
    method MakeMove(moveString: string) returns (outcome: Outcome)
      requires Valid()
      modifies this, pieces
      ensures Valid()
      ensures (State(), outcome) == Played(old(State()), ChessMove(moveString))
    {
      ghost var g := State();
      var pieceColorToMove := ColorOfPly(moveNumber);
      var move := ChessMove(moveString);
      var madeMove, removed, check, checkmate, k := ExecuteAll(move, pieceColorToMove);
      RemoveAll(removed);
      PlayedByTally(g, move, k, madeMove, removed, check, checkmate);
      if !madeMove {
        if !gameEnded {
          return InvalidMove;
        } else {
          return GameOver;
        }
      }
      outcome := FinishMove(pieceColorToMove, check, checkmate);
    }

    /** The execution loop of makeMove as a change of the whole board state. */
    method ExecuteAll(move: ChessMove, c: PieceColor)
      returns (madeMove: bool, removed: seq<(char, char, PieceColor)>, check: bool, checkmate: bool, ghost k: nat)
      requires Valid() && c == ColorOfPly(moveNumber)
      modifies pieces`file, pieces`rank, pieces`pieceType, pieces`moveCounter, this`executedMoves
      ensures Valid() && State() == Executions(old(State()), move, c)
      ensures (k, madeMove, removed, check, checkmate) == Tallied(old(Snapshot()), old(MoveLists()), move, c, |old(Snapshot())|)
    {
      ghost var g := State();
      madeMove, removed, check, checkmate, k := ExecuteMatching(g.pos, g.ls, move, c);
      assert State() == g.(pos := Snapshot(), log := executedMoves);
      ExecutionsOf(g, move, c, Snapshot(), executedMoves, k);
    }

    /** The capture loop of makeMove as a change of the whole board state. */
    method RemoveAll(removed: seq<(char, char, PieceColor)>)
      requires Valid()
      modifies this`pieces
      ensures Valid() && State() == CapturesRemoved(old(State()), removed)
      ensures forall i :: 0 <= i < |pieces| ==> pieces[i] in old(pieces)
    {
      RemoveCaptures(removed);
    }

    /** The loop of makeMove over the pieces: execution, the log and the recorded captures. */
    method ExecuteMatching(ghost pos: seq<PieceState>, ghost ls: seq<seq<ChessMove>>, move: ChessMove, c: PieceColor)
      returns (madeMove: bool, removed: seq<(char, char, PieceColor)>, check: bool, checkmate: bool, ghost k: nat)
      requires |ls| == |pos| && ListsWellFormed(ls) && c == ColorOfPly(moveNumber)
      requires Distinct() && pos == Snapshot() && ls == MoveLists()
      modifies pieces`file, pieces`rank, pieces`pieceType, pieces`moveCounter, this`executedMoves
      ensures pieces == old(pieces) && MoveLists() == ls && Snapshot() == ExecutedUpTo(pos, ls, move, c, |pos|)
      ensures executedMoves == Logged(old(executedMoves), moveNumber, move, k)
      ensures (k, madeMove, removed, check, checkmate) == Tallied(pos, ls, move, c, |pos|)
    {
      ghost var log0 := executedMoves;
      madeMove, removed, check, checkmate, k := false, [], false, false, 0;
      ExecutedUpToZero(pos, ls, move, c);
      for i := 0 to |pieces|
        invariant (MoveLists(), Snapshot(), executedMoves) == (ls, ExecutedUpTo(pos, ls, move, c, i), Logged(log0, moveNumber, move, k))
        invariant (k, madeMove, removed, check, checkmate) == Tallied(pos, ls, move, c, i)
      {
        madeMove, removed, check, checkmate, k :=
          PlayRound(pos, ls, log0, i, move, c, k, madeMove, removed, check, checkmate);
      }
    }

    /** The body of makeMove's loop for the piece at i, on the loop's running values. */
    method PlayRound(ghost pos: seq<PieceState>, ghost ls: seq<seq<ChessMove>>, ghost log0: seq<ChessMove>, i: nat,
                     move: ChessMove, c: PieceColor, ghost k: nat, madeMove: bool, removed: seq<(char, char, PieceColor)>,
                     check: bool, checkmate: bool)
      returns (madeMove': bool, removed': seq<(char, char, PieceColor)>, check': bool, checkmate': bool, ghost k': nat)
      requires |ls| == |pos| && ListsWellFormed(ls) && i < |pos| && Distinct() && c == ColorOfPly(moveNumber)
      requires (MoveLists(), Snapshot(), executedMoves) == (ls, ExecutedUpTo(pos, ls, move, c, i), Logged(log0, moveNumber, move, k))
      requires (k, madeMove, removed, check, checkmate) == Tallied(pos, ls, move, c, i)
      modifies pieces`file, pieces`rank, pieces`pieceType, pieces`moveCounter, this`executedMoves
      ensures pieces == old(pieces)
      ensures (MoveLists(), Snapshot(), executedMoves) == (ls, ExecutedUpTo(pos, ls, move, c, i + 1), Logged(log0, moveNumber, move, k'))
      ensures (k', madeMove', removed', check', checkmate') == Tallied(pos, ls, move, c, i + 1)
    {
      var matched, takes, pieceCheck, pieceCheckmate := VisitPiece(pos, ls, i, move, c);
      madeMove', removed', check', checkmate', k' :=
        RecordRound(pos, ls, log0, i, move, c, matched, takes, pieceCheck, pieceCheckmate, k, madeMove, removed, check, checkmate);
    }

    /** The bookkeeping of makeMove's loop once the piece at i has been visited: the log, the capture and the flags. */
    method RecordRound(ghost pos: seq<PieceState>, ghost ls: seq<seq<ChessMove>>, ghost log0: seq<ChessMove>, i: nat,
                       move: ChessMove, c: PieceColor, matched: bool, takes: bool, pieceCheck: bool, pieceCheckmate: bool,
                       ghost k: nat, madeMove: bool, removed: seq<(char, char, PieceColor)>, check: bool, checkmate: bool)
      returns (madeMove': bool, removed': seq<(char, char, PieceColor)>, check': bool, checkmate': bool, ghost k': nat)
      requires |ls| == |pos| && ListsWellFormed(ls) && i < |pos| && c == ColorOfPly(moveNumber)
      requires Snapshot() == ExecutedUpTo(pos, ls, move, c, i + 1)
      requires matched == Matches(pos, ls, move, c, i)
      requires matched ==> takes == move.Takes() && pieceCheck == move.Check() && pieceCheckmate == move.CheckMate()
      requires executedMoves == Logged(log0, moveNumber, move, k)
      requires (k, madeMove, removed, check, checkmate) == Tallied(pos, ls, move, c, i)
      modifies this`executedMoves
      ensures pieces == old(pieces) && Snapshot() == old(Snapshot()) && MoveLists() == old(MoveLists())
      ensures executedMoves == Logged(log0, moveNumber, move, k')
      ensures (k', madeMove', removed', check', checkmate') == Tallied(pos, ls, move, c, i + 1)
    {
      if matched {
        madeMove', removed', check', checkmate', k' :=
          RecordMatch(pos, ls, log0, i, move, c, takes, pieceCheck, pieceCheckmate, k, madeMove, removed, check, checkmate);
      } else {
        TalliedSkip(pos, ls, move, c, i);
        madeMove', removed', check', checkmate', k' := madeMove, removed, check, checkmate, k;
      }
    }

    /** The bookkeeping of makeMove's loop for a matching piece: the move is logged, its capture recorded, its flags taken. */
    method RecordMatch(ghost pos: seq<PieceState>, ghost ls: seq<seq<ChessMove>>, ghost log0: seq<ChessMove>, i: nat,
                       move: ChessMove, c: PieceColor, takes: bool, pieceCheck: bool, pieceCheckmate: bool,
                       ghost k: nat, madeMove: bool, removed: seq<(char, char, PieceColor)>, check: bool, checkmate: bool)
      returns (madeMove': bool, removed': seq<(char, char, PieceColor)>, check': bool, checkmate': bool, ghost k': nat)
      requires |ls| == |pos| && ListsWellFormed(ls) && i < |pos| && c == ColorOfPly(moveNumber)
      requires Snapshot() == ExecutedUpTo(pos, ls, move, c, i + 1)
      requires Matches(pos, ls, move, c, i)
      requires takes == move.Takes() && pieceCheck == move.Check() && pieceCheckmate == move.CheckMate()
      requires executedMoves == Logged(log0, moveNumber, move, k)
      requires (k, madeMove, removed, check, checkmate) == Tallied(pos, ls, move, c, i)
      modifies this`executedMoves
      ensures pieces == old(pieces) && Snapshot() == old(Snapshot()) && MoveLists() == old(MoveLists())
      ensures executedMoves == Logged(log0, moveNumber, move, k')
      ensures (k', madeMove', removed', check', checkmate') == Tallied(pos, ls, move, c, i + 1)
    {
      TalliedMatch(pos, ls, move, c, i, k, madeMove, removed, check, checkmate);
      removed' := removed;
      if takes {
        removed' := RecordCapture(pos, ls, i, move, c, removed);
      }
      LogMove(log0, move, k);
      madeMove', check', checkmate', k' := true, pieceCheck, pieceCheckmate, k + 1;
    }

    /** The log of makeMove: the move is appended while the log is no longer than the move number. */
    method LogMove(ghost log0: seq<ChessMove>, move: ChessMove, ghost k: nat)
      requires executedMoves == Logged(log0, moveNumber, move, k)
      modifies this`executedMoves
      ensures pieces == old(pieces) && Snapshot() == old(Snapshot()) && MoveLists() == old(MoveLists())
      ensures executedMoves == Logged(log0, moveNumber, move, k + 1)
    {
      LoggedStep(log0, moveNumber, move, k);
      if |executedMoves| <= moveNumber {
        executedMoves := executedMoves + [move];
      }
    }

    /** One round of the loop over the pieces: the piece at i executes the move when it matches. */
    method VisitPiece(ghost pos: seq<PieceState>, ghost ls: seq<seq<ChessMove>>, i: nat, move: ChessMove, c: PieceColor)
      returns (matched: bool, takes: bool, check: bool, checkmate: bool)
      requires |pos| == |pieces| && |ls| == |pieces| && ListsWellFormed(ls) && MoveLists() == ls
      requires Distinct() && i < |pieces| && Snapshot() == ExecutedUpTo(pos, ls, move, c, i)
      modifies pieces`file, pieces`rank, pieces`pieceType, pieces`moveCounter
      ensures pieces == old(pieces) && MoveLists() == ls
      ensures matched == Matches(pos, ls, move, c, i)
      ensures Snapshot() == ExecutedUpTo(pos, ls, move, c, i + 1)
      ensures matched ==> WellFormedMove(move) && takes == move.Takes() && check == move.Check() &&
                          checkmate == move.CheckMate()
    {
      ExecutedUpToStep(pos, ls, move, c, i);
      var piece := pieces[i];
      var pieceMoves := piece.pieceMoves;
      matched := move in pieceMoves && piece.pieceColor == c;
      takes, check, checkmate := false, false, false;
      if matched {
        CachedIsWellFormed(ls, i, move);
        takes, check, checkmate := ExecuteMove(move, piece);
        forall j | 0 <= j < |pieces| ensures Snapshot()[j] == ExecutedUpTo(pos, ls, move, c, i + 1)[j] {
          if j != i {
            DistinctAt(pieces, j, i);
          }
        }
      }
    }

    /**
     * The capture record of a matching piece that takes: the destination and
     * the opponent's colour. The en passant branch needs the destination empty,
     * but the piece that just moved stands there, so it is never taken.
     */
    method RecordCapture(ghost pos: seq<PieceState>, ghost ls: seq<seq<ChessMove>>, i: nat, move: ChessMove, c: PieceColor,
                         removed: seq<(char, char, PieceColor)>) returns (removed': seq<(char, char, PieceColor)>)
      requires |ls| == |pos| && ListsWellFormed(ls) && i < |pos| && Snapshot() == ExecutedUpTo(pos, ls, move, c, i + 1)
      requires Matches(pos, ls, move, c, i) && move.Takes() && c == ColorOfPly(moveNumber)
      ensures WellFormedMove(move) && |Reduce(move.moveString)| >= 2
      ensures removed' == removed + [(FinalPosition(move).0, FinalPosition(move).1, Enemy(c))]
    {
      CachedIsWellFormed(ls, i, move);
      TakerStandsOnTarget(pos[i], move);
      var piece := pieces[i];
      var takenPosition := FinalPosition(move);
      if piece.pieceType == Pawn && (piece.rank == '4' || piece.rank == '5') {
        assert At(Snapshot()[i], takenPosition.0, takenPosition.1);
        var occupant := GetPieceAtPosition(takenPosition.0, takenPosition.1);
        if occupant == null {
          assert false;
        }
      }
      removed' := removed + [(takenPosition.0, takenPosition.1, ColorOfPly(moveNumber + 1))];
    }

    /** The captures loop of makeMove: removePiece on each record, in order. */
    method RemoveCaptures(removed: seq<(char, char, PieceColor)>)
      requires Valid()
      modifies this`pieces
      ensures Valid() && (Snapshot(), MoveLists()) == RemovedAll(old(Snapshot()), old(MoveLists()), removed)
      ensures forall p :: p in pieces ==> p in old(pieces)
    {
      ghost var pos, ls := Snapshot(), MoveLists();
      for j := 0 to |removed|
        invariant Valid() && RemovedAll(Snapshot(), MoveLists(), removed[j..]) == RemovedAll(pos, ls, removed)
        invariant forall p :: p in pieces ==> p in old(pieces)
      {
        assert removed[j..][1..] == removed[j + 1..];
        RemovePiece(removed[j].0, removed[j].1, removed[j].2);
      }
    }

    /**
     * The end of makeMove once a piece moved: a mate ends the game, the
     * opponent's lists are reset and recomputed, and the move number advances.
     */
    method FinishMove(c: PieceColor, check: bool, checkmate: bool) returns (outcome: Outcome)
      requires Valid()
      modifies this`gameEnded, this`winner, this`moveNumber, this`pieces, pieces`file, pieces`rank, pieces`pieceType,
               pieces`pieceMoves
      ensures Valid()
      ensures (State(), outcome) == Finished(old(State()), c, check, checkmate)
    {
      MarkMate(c, checkmate);
      var kingsPresent := KingsPresent();
      if !checkmate && !kingsPresent {
        return KingMissing;
      }
      PassTurn(c, check, checkmate);
      outcome := Made;
    }

    /** The mate branch of makeMove: the game ends and the side that moved wins. */
    method MarkMate(c: PieceColor, checkmate: bool)
      requires Valid()
      modifies this`gameEnded, this`winner
      ensures Valid() && State() == Marked(old(State()), c, checkmate)
    {
      if checkmate {
        gameEnded := true;
        winner := Some(c);
      }
    }

    /** Whether both kings are on the board: the searches the recomputation makes for each side's king. */
    method KingsPresent() returns (present: bool)
      ensures present == (HasKing(State().pos, White) && HasKing(State().pos, Black))
    {
      var whiteKing := FindFirstKing(Snapshot(), White);
      var blackKing := FindFirstKing(Snapshot(), Black);
      present := whiteKing != -1 && blackKing != -1;
    }

    /** The last two loops of makeMove and the move number: the opponent recomputed, the turn handed over. */
    method PassTurn(c: PieceColor, check: bool, checkmate: bool)
      requires Valid() && (!checkmate ==> HasKing(State().pos, White) && HasKing(State().pos, Black))
      modifies this`moveNumber, this`pieces, pieces`file, pieces`rank, pieces`pieceType, pieces`pieceMoves
      ensures Valid() && State() == Passed(old(State()), c, check, checkmate)
    {
      RecomputeOpponent(c, check, checkmate);
      AdvancePly();
    }

    /** The two loops of makeMove over the opponent's pieces: reset, then recompute with the move's flags. */
    method RecomputeOpponent(c: PieceColor, check: bool, checkmate: bool)
      requires Valid() && (!checkmate ==> HasKing(Snapshot(), White) && HasKing(Snapshot(), Black))
      modifies this`pieces, pieces`file, pieces`rank, pieces`pieceType, pieces`pieceMoves
      ensures Valid() && State() == Refreshed(old(State()), c, check, checkmate)
    {
      ResetColors({Enemy(c)});
      ComputeColors({Enemy(c)}, check, checkmate);
    }

    /** The last step of makeMove: the turn passes to the other side. */
    method AdvancePly()
      requires Valid()
      modifies this`moveNumber
      ensures Valid() && State() == Advanced(old(State()))
    {
      moveNumber := moveNumber + 1;
    }
  }

  /** One round of isDestinationSquareShared: a rival of refPiece's and its first move ending on (f, r). */
  method RivalMoveEndingOn(refPiece: ChessPiece, piece: ChessPiece, pieceType: PieceType, pieceColor: PieceColor,
                           f: char, r: char) returns (o: Option<nat>)
    ensures o == if Rival(refPiece.State(), piece.State(), pieceType, pieceColor)
                 then MoveToFrom(piece.pieceMoves, f, r, 0) else None
  {
    o := None;
    if !SamePiece(refPiece.State(), piece.State()) && piece.pieceColor == pieceColor && piece.pieceType == pieceType {
      o := FindMoveEndingOn(piece.pieceMoves, f, r);
    }
  }

  /** The inner loop of isDestinationSquareShared: the first move of ms whose final position is (f, r). */
  method FindMoveEndingOn(ms: seq<ChessMove>, f: char, r: char) returns (o: Option<nat>)
    ensures o == MoveToFrom(ms, f, r, 0)
  {
    o := None;
    var j: nat := 0;
    while j < |ms| && o.None?
      invariant j <= |ms|
      invariant (if o.None? then MoveToFrom(ms, f, r, j) else o) == MoveToFrom(ms, f, r, 0)
    {
      var red := ReduceMoveString(ms[j].moveString);
      if |red| >= 2 && red[|red| - 2] == f && red[|red| - 1] == r {
        o := Some(j);
      }
      j := j + 1;
    }
  }

  /** Frames in index form: every object on the list was on it before or is new. */
  twostate lemma OldOrFreshByIndex(b: ChessBoard)
    requires forall p :: p in b.pieces ==> p in old(b.pieces) || fresh(p)
    ensures forall i :: 0 <= i < |b.pieces| ==> b.pieces[i] in old(b.pieces) || fresh(b.pieces[i])
  {
    assert forall i :: 0 <= i < |b.pieces| ==> b.pieces[i] in b.pieces;
  }

  /** A new piece on a square, with no moves, keeps every piece on the board and every cached move well formed. */
  lemma AppendedWithin(pos: seq<PieceState>, ls: seq<seq<ChessMove>>, p: PieceState)
    ensures AllOnBoard(pos) && OnBoard(p) ==> AllOnBoard(pos + [p])
    ensures ListsWellFormed(ls) ==> ListsWellFormed(ls + [[]])
  {
    assert forall i :: 0 <= i < |pos| ==> (pos + [p])[i] == pos[i];
    assert forall i :: 0 <= i < |ls| ==> (ls + [[]])[i] == ls[i];
  }

  /** The inner loop of getSpace: each square of v on the given ranks is registered and counted once. */
  method RegisterSquares(v: seq<Sight>, ranks: seq<char>, registered: set<(char, char)>, space: nat)
    returns (reg: set<(char, char)>, sp: nat)
    requires space == |registered|
    ensures reg == registered + SightSquares(v, ranks) && sp == |reg|
  {
    reg, sp := registered, space;
    for j := 0 to |v|
      invariant reg == registered + SightSquares(v[..j], ranks) && sp == |reg|
    {
      var position := (v[j].file, v[j].rank);
      SightSquaresStep(v, ranks, j);
      ghost var before := reg;
      if v[j].rank in ranks && position !in reg {
        sp := sp + 1;
        reg := reg + {position};
      }
      assert reg == before + (if v[j].rank in ranks then {position} else {});
    }
    assert v[..|v|] == v;
  }

  /** The inner scan of the simulations: whether (f, r) is among the vision squares. */
  method FindSight(v: seq<Sight>, f: char, r: char) returns (found: bool)
    ensures found == SightIn(v, f, r)
  {
    for j := 0 to |v|
      invariant forall i :: 0 <= i < j ==> !SightIs(v[i], f, r)
    {
      if f == v[j].file && r == v[j].rank {
        return true;
      }
    }
    return false;
  }

  /**
   * executeMove: moves the piece as the move says, increments its counter,
   * and reports whether the move string carries 'x', '+' and '#'.
   */
  method ExecuteMove(move: ChessMove, piece: ChessPiece) returns (takes: bool, check: bool, checkMate: bool)
    requires Executable(move)
    modifies piece`file, piece`rank, piece`pieceType, piece`moveCounter
    ensures takes == move.Takes() && check == move.Check() && checkMate == move.CheckMate()
    ensures piece.State() == ExecutedState(old(piece.State()), move)
  {
    takes := 'x' in move.moveString;
    check := '+' in move.moveString;
    checkMate := '#' in move.moveString;
    var reducedString := ReduceMoveString(move.moveString);
    if reducedString == "O-O" {
      if piece.pieceType == King {
        piece.SetPosition('g', piece.rank);
      } else if piece.pieceType == Rook {
        piece.SetPosition('f', piece.rank);
      }
    } else if reducedString == "O-O-O" {
      if piece.pieceType == King {
        piece.SetPosition('c', piece.rank);
      } else if piece.pieceType == Rook {
        piece.SetPosition('d', piece.rank);
      }
    } else if '=' in move.moveString {
      var promoted := FromLetter(PromotionLetter(move.moveString)).value;
      piece.SetPieceType(promoted);
      var newPosition := FinalPosition(move);
      piece.SetPosition(newPosition.0, newPosition.1);
    } else {
      var newPosition := FinalPosition(move);
      piece.SetPosition(newPosition.0, newPosition.1);
    }
    piece.IncreaseMoveCounter();
  }
}
