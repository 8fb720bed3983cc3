/**
 * The board-wide operations on values: resetting and recomputing the cached
 * move lists (updateMoves and the end of makeMove), taking a piece off the
 * list (removePiece), adding one (addPiece, initializeBoard) and the first
 * half of makeMove, which applies the move to every piece of the side to
 * move that owns it.
 */
module Turn {
  import opened ChessTypes
  import opened Coordinates
  import opened Moves
  import opened Position
  import opened Generation

  // ---------------------------------------------------------------------------
  // Resetting and recomputing the move lists
  // ---------------------------------------------------------------------------

  /** resetPieceMoves on every piece whose colour is in cs. */
  function Cleared(pos: seq<PieceState>, ls: seq<seq<ChessMove>>, cs: set<PieceColor>): (r: seq<seq<ChessMove>>)
    requires |ls| == |pos|
    ensures |r| == |ls| && (ListsWellFormed(ls) ==> ListsWellFormed(r))
  {
    seq(|ls|, i requires 0 <= i < |ls| => if pos[i].pieceColor in cs then [] else ls[i])
  }

  /** The reset loop after its first n rounds. */
  function ClearedUpTo(pos: seq<PieceState>, ls: seq<seq<ChessMove>>, cs: set<PieceColor>, n: nat): (r: seq<seq<ChessMove>>)
    requires |ls| == |pos|
    ensures |r| == |ls|
  {
    seq(|ls|, i requires 0 <= i < |ls| => if i < n && pos[i].pieceColor in cs then [] else ls[i])
  }

  lemma ClearedUpToStep(pos: seq<PieceState>, ls: seq<seq<ChessMove>>, cs: set<PieceColor>, n: nat)
    requires |ls| == |pos| && n < |pos|
    ensures ClearedUpTo(pos, ls, cs, n)[n] == ls[n]
    ensures ClearedUpTo(pos, ls, cs, n + 1) ==
            if pos[n].pieceColor in cs then ClearedUpTo(pos, ls, cs, n)[n := []] else ClearedUpTo(pos, ls, cs, n)
  {
  }

  /** computePieceMoves on each piece from the k-th on whose colour is in cs, in list order. */
  function Regenerated(pos: seq<PieceState>, ls: seq<seq<ChessMove>>, cs: set<PieceColor>, check: bool, checkmate: bool,
                       k: nat): (r: seq<seq<ChessMove>>)
    requires |ls| == |pos| && AllOnBoard(pos) && ListsWellFormed(ls) && k <= |pos|
    ensures |r| == |ls| && ListsWellFormed(r)
    decreases |pos| - k
  {
    if k == |pos| then ls
    else Regenerated(pos, if pos[k].pieceColor in cs then Generated(pos, ls, k, check, checkmate) else ls,
                     cs, check, checkmate, k + 1)
  }

  /** The two loops of updateMoves, restricted to the pieces whose colour is in cs. */
  function Recomputed(pos: seq<PieceState>, ls: seq<seq<ChessMove>>, cs: set<PieceColor>, check: bool, checkmate: bool)
    : (r: seq<seq<ChessMove>>)
    requires |ls| == |pos| && AllOnBoard(pos) && ListsWellFormed(ls)
    ensures |r| == |ls| && ListsWellFormed(r)
  {
    Regenerated(pos, Cleared(pos, ls, cs), cs, check, checkmate, 0)
  }

  /** Recomputing the pieces of colours cs leaves the list of a piece of another colour as it was. */
  lemma {:induction false} RegeneratedKeepsOthers(pos: seq<PieceState>, ls: seq<seq<ChessMove>>, cs: set<PieceColor>,
                                                  check: bool, checkmate: bool, k: nat, i: nat)
    requires |ls| == |pos| && AllOnBoard(pos) && ListsWellFormed(ls) && k <= |pos|
    requires i < |pos| && pos[i].pieceColor !in cs
    ensures Regenerated(pos, ls, cs, check, checkmate, k)[i] == ls[i]
    decreases |pos| - k
  {
    if k < |pos| {
      var next := if pos[k].pieceColor in cs then Generated(pos, ls, k, check, checkmate) else ls;
      if pos[k].pieceColor in cs {
        GeneratedOnSide(pos, ls, k, check, checkmate);
      }
      RegeneratedKeepsOthers(pos, next, cs, check, checkmate, k + 1, i);
    }
  }

  /** makeMove recomputes only the opponent: the side that moved keeps the lists it had. */
  lemma RecomputedKeepsOthers(pos: seq<PieceState>, ls: seq<seq<ChessMove>>, cs: set<PieceColor>, check: bool,
                              checkmate: bool)
    requires |ls| == |pos| && AllOnBoard(pos) && ListsWellFormed(ls)
    ensures forall i :: 0 <= i < |pos| && pos[i].pieceColor !in cs ==> Recomputed(pos, ls, cs, check, checkmate)[i] == ls[i]
  {
    forall i | 0 <= i < |pos| && pos[i].pieceColor !in cs
      ensures Recomputed(pos, ls, cs, check, checkmate)[i] == ls[i]
    {
      RegeneratedKeepsOthers(pos, Cleared(pos, ls, cs), cs, check, checkmate, 0, i);
    }
  }

  /** After a mate, recomputing pieces whose lists are already empty leaves every list as it was. */
  lemma {:induction false} RegeneratedAfterMate(pos: seq<PieceState>, ls: seq<seq<ChessMove>>, cs: set<PieceColor>,
                                                check: bool, k: nat)
    requires |ls| == |pos| && AllOnBoard(pos) && ListsWellFormed(ls) && k <= |pos|
    requires forall i :: 0 <= i < |pos| && pos[i].pieceColor in cs ==> ls[i] == []
    ensures Regenerated(pos, ls, cs, check, true, k) == ls
    decreases |pos| - k
  {
    if k < |pos| {
      if pos[k].pieceColor in cs {
        assert Generated(pos, ls, k, check, true) == ls;
      }
      RegeneratedAfterMate(pos, ls, cs, check, k + 1);
    }
  }

  /** After a mate every piece of the recomputed colours has no move at all. */
  lemma MateLeavesNoMoves(pos: seq<PieceState>, ls: seq<seq<ChessMove>>, cs: set<PieceColor>, check: bool)
    requires |ls| == |pos| && AllOnBoard(pos) && ListsWellFormed(ls)
    ensures forall i :: 0 <= i < |pos| && pos[i].pieceColor in cs ==> Recomputed(pos, ls, cs, check, true)[i] == []
  {
    RegeneratedAfterMate(pos, Cleared(pos, ls, cs), cs, check, 0);
  }

  // ---------------------------------------------------------------------------
  // removePiece
  // ---------------------------------------------------------------------------

  predicate IsPieceAt(p: PieceState, f: char, r: char, c: PieceColor)
  {
    p.pieceColor == c && At(p, f, r)
  }

  /** The first piece from i on of colour c on (f, r). */
  function FirstPieceAt(pos: seq<PieceState>, f: char, r: char, c: PieceColor, i: nat): (o: Option<nat>)
    requires i <= |pos|
    ensures o.None? <==> forall j :: i <= j < |pos| ==> !IsPieceAt(pos[j], f, r, c)
    ensures o.Some? ==> i <= o.value < |pos| && IsPieceAt(pos[o.value], f, r, c) &&
                        forall j :: i <= j < o.value ==> !IsPieceAt(pos[j], f, r, c)
    decreases |pos| - i
  {
    if i == |pos| then None
    else if IsPieceAt(pos[i], f, r, c) then Some(i)
    else FirstPieceAt(pos, f, r, c, i + 1)
  }

  /** removePiece on the pieces and, index for index, on their lists. */
  function Removed(pos: seq<PieceState>, ls: seq<seq<ChessMove>>, f: char, r: char, c: PieceColor)
    : (res: (seq<PieceState>, seq<seq<ChessMove>>))
    requires |ls| == |pos|
    ensures |res.0| == |res.1|
    ensures AllOnBoard(pos) ==> AllOnBoard(res.0)
    ensures ListsWellFormed(ls) ==> ListsWellFormed(res.1)
  {
    match FirstPieceAt(pos, f, r, c, 0)
    case None => (pos, ls)
    case Some(i) => (RemoveAt(pos, i), RemoveAt(ls, i))
  }

  /** The number of pieces of colour c on (f, r). */
  function CountAt(pos: seq<PieceState>, f: char, r: char, c: PieceColor): nat
  {
    if pos == [] then 0
    else CountAt(pos[..|pos| - 1], f, r, c) + (if IsPieceAt(pos[|pos| - 1], f, r, c) then 1 else 0)
  }

  lemma {:induction false} CountAtSplit(a: seq<PieceState>, b: seq<PieceState>, f: char, r: char, c: PieceColor)
    ensures CountAt(a + b, f, r, c) == CountAt(a, f, r, c) + CountAt(b, f, r, c)
    decreases |b|
  {
    if b == [] {
      assert a + b == a;
    } else {
      assert (a + b)[..|a + b| - 1] == a + b[..|b| - 1];
      assert (a + b)[|a + b| - 1] == b[|b| - 1];
      CountAtSplit(a, b[..|b| - 1], f, r, c);
    }
  }

  lemma {:induction false} CountAtNone(pos: seq<PieceState>, f: char, r: char, c: PieceColor)
    requires forall j :: 0 <= j < |pos| ==> !IsPieceAt(pos[j], f, r, c)
    ensures CountAt(pos, f, r, c) == 0
  {
    if pos != [] {
      CountAtNone(pos[..|pos| - 1], f, r, c);
    }
  }

  /**
   * removePiece deletes exactly one piece of colour c on (f, r) when there is
   * one, and nothing otherwise; every other piece stays, in order.
   */
  lemma RemovedCount(pos: seq<PieceState>, ls: seq<seq<ChessMove>>, f: char, r: char, c: PieceColor)
    requires |ls| == |pos|
    ensures var res := Removed(pos, ls, f, r, c);
            CountAt(res.0, f, r, c) == (if CountAt(pos, f, r, c) == 0 then 0 else CountAt(pos, f, r, c) - 1) &&
            |res.0| == (if CountAt(pos, f, r, c) == 0 then |pos| else |pos| - 1)
  {
    var o := FirstPieceAt(pos, f, r, c, 0);
    if o.None? {
      CountAtNone(pos, f, r, c);
    } else {
      var i := o.value;
      assert pos == pos[..i] + [pos[i]] + pos[i + 1..];
      assert RemoveAt(pos, i) == pos[..i] + pos[i + 1..];
      CountAtSplit(pos[..i] + [pos[i]], pos[i + 1..], f, r, c);
      CountAtSplit(pos[..i], [pos[i]], f, r, c);
      CountAtSplit(pos[..i], pos[i + 1..], f, r, c);
      CountAtNone(pos[..i], f, r, c);
      assert CountAt([pos[i]], f, r, c) == 1 by {
        assert [pos[i]][..0] == [];
      }
    }
  }

  /** The captures loop of makeMove: removePiece on each recorded (file, rank, colour), in order. */
  function RemovedAll(pos: seq<PieceState>, ls: seq<seq<ChessMove>>, removed: seq<(char, char, PieceColor)>)
    : (res: (seq<PieceState>, seq<seq<ChessMove>>))
    requires |ls| == |pos|
    ensures |res.0| == |res.1|
    ensures AllOnBoard(pos) ==> AllOnBoard(res.0)
    ensures ListsWellFormed(ls) ==> ListsWellFormed(res.1)
    decreases |removed|
  {
    if removed == [] then (pos, ls)
    else
      var e := removed[0];
      var next := Removed(pos, ls, e.0, e.1, e.2);
      RemovedAll(next.0, next.1, removed[1..])
  }

  /** The pieces of colour c, in list order. */
  function OfColor(pos: seq<PieceState>, c: PieceColor): seq<PieceState>
  {
    if pos == [] then []
    else OfColor(pos[..|pos| - 1], c) + (if pos[|pos| - 1].pieceColor == c then [pos[|pos| - 1]] else [])
  }

  lemma {:induction false} OfColorSplit(a: seq<PieceState>, b: seq<PieceState>, c: PieceColor)
    ensures OfColor(a + b, c) == OfColor(a, c) + OfColor(b, c)
    decreases |b|
  {
    if b == [] {
      assert a + b == a;
    } else {
      assert (a + b)[..|a + b| - 1] == a + b[..|b| - 1];
      assert (a + b)[|a + b| - 1] == b[|b| - 1];
      OfColorSplit(a, b[..|b| - 1], c);
    }
  }

  /** Two positions that agree on every piece of colour c, and on every colour, have the same pieces of colour c. */
  lemma {:induction false} OfColorSame(a: seq<PieceState>, b: seq<PieceState>, c: PieceColor)
    requires |a| == |b|
    requires forall i :: 0 <= i < |a| ==> a[i].pieceColor == b[i].pieceColor && (a[i].pieceColor == c ==> a[i] == b[i])
    ensures OfColor(a, c) == OfColor(b, c)
  {
    if a != [] {
      OfColorSame(a[..|a| - 1], b[..|b| - 1], c);
    }
  }

  /** Taking out a piece of another colour than d leaves the pieces of colour d. */
  lemma OfColorRemoveAt(pos: seq<PieceState>, i: nat, d: PieceColor)
    requires i < |pos| && pos[i].pieceColor != d
    ensures OfColor(RemoveAt(pos, i), d) == OfColor(pos, d)
  {
    var a, b := pos[..i], pos[i + 1..];
    assert pos == (a + [pos[i]]) + b;
    assert RemoveAt(pos, i) == a + b;
    OfColorSplit(a + [pos[i]], b, d);
    OfColorSplit(a, b, d);
    assert OfColor(a + [pos[i]], d) == OfColor(a, d) by {
      assert (a + [pos[i]])[..|a|] == a;
    }
  }

  /** removePiece for colour c leaves the pieces of any other colour, in order. */
  lemma RemovedKeepsColor(pos: seq<PieceState>, ls: seq<seq<ChessMove>>, f: char, r: char, c: PieceColor, d: PieceColor)
    requires |ls| == |pos| && c != d
    ensures OfColor(Removed(pos, ls, f, r, c).0, d) == OfColor(pos, d)
  {
    var o := FirstPieceAt(pos, f, r, c, 0);
    if o.Some? {
      OfColorRemoveAt(pos, o.value, d);
    }
  }

  /** Removals recorded for colours other than d leave the pieces of colour d. */
  lemma {:induction false} RemovedAllKeepsColor(pos: seq<PieceState>, ls: seq<seq<ChessMove>>,
                                                removed: seq<(char, char, PieceColor)>, d: PieceColor)
    requires |ls| == |pos| && forall j :: 0 <= j < |removed| ==> removed[j].2 != d
    ensures OfColor(RemovedAll(pos, ls, removed).0, d) == OfColor(pos, d)
    decreases |removed|
  {
    if removed != [] {
      var e := removed[0];
      var next := Removed(pos, ls, e.0, e.1, e.2);
      RemovedKeepsColor(pos, ls, e.0, e.1, e.2, d);
      assert forall j :: 0 <= j < |removed[1..]| ==> removed[1..][j] == removed[j + 1];
      RemovedAllKeepsColor(next.0, next.1, removed[1..], d);
    }
  }

  // ---------------------------------------------------------------------------
  // addPiece and initializeBoard
  // ---------------------------------------------------------------------------

  /** A fresh piece: no move made yet. */
  function NewPiece(t: PieceType, c: PieceColor, f: char, r: char): PieceState
  {
    PieceState(t, c, f, r, 0)
  }

  /** `piece in self.pieces`, with the source's equality on type, colour, file and rank. */
  predicate Contains(pos: seq<PieceState>, p: PieceState)
  {
    exists i :: 0 <= i < |pos| && SamePiece(pos[i], p)
  }

  /** addPiece: p is appended unless an equal piece is already on the list. */
  function Added(pos: seq<PieceState>, p: PieceState): (r: seq<PieceState>)
    ensures Contains(r, p)
    ensures forall i :: 0 <= i < |pos| ==> i < |r| && r[i] == pos[i]
  {
    if Contains(pos, p) then pos
    else
      assert SamePiece((pos + [p])[|pos|], p);
      pos + [p]
  }

  /** addPiece applied to each placement in turn. */
  function AddedAll(pos: seq<PieceState>, ps: seq<PieceState>): (r: seq<PieceState>)
    decreases |ps|
  {
    if ps == [] then pos else Added(AddedAll(pos, ps[..|ps| - 1]), ps[|ps| - 1])
  }

  /** Every placement added is on the list afterwards, and the list only grows. */
  lemma {:induction false} AddedAllContains(pos: seq<PieceState>, ps: seq<PieceState>)
    ensures |pos| <= |AddedAll(pos, ps)|
    ensures forall i :: 0 <= i < |pos| ==> AddedAll(pos, ps)[i] == pos[i]
    ensures forall j :: 0 <= j < |ps| ==> Contains(AddedAll(pos, ps), ps[j])
    decreases |ps|
  {
    if ps != [] {
      var init := ps[..|ps| - 1];
      AddedAllContains(pos, init);
      var before := AddedAll(pos, init);
      forall j | 0 <= j < |ps| ensures Contains(AddedAll(pos, ps), ps[j]) {
        if j < |ps| - 1 {
          assert ps[j] == init[j];
          var i :| 0 <= i < |before| && SamePiece(before[i], ps[j]);
          assert AddedAll(pos, ps)[i] == before[i];
        }
      }
    }
  }

  /** Adding placements that do not repeat one another, to a list that has none of them, appends them all. */
  lemma {:induction false} AddedAllAppends(pos: seq<PieceState>, ps: seq<PieceState>)
    requires forall i, j :: 0 <= i < |pos| && 0 <= j < |ps| ==> !SamePiece(pos[i], ps[j])
    requires forall i, j :: 0 <= i < j < |ps| ==> !SamePiece(ps[i], ps[j])
    ensures AddedAll(pos, ps) == pos + ps
    decreases |ps|
  {
    if ps != [] {
      var init := ps[..|ps| - 1];
      var p := ps[|ps| - 1];
      AddedAllAppends(pos, init);
      assert AddedAll(pos, init) == pos + init;
      forall i | 0 <= i < |pos + init| ensures !SamePiece((pos + init)[i], p) {
        if i >= |pos| {
          assert (pos + init)[i] == ps[i - |pos|];
        }
      }
      assert (pos + init) + [p] == pos + ps;
    }
  }

  /**
   * One round of initializeBoard's loops: a piece of type t on file f, black
   * on rank br and white on rank wr.
   */
  datatype Pair = Pair(t: PieceType, f: char, br: char, wr: char)

  /** The eight files in order, as the pawn loop walks them. */
  const Files: seq<char> := ['a', 'b', 'c', 'd', 'e', 'f', 'g', 'h']

  /** The files of the pieces behind the pawns, in the order initializeBoard adds them. */
  const BackFiles: seq<char> := ['a', 'h', 'b', 'g', 'c', 'f', 'd', 'e']

  const BackTypes: seq<PieceType> := [Rook, Rook, Knight, Knight, Bishop, Bishop, Queen, King]

  /** Round n of initializeBoard: the pawns file by file, then rooks, knights, bishops, queen and king. */
  function Round(n: nat): Pair
    requires n < 16
  {
    if n < 8 then Pair(Pawn, Files[n], '7', '2') else Pair(BackTypes[n - 8], BackFiles[n - 8], '8', '1')
  }

  /** The sixteen rounds in order. */
  function InitialPairs(): (qs: seq<Pair>)
    ensures |qs| == 16 && forall n :: 0 <= n < 16 ==> qs[n] == Round(n)
  {
    seq(16, n requires 0 <= n < 16 => Round(n))
  }

  /** The placements the rounds add: the black piece, then the white one. */
  function Placements(qs: seq<Pair>): (ps: seq<PieceState>)
    ensures |ps| == 2 * |qs|
  {
    if qs == [] then []
    else
      var q := qs[|qs| - 1];
      Placements(qs[..|qs| - 1]) + [NewPiece(q.t, Black, q.f, q.br), NewPiece(q.t, White, q.f, q.wr)]
  }

  lemma {:induction false} PlacementsAt(qs: seq<Pair>, a: nat)
    requires a < |qs|
    ensures Placements(qs)[2 * a] == NewPiece(qs[a].t, Black, qs[a].f, qs[a].br)
    ensures Placements(qs)[2 * a + 1] == NewPiece(qs[a].t, White, qs[a].f, qs[a].wr)
  {
    var init := qs[..|qs| - 1];
    if a < |qs| - 1 {
      assert init[a] == qs[a];
      PlacementsAt(init, a);
    }
  }

  /** The 32 placements of initializeBoard, in order. */
  function InitialPlacements(): seq<PieceState>
  {
    Placements(InitialPairs())
  }

  /** Two rounds never place equal pieces: the files differ within the pawns and within the back rank, the ranks across. */
  lemma PairsApart(a: nat, b: nat)
    requires a < b < 16
    ensures (Round(a).f, Round(a).br) != (Round(b).f, Round(b).br) && (Round(a).f, Round(a).wr) != (Round(b).f, Round(b).wr)
  {
    if b < 8 {
      assert Files[a] != Files[b];
    } else if 8 <= a {
      assert BackFiles[a - 8] != BackFiles[b - 8];
    }
  }

  /** No two initial placements are equal pieces. */
  lemma InitialPlacementsDistinct()
    ensures |InitialPlacements()| == 32
    ensures forall i, j :: 0 <= i < j < |InitialPlacements()| ==> !SamePiece(InitialPlacements()[i], InitialPlacements()[j])
  {
    var qs := InitialPairs();
    var ps := InitialPlacements();
    forall i, j | 0 <= i < j < |ps| ensures !SamePiece(ps[i], ps[j]) {
      PlacementsAt(qs, i / 2);
      PlacementsAt(qs, j / 2);
      if i / 2 < j / 2 {
        PairsApart(i / 2, j / 2);
      }
    }
  }

  /** Adding one round of the setup: its black piece, then its white one. */
  lemma InitialRound(pos0: seq<PieceState>, n: nat)
    requires n < 16
    ensures var q := Round(n);
            var ps := InitialPlacements();
            AddedAll(pos0, ps[..2 * n + 2]) ==
            Added(Added(AddedAll(pos0, ps[..2 * n]), NewPiece(q.t, Black, q.f, q.br)), NewPiece(q.t, White, q.f, q.wr))
  {
    var ps := InitialPlacements();
    PlacementsAt(InitialPairs(), n);
    assert ps[..2 * n + 2][..2 * n + 1] == ps[..2 * n + 1];
    assert ps[..2 * n + 1][..2 * n] == ps[..2 * n];
  }

  /** The board after the first n rounds of initializeBoard, started from pos0. */
  function Setup(pos0: seq<PieceState>, n: nat): seq<PieceState>
    requires n <= 16
  {
    if n == 0 then pos0
    else
      var q := Round(n - 1);
      Added(Added(Setup(pos0, n - 1), NewPiece(q.t, Black, q.f, q.br)), NewPiece(q.t, White, q.f, q.wr))
  }

  /** Round by round, the rounds add the initial placements in order. */
  lemma {:induction false} SetupAddsPlacements(pos0: seq<PieceState>, n: nat)
    requires n <= 16
    ensures Setup(pos0, n) == AddedAll(pos0, InitialPlacements()[..2 * n])
  {
    if n == 0 {
      assert InitialPlacements()[..0] == [];
    } else {
      SetupAddsPlacements(pos0, n - 1);
      InitialRound(pos0, n - 1);
    }
  }

  /** Every round places its two pieces on squares. */
  lemma InitialPairOnBoard(n: nat)
    requires n < 16
    ensures var q := Round(n); IsSquare(q.f, q.br) && IsSquare(q.f, q.wr)
  {
    if n >= 8 {
      assert BackFiles[n - 8] in BackFiles;
    } else {
      assert Files[n] in Files;
    }
  }

  /** The sixteen rounds leave both kings on the board, whatever the board held before. */
  lemma SetupHasKings(pos0: seq<PieceState>)
    ensures HasKing(Setup(pos0, 16), White) && HasKing(Setup(pos0, 16), Black)
  {
    SetupAddsPlacements(pos0, 16);
    assert InitialPlacements()[..32] == InitialPlacements();
    InitialHasKings(pos0);
  }

  /** On an empty board the sixteen rounds produce exactly the initial placements. */
  lemma SetupFromEmpty(pos0: seq<PieceState>)
    requires pos0 == []
    ensures Setup(pos0, 16) == InitialPlacements()
  {
    SetupAddsPlacements(pos0, 16);
    assert InitialPlacements()[..32] == InitialPlacements();
    InitialOnEmpty();
  }

  /** A list of n empty move lists. */
  function NoMoves(n: nat): (ls: seq<seq<ChessMove>>)
    ensures |ls| == n && ListsWellFormed(ls)
  {
    seq(n, _ => [])
  }

  /** initializeBoard leaves both kings on the board, whatever the board held before. */
  lemma InitialHasKings(pos0: seq<PieceState>)
    ensures HasKing(AddedAll(pos0, InitialPlacements()), White) && HasKing(AddedAll(pos0, InitialPlacements()), Black)
  {
    var ps := InitialPlacements();
    var pos := AddedAll(pos0, ps);
    PlacementsAt(InitialPairs(), 15);
    AddedAllContains(pos0, ps);
    assert Contains(pos, ps[30]) && Contains(pos, ps[31]);
    var b :| 0 <= b < |pos| && SamePiece(pos[b], ps[30]);
    var w :| 0 <= w < |pos| && SamePiece(pos[w], ps[31]);
    assert IsKingOf(pos[b], Black) && IsKingOf(pos[w], White);
  }

  /** On an empty board initializeBoard places exactly the 32 pieces, in order. */
  lemma InitialOnEmpty()
    ensures AddedAll([], InitialPlacements()) == InitialPlacements()
  {
    InitialPlacementsDistinct();
    AddedAllAppends([], InitialPlacements());
    assert [] + InitialPlacements() == InitialPlacements();
  }

  /** updateMoves recomputes every list from scratch: the stale lists do not matter. */
  lemma RecomputedIgnoresStaleLists(pos: seq<PieceState>, ls: seq<seq<ChessMove>>, ls': seq<seq<ChessMove>>,
                                    check: bool, checkmate: bool)
    requires |ls| == |pos| && |ls'| == |pos| && AllOnBoard(pos) && ListsWellFormed(ls) && ListsWellFormed(ls')
    ensures Recomputed(pos, ls, {White, Black}, check, checkmate) == Recomputed(pos, ls', {White, Black}, check, checkmate)
  {
    forall i | 0 <= i < |pos|
      ensures Cleared(pos, ls, {White, Black})[i] == Cleared(pos, ls', {White, Black})[i]
    {
      var c := pos[i].pieceColor;
      assert c == White || c == Black;
      assert c in {White, Black};
    }
    assert Cleared(pos, ls, {White, Black}) == Cleared(pos, ls', {White, Black});
  }

  // ---------------------------------------------------------------------------
  // makeMove
  // ---------------------------------------------------------------------------

  /** The test of makeMove's loop: the piece at i has m cached and has the colour c to move. */
  predicate Matches(pos: seq<PieceState>, ls: seq<seq<ChessMove>>, m: ChessMove, c: PieceColor, i: nat)
    requires |ls| == |pos| && i < |pos|
  {
    m in ls[i] && pos[i].pieceColor == c
  }

  lemma CachedIsWellFormed(ls: seq<seq<ChessMove>>, i: nat, m: ChessMove)
    requires ListsWellFormed(ls) && i < |ls| && m in ls[i]
    ensures WellFormedMove(m) && Executable(m)
  {
    assert AllWellFormed(ls[i]);
    var j :| 0 <= j < |ls[i]| && ls[i][j] == m;
    WellFormedIsExecutable(m);
  }

  /** The placement of the piece at i once the loop has visited it: executeMove applied when it matches. */
  function ExecutedAt(pos: seq<PieceState>, ls: seq<seq<ChessMove>>, m: ChessMove, c: PieceColor, i: nat): (q: PieceState)
    requires |ls| == |pos| && ListsWellFormed(ls) && i < |pos|
    ensures q.pieceColor == pos[i].pieceColor
    ensures q.moveCounter == pos[i].moveCounter + (if Matches(pos, ls, m, c, i) then 1 else 0)
    ensures OnBoard(pos[i]) ==> OnBoard(q)
  {
    if Matches(pos, ls, m, c, i) then
      CachedIsWellFormed(ls, i, m);
      ExecutedState(pos[i], m)
    else pos[i]
  }

  /** The position once the loop has visited the first n pieces. */
  function ExecutedUpTo(pos: seq<PieceState>, ls: seq<seq<ChessMove>>, m: ChessMove, c: PieceColor, n: nat)
    : (r: seq<PieceState>)
    requires |ls| == |pos| && ListsWellFormed(ls) && n <= |pos|
    ensures |r| == |pos|
  {
    seq(|pos|, i requires 0 <= i < |pos| => if i < n then ExecutedAt(pos, ls, m, c, i) else pos[i])
  }

  /** The position after the loop: every piece of colour c with m cached has executed it. */
  function Executed(pos: seq<PieceState>, ls: seq<seq<ChessMove>>, m: ChessMove, c: PieceColor): (r: seq<PieceState>)
    requires |ls| == |pos| && ListsWellFormed(ls)
    ensures |r| == |pos| && (AllOnBoard(pos) ==> AllOnBoard(r))
  {
    ExecutedUpTo(pos, ls, m, c, |pos|)
  }

  lemma ExecutedUpToZero(pos: seq<PieceState>, ls: seq<seq<ChessMove>>, m: ChessMove, c: PieceColor)
    requires |ls| == |pos| && ListsWellFormed(ls)
    ensures ExecutedUpTo(pos, ls, m, c, 0) == pos
  {
  }

  lemma ExecutedUpToStep(pos: seq<PieceState>, ls: seq<seq<ChessMove>>, m: ChessMove, c: PieceColor, n: nat)
    requires |ls| == |pos| && ListsWellFormed(ls) && n < |pos|
    ensures ExecutedUpTo(pos, ls, m, c, n)[n] == pos[n]
    ensures ExecutedUpTo(pos, ls, m, c, n + 1) == ExecutedUpTo(pos, ls, m, c, n)[n := ExecutedAt(pos, ls, m, c, n)]
  {
  }

  /** Executing the move changes no piece of the opponent. */
  lemma ExecutedKeepsOpponent(pos: seq<PieceState>, ls: seq<seq<ChessMove>>, m: ChessMove, c: PieceColor)
    requires |ls| == |pos| && ListsWellFormed(ls)
    ensures OfColor(Executed(pos, ls, m, c), Enemy(c)) == OfColor(pos, Enemy(c))
  {
    OfColorSame(pos, Executed(pos, ls, m, c), Enemy(c));
  }

  /** The number of matching pieces among the first n. */
  function MatchCount(pos: seq<PieceState>, ls: seq<seq<ChessMove>>, m: ChessMove, c: PieceColor, n: nat): (k: nat)
    requires |ls| == |pos| && n <= |pos|
    ensures k == 0 <==> forall i :: 0 <= i < n ==> !Matches(pos, ls, m, c, i)
    ensures k <= n
  {
    if n == 0 then 0 else MatchCount(pos, ls, m, c, n - 1) + (if Matches(pos, ls, m, c, n - 1) then 1 else 0)
  }

  lemma MatchCountStep(pos: seq<PieceState>, ls: seq<seq<ChessMove>>, m: ChessMove, c: PieceColor, n: nat)
    requires |ls| == |pos| && n < |pos|
    ensures MatchCount(pos, ls, m, c, n + 1) == MatchCount(pos, ls, m, c, n) + (if Matches(pos, ls, m, c, n) then 1 else 0)
  {
  }

  /**
   * The running values of makeMove's loop after the first n pieces: the
   * number k of matches, whether a piece moved, the recorded captures, and
   * the flags of the last match (the move's own, once one matched).
   */
  function Tallied(pos: seq<PieceState>, ls: seq<seq<ChessMove>>, m: ChessMove, c: PieceColor, n: nat)
    : (t: (nat, bool, seq<(char, char, PieceColor)>, bool, bool))
    requires |ls| == |pos| && ListsWellFormed(ls) && n <= |pos|
  {
    var k := MatchCount(pos, ls, m, c, n);
    if k == 0 then (0, false, [], false, false)
    else
      MatchedIsWellFormed(pos, ls, m, c, n);
      (k, true, TakenSquares(m, c, if m.Takes() then k else 0), m.Check(), m.CheckMate())
  }

  /** A matching piece counts, records its capture when the move takes, and sets the flags to the move's. */
  lemma TalliedMatch(pos: seq<PieceState>, ls: seq<seq<ChessMove>>, m: ChessMove, c: PieceColor, n: nat, k: nat,
                     madeMove: bool, removed: seq<(char, char, PieceColor)>, check: bool, checkmate: bool)
    requires |ls| == |pos| && ListsWellFormed(ls) && n < |pos| && Matches(pos, ls, m, c, n)
    requires (k, madeMove, removed, check, checkmate) == Tallied(pos, ls, m, c, n)
    ensures WellFormedMove(m)
    ensures Tallied(pos, ls, m, c, n + 1) ==
            (k + 1, true, removed + (if m.Takes() then [(FinalPosition(m).0, FinalPosition(m).1, Enemy(c))] else []),
             m.Check(), m.CheckMate())
  {
    MatchCountStep(pos, ls, m, c, n);
    CachedIsWellFormed(ls, n, m);
    if m.Takes() {
      TakenSquaresStep(m, c, k);
    } else {
      assert removed + [] == removed == TakenSquares(m, c, 0);
    }
  }

  /** A piece that does not match changes none of the running values. */
  lemma TalliedSkip(pos: seq<PieceState>, ls: seq<seq<ChessMove>>, m: ChessMove, c: PieceColor, n: nat)
    requires |ls| == |pos| && ListsWellFormed(ls) && n < |pos| && !Matches(pos, ls, m, c, n)
    ensures Tallied(pos, ls, m, c, n + 1) == Tallied(pos, ls, m, c, n)
  {
    MatchCountStep(pos, ls, m, c, n);
  }

  /** A move some piece has cached is well formed. */
  lemma MatchedIsWellFormed(pos: seq<PieceState>, ls: seq<seq<ChessMove>>, m: ChessMove, c: PieceColor, n: nat)
    requires |ls| == |pos| && ListsWellFormed(ls) && n <= |pos| && MatchCount(pos, ls, m, c, n) > 0
    ensures WellFormedMove(m) && Executable(m)
  {
    var i :| 0 <= i < n && Matches(pos, ls, m, c, i);
    CachedIsWellFormed(ls, i, m);
  }

  /** `executedMoves` after k matches: each match appends m while the log is no longer than the move number. */
  function Logged(log: seq<ChessMove>, moveNumber: nat, m: ChessMove, k: nat): seq<ChessMove>
  {
    if k == 0 then log
    else
      var l := Logged(log, moveNumber, m, k - 1);
      if |l| <= moveNumber then l + [m] else l
  }

  lemma LoggedStep(log: seq<ChessMove>, moveNumber: nat, m: ChessMove, k: nat)
    ensures var l := Logged(log, moveNumber, m, k);
            Logged(log, moveNumber, m, k + 1) == if |l| <= moveNumber then l + [m] else l
  {
  }

  /** With the log in step with the move number, any number of matches logs the move once. */
  lemma {:induction false} LoggedOnce(log: seq<ChessMove>, moveNumber: nat, m: ChessMove, k: nat)
    requires |log| == moveNumber && k > 0
    ensures Logged(log, moveNumber, m, k) == log + [m]
  {
    if k > 1 {
      LoggedOnce(log, moveNumber, m, k - 1);
    }
  }

  /** The captures makeMove records: the destination and the opponent's colour, once per matching piece. */
  function TakenSquares(m: ChessMove, c: PieceColor, n: nat): (removed: seq<(char, char, PieceColor)>)
    requires n > 0 ==> |Reduce(m.moveString)| >= 2
    ensures |removed| == n && forall j :: 0 <= j < n ==> removed[j].2 == Enemy(c)
  {
    if n == 0 then []
    else
      var sq := FinalPosition(m);
      seq(n, _ => (sq.0, sq.1, Enemy(c)))
  }

  lemma TakenSquaresStep(m: ChessMove, c: PieceColor, n: nat)
    requires |Reduce(m.moveString)| >= 2
    ensures TakenSquares(m, c, n + 1) == TakenSquares(m, c, n) + [(FinalPosition(m).0, FinalPosition(m).1, Enemy(c))]
  {
  }

  /** A piece that executes a capture stands on the move's destination afterwards. */
  lemma TakerStandsOnTarget(p: PieceState, m: ChessMove)
    requires WellFormedMove(m) && m.Takes()
    ensures |Reduce(m.moveString)| >= 2 && Executable(m)
    ensures At(ExecutedState(p, m), FinalPosition(m).0, FinalPosition(m).1)
  {
  }

  /** Without a match the loop changes no piece. */
  lemma ExecutedWithoutMatch(pos: seq<PieceState>, ls: seq<seq<ChessMove>>, m: ChessMove, c: PieceColor)
    requires |ls| == |pos| && ListsWellFormed(ls) && MatchCount(pos, ls, m, c, |pos|) == 0
    ensures Executed(pos, ls, m, c) == pos
  {
    assert forall i :: 0 <= i < |pos| ==> !Matches(pos, ls, m, c, i);
  }

  /** What makeMove reports: InvalidMove for its -1; Made and GameOver both where it returns nothing; KingMissing where the model stops (see Finished). */
  datatype Outcome = Made | InvalidMove | GameOver | KingMissing

  /** The state makeMove reads and writes, as a value. */
  datatype BoardState = BoardState(pos: seq<PieceState>, ls: seq<seq<ChessMove>>, moveNumber: nat, gameEnded: bool,
                       winner: Option<PieceColor>, log: seq<ChessMove>)

  predicate Consistent(g: BoardState)
  {
    |g.ls| == |g.pos| && AllOnBoard(g.pos) && ListsWellFormed(g.ls)
  }

  /**
   * makeMove: the side to move by ply parity, every one of its pieces with m
   * cached executes it, the recorded captures are removed, a mate ends the
   * game, and the opponent's lists are recomputed. Without a match nothing
   * changes. When a king is missing and the move is not a mate, the model
   * stops with KingMissing before the recomputation (see Finished).
   */
  function Played(g: BoardState, m: ChessMove): (res: (BoardState, Outcome))
    requires Consistent(g)
    ensures Consistent(res.0)
  {
    var c := ColorOfPly(g.moveNumber);
    var k := MatchCount(g.pos, g.ls, m, c, |g.pos|);
    if k == 0 then (g, if g.gameEnded then GameOver else InvalidMove)
    else
      MatchedIsWellFormed(g.pos, g.ls, m, c, |g.pos|);
      Finished(CapturesRemoved(Executions(g, m, c), TakenSquares(m, c, if m.Takes() then k else 0)), c, m.Check(), m.CheckMate())
  }

  /**
   * The execution loop of makeMove: every piece of colour c with m cached
   * goes to m's target, and m is logged once per such piece.
   */
  function Executions(g: BoardState, m: ChessMove, c: PieceColor): (r: BoardState)
    requires Consistent(g)
    ensures Consistent(r)
  {
    g.(pos := Executed(g.pos, g.ls, m, c), log := Logged(g.log, g.moveNumber, m, MatchCount(g.pos, g.ls, m, c, |g.pos|)))
  }

  /** makeMove in the terms of its two loops, their tally, and the end of the move. */
  lemma PlayedByTally(g: BoardState, m: ChessMove, k: nat, madeMove: bool, removed: seq<(char, char, PieceColor)>,
                      check: bool, checkmate: bool)
    requires Consistent(g)
    requires (k, madeMove, removed, check, checkmate) == Tallied(g.pos, g.ls, m, ColorOfPly(g.moveNumber), |g.pos|)
    ensures !madeMove ==> CapturesRemoved(Executions(g, m, ColorOfPly(g.moveNumber)), removed) == g
    ensures !madeMove ==> Played(g, m) == (g, if g.gameEnded then GameOver else InvalidMove)
    ensures madeMove ==>
              Played(g, m) == Finished(CapturesRemoved(Executions(g, m, ColorOfPly(g.moveNumber)), removed),
                                       ColorOfPly(g.moveNumber), check, checkmate)
  {
    if !madeMove {
      UnmatchedIsIdle(g, m, ColorOfPly(g.moveNumber));
    }
  }

  /** What the execution loop leaves, counted by the tally, is Executions. */
  lemma ExecutionsOf(g: BoardState, m: ChessMove, c: PieceColor, pos: seq<PieceState>, log: seq<ChessMove>, k: nat)
    requires Consistent(g) && pos == ExecutedUpTo(g.pos, g.ls, m, c, |g.pos|)
    requires k == Tallied(g.pos, g.ls, m, c, |g.pos|).0 && log == Logged(g.log, g.moveNumber, m, k)
    ensures g.(pos := pos, log := log) == Executions(g, m, c)
  {
  }

  /** The capture loop of makeMove: each recorded square loses its piece. */
  function CapturesRemoved(g: BoardState, removed: seq<(char, char, PieceColor)>): (r: BoardState)
    requires Consistent(g)
    ensures Consistent(r)
  {
    var after := RemovedAll(g.pos, g.ls, removed);
    g.(pos := after.0, ls := after.1)
  }

  /** Without a matching piece the two loops of makeMove leave the board as it was. */
  lemma UnmatchedIsIdle(g: BoardState, m: ChessMove, c: PieceColor)
    requires Consistent(g) && MatchCount(g.pos, g.ls, m, c, |g.pos|) == 0
    ensures CapturesRemoved(Executions(g, m, c), []) == g
  {
    ExecutedWithoutMatch(g.pos, g.ls, m, c);
  }

  /**
   * The end of makeMove once a piece of colour c moved, with the flags of
   * the move: a mate ends the game, then the opponent's lists are
   * recomputed and the turn passes. A king missing without a mate is the
   * one case the model does not follow. The engine would reset the
   * opponent's lists and then fail in the first simulation that looks the
   * missing king up, if a recomputed piece gets that far, and finish the
   * move otherwise. The model returns KingMissing at once in every such
   * case, leaving the opponent's lists and the move number as they are.
   */
  function Finished(g: BoardState, c: PieceColor, check: bool, checkmate: bool): (res: (BoardState, Outcome))
    requires Consistent(g)
    ensures Consistent(res.0)
  {
    var marked := Marked(g, c, checkmate);
    if !checkmate && !(HasKing(g.pos, White) && HasKing(g.pos, Black)) then (marked, KingMissing)
    else (Passed(marked, c, check, checkmate), Made)
  }

  /** The mate branch of makeMove: the game ends and c wins. */
  function Marked(g: BoardState, c: PieceColor, checkmate: bool): (r: BoardState)
    ensures Consistent(g) ==> Consistent(r)
  {
    if checkmate then g.(gameEnded := true, winner := Some(c)) else g
  }

  /** The opponent's lists recomputed with the move's flags, and the move number advanced. */
  function Passed(g: BoardState, c: PieceColor, check: bool, checkmate: bool): (r: BoardState)
    requires Consistent(g)
    ensures Consistent(r)
  {
    Advanced(Refreshed(g, c, check, checkmate))
  }

  /** The lists of the pieces not of colour c reset and recomputed. */
  function Refreshed(g: BoardState, c: PieceColor, check: bool, checkmate: bool): (r: BoardState)
    requires Consistent(g)
    ensures Consistent(r)
  {
    g.(ls := Recomputed(g.pos, g.ls, {Enemy(c)}, check, checkmate))
  }

  /** The move number advanced: the other side is to move. */
  function Advanced(g: BoardState): (r: BoardState)
    ensures Consistent(g) ==> Consistent(r)
  {
    g.(moveNumber := g.moveNumber + 1)
  }

  /** A move is rejected exactly when no piece of the side to move has it cached; a rejection changes nothing. */
  lemma PlayedRejects(g: BoardState, m: ChessMove)
    requires Consistent(g)
    ensures var res := Played(g, m);
            (res.1 == InvalidMove || res.1 == GameOver) <==> MatchCount(g.pos, g.ls, m, ColorOfPly(g.moveNumber), |g.pos|) == 0
    ensures var res := Played(g, m);
            (res.1 == InvalidMove || res.1 == GameOver) ==> res.0 == g && (res.1 == GameOver <==> g.gameEnded)
  {
  }

  /** A move played hands the turn to the other side; a mate ends the game with the mover as winner. */
  lemma PlayedAdvances(g: BoardState, m: ChessMove)
    requires Consistent(g)
    ensures var res := Played(g, m);
            res.1 == Made ==>
              res.0.moveNumber == g.moveNumber + 1 && ColorOfPly(res.0.moveNumber) == Enemy(ColorOfPly(g.moveNumber)) &&
              (res.0.gameEnded <==> g.gameEnded || m.CheckMate()) &&
              res.0.winner == (if m.CheckMate() then Some(ColorOfPly(g.moveNumber)) else g.winner)
  {
  }

  /** With the log in step with the move number, a move that gets past the match logs m exactly once. */
  lemma PlayedLogsOnce(g: BoardState, m: ChessMove)
    requires Consistent(g) && |g.log| == g.moveNumber
    ensures var res := Played(g, m);
            (res.1 == Made || res.1 == KingMissing) ==> res.0.log == g.log + [m]
    ensures var res := Played(g, m);
            res.1 == Made ==> |res.0.log| == res.0.moveNumber
  {
    var c := ColorOfPly(g.moveNumber);
    var k := MatchCount(g.pos, g.ls, m, c, |g.pos|);
    if k > 0 {
      LoggedOnce(g.log, g.moveNumber, m, k);
    }
  }

  /** The side that moved loses no piece: its pieces are those it had after executing the move. */
  lemma PlayedKeepsMover(g: BoardState, m: ChessMove)
    requires Consistent(g)
    ensures var res := Played(g, m);
            var c := ColorOfPly(g.moveNumber);
            (res.1 == Made || res.1 == KingMissing) ==> OfColor(res.0.pos, c) == OfColor(Executed(g.pos, g.ls, m, c), c)
  {
    var c := ColorOfPly(g.moveNumber);
    var k := MatchCount(g.pos, g.ls, m, c, |g.pos|);
    if k > 0 {
      MatchedIsWellFormed(g.pos, g.ls, m, c, |g.pos|);
      RemovedAllKeepsColor(Executed(g.pos, g.ls, m, c), g.ls, TakenSquares(m, c, if m.Takes() then k else 0), c);
    }
  }

  /** After a mate the mated side has no cached move at all. */
  lemma MatedSideHasNoMoves(g: BoardState, m: ChessMove)
    requires Consistent(g)
    ensures var res := Played(g, m);
            res.1 == Made && m.CheckMate() ==>
              MoveCount(res.0.pos, res.0.ls, Enemy(ColorOfPly(g.moveNumber)), |res.0.pos|) == 0
  {
    var c := ColorOfPly(g.moveNumber);
    var k := MatchCount(g.pos, g.ls, m, c, |g.pos|);
    if k > 0 && m.CheckMate() {
      MatchedIsWellFormed(g.pos, g.ls, m, c, |g.pos|);
      var after := RemovedAll(Executed(g.pos, g.ls, m, c), g.ls, TakenSquares(m, c, if m.Takes() then k else 0));
      MateLeavesNoMoves(after.0, after.1, {Enemy(c)}, m.Check());
      var res := Played(g, m);
      assert res.0.pos == after.0;
      NoMovesMeans(res.0.pos, res.0.ls, Enemy(c), |res.0.pos|);
    }
  }
}
