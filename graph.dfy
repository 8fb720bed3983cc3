/**
 * The attack graph of a position: one node per square, and a directed
 * connection from the square of each contributing piece to every square in
 * its vision. Connections are kept per source square, without repeats.
 */
module Graph {
  import opened ChessTypes
  import opened Coordinates
  import opened Position
  import opened Game

  /** The key of a square in the connection table: its file followed by its rank. */
  function SquareId(f: char, r: char): string { [f, r] }

  lemma SquareIdInjective(f: char, r: char, f': char, r': char)
    ensures SquareId(f, r) == SquareId(f', r') <==> f == f' && r == r'
  {
    if SquareId(f, r) == SquareId(f', r') {
      assert SquareId(f, r)[0] == f && SquareId(f', r')[0] == f';
      assert SquareId(f, r)[1] == r && SquareId(f', r')[1] == r';
    }
  }

  /** ChessConnection: a from-square, a to-square and a weight. */
  datatype ChessConnection = ChessConnection(fromSquare: string, toSquare: string, weight: int)
  {
    function FromFile(): char requires |fromSquare| >= 1 { fromSquare[0] }
    function FromRank(): char requires |fromSquare| >= 2 { fromSquare[1] }
    function ToFile(): char requires |toSquare| >= 1 { toSquare[0] }
    function ToRank(): char requires |toSquare| >= 2 { toSquare[1] }

    /** The source's equality: the two squares agree; the weight is not compared. */
    predicate Same(other: ChessConnection)
    {
      fromSquare == other.fromSquare && toSquare == other.toSquare
    }
  }

  /** The constructor of ChessConnection, which joins file and rank into a square. */
  function Connect(fromFile: char, fromRank: char, toFile: char, toRank: char, weight: int): ChessConnection
  {
    ChessConnection(SquareId(fromFile, fromRank), SquareId(toFile, toRank), weight)
  }

  /** The getters give back the four characters a connection was built from. */
  lemma ConnectRoundTrip(fromFile: char, fromRank: char, toFile: char, toRank: char, weight: int)
    ensures var c := Connect(fromFile, fromRank, toFile, toRank, weight);
            c.FromFile() == fromFile && c.FromRank() == fromRank && c.ToFile() == toFile && c.ToRank() == toRank
            && c.weight == weight
  {
  }

  /** ChessNode: a square; two nodes are equal when file and rank are. */
  datatype ChessNode = ChessNode(file: char, rank: char)
  {
    function Id(): string { SquareId(file, rank) }
  }

  /** Two nodes have the same id exactly when they are the same node. */
  lemma IdInjective(a: ChessNode, b: ChessNode)
    ensures a.Id() == b.Id() <==> a == b
  {
    SquareIdInjective(a.file, a.rank, b.file, b.rank);
  }

  /** The nodes createGraph adds, files outermost: a1, a2, ..., a8, b1, ..., h8. */
  function SquareNodes(): (ns: seq<ChessNode>)
    ensures |ns| == 64
  {
    seq(64, k requires 0 <= k < 64 => ChessNode(FileNames[k / 8], RankNames[k % 8]))
  }

  lemma FileNamesAt(i: nat)
    requires i < 8
    ensures FileNames[i] as int == 'a' as int + i
  {
  }

  lemma RankNamesAt(i: nat)
    requires i < 8
    ensures RankNames[i] as int == '1' as int + i
  {
  }

  /** Node k of the list is the square with file index k / 8 and rank index k % 8. */
  lemma SquareNodeAt(k: nat)
    requires k < 64
    ensures SquareNodes()[k].file as int == 'a' as int + k / 8
    ensures SquareNodes()[k].rank as int == '1' as int + k % 8
  {
    FileNamesAt(k / 8);
    RankNamesAt(k % 8);
  }

  /** The 64 nodes are pairwise different. */
  lemma SquareNodesDistinct()
    ensures NoDuplicates(SquareNodes())
  {
    forall i, j | 0 <= i < j < 64
      ensures Differ(SquareNodes(), i, j)
    {
      SquareNodeAt(i);
      SquareNodeAt(j);
    }
  }

  /** A node is among the 64 exactly when it names a square of the board. */
  lemma SquareNodesCover(n: ChessNode)
    ensures n in SquareNodes() <==> IsSquare(n.file, n.rank)
  {
    if IsSquare(n.file, n.rank) {
      var k := (n.file as int - 'a' as int) * 8 + (n.rank as int - '1' as int);
      SquareNodeAt(k);
      assert SquareNodes()[k] == n;
    }
    if n in SquareNodes() {
      var k :| 0 <= k < 64 && SquareNodes()[k] == n;
      SquareNodeAt(k);
    }
  }

  /** The graph's two fields as a value: the node list and the table of connections per square id. */
  datatype GraphState = GraphState(nodes: seq<ChessNode>, connections: map<string, seq<ChessConnection>>)

  const EmptyGraph := GraphState([], map[])

  function Ids(ns: seq<ChessNode>): set<string>
  {
    set n | n in ns :: n.Id()
  }

  /** No two connections of a list are equal in the source's sense. */
  predicate NoRepeats(l: seq<ChessConnection>)
  {
    forall i, j :: 0 <= i < j < |l| ==> !l[i].Same(l[j])
  }

  /** A list stored under key k: each connection leaves k, has weight 1, and none repeats. */
  predicate ListUnder(k: string, l: seq<ChessConnection>)
  {
    (forall j :: 0 <= j < |l| ==> l[j].fromSquare == k && l[j].weight == 1) && NoRepeats(l)
  }

  /**
   * The invariant of the graph: distinct nodes, one table entry per node id,
   * and every list well formed under its key.
   */
  predicate WellFormed(s: GraphState)
  {
    NoDuplicates(s.nodes) && s.connections.Keys == Ids(s.nodes)
    && forall k :: k in s.connections ==> ListUnder(k, s.connections[k])
  }

  /** Some connection of the list leads to square id b. */
  predicate ToAmong(l: seq<ChessConnection>, b: string)
  {
    exists j :: 0 <= j < |l| && l[j].toSquare == b
  }

  /** There is a connection from square id a to square id b. */
  predicate HasEdge(s: GraphState, a: string, b: string)
  {
    a in s.connections && ToAmong(s.connections[a], b)
  }

  /** addNode: a node not yet present is appended and gets an empty list; a present one changes nothing. */
  function NodeAdded(s: GraphState, node: ChessNode): (r: GraphState)
  {
    if node in s.nodes then s
    else GraphState(s.nodes + [node], s.connections[node.Id() := []])
  }

  /** addNode keeps the invariant, makes the node present, and keeps the earlier nodes and their lists. */
  lemma NodeAddedWellFormed(s: GraphState, node: ChessNode)
    requires WellFormed(s)
    ensures WellFormed(NodeAdded(s, node))
    ensures node in NodeAdded(s, node).nodes
    ensures NodeAdded(s, node).nodes[..|s.nodes|] == s.nodes
    ensures forall k :: k in s.connections ==> k in NodeAdded(s, node).connections
                                               && NodeAdded(s, node).connections[k] == s.connections[k]
  {
    if node !in s.nodes {
      var r := NodeAdded(s, node);
      forall n | n in s.nodes ensures n.Id() != node.Id() {
        IdInjective(n, node);
      }
      assert node.Id() !in s.connections;
      forall i, j | 0 <= i < j < |r.nodes| ensures Differ(r.nodes, i, j) {
        if j < |s.nodes| {
          assert Differ(s.nodes, i, j);
        }
      }
      assert r.nodes[..|s.nodes|] == s.nodes;
      assert Ids(r.nodes) == Ids(s.nodes) + {node.Id()};
    }
  }

  /** The node loop of createGraph: addNode for each node of ns in turn. */
  function NodesAdded(s: GraphState, ns: seq<ChessNode>): (r: GraphState)
  {
    if |ns| == 0 then s else NodeAdded(NodesAdded(s, ns[..|ns| - 1]), ns[|ns| - 1])
  }

  lemma NodesAddedStep(s: GraphState, ns: seq<ChessNode>, k: nat)
    requires k < |ns|
    ensures NodesAdded(s, ns[..k + 1]) == NodeAdded(NodesAdded(s, ns[..k]), ns[k])
  {
    assert ns[..k + 1][..k] == ns[..k];
  }

  /** From an empty graph, distinct nodes are all appended in order, each with an empty list. */
  lemma {:induction false} NodesAddedToEmpty(ns: seq<ChessNode>)
    requires NoDuplicates(ns)
    ensures NodesAdded(EmptyGraph, ns).nodes == ns
    ensures NodesAdded(EmptyGraph, ns).connections.Keys == Ids(ns)
    ensures forall k :: k in NodesAdded(EmptyGraph, ns).connections ==> NodesAdded(EmptyGraph, ns).connections[k] == []
  {
    if |ns| > 0 {
      var p, x := ns[..|ns| - 1], ns[|ns| - 1];
      NoDuplicatesInit(ns);
      NodesAddedToEmpty(p);
      var s := NodesAdded(EmptyGraph, p);
      assert NodesAdded(EmptyGraph, ns) == GraphState(s.nodes + [x], s.connections[x.Id() := []]);
      assert p + [x] == ns;
      assert Ids(ns) == Ids(p) + {x.Id()};
    }
  }

  /** Every square of the board has an entry in the table. */
  predicate Covers(s: GraphState)
  {
    forall f, r :: IsSquare(f, r) ==> SquareId(f, r) in s.connections
  }

  /** The node loop keeps the invariant and leaves every node of ns present. */
  lemma {:induction false} NodesAddedWellFormed(s: GraphState, ns: seq<ChessNode>)
    requires WellFormed(s)
    ensures WellFormed(NodesAdded(s, ns))
    ensures forall n :: n in ns ==> n in NodesAdded(s, ns).nodes
  {
    if |ns| > 0 {
      var p := ns[..|ns| - 1];
      NodesAddedWellFormed(s, p);
      NodeAddedWellFormed(NodesAdded(s, p), ns[|ns| - 1]);
      forall n | n in ns ensures n in NodesAdded(s, ns).nodes {
        if n != ns[|ns| - 1] {
          var i :| 0 <= i < |ns| && ns[i] == n;
          assert n in p by { assert p[i] == n; }
          var q := NodesAdded(s, p).nodes;
          var k :| 0 <= k < |q| && q[k] == n;
          assert NodesAdded(s, ns).nodes[..|q|][k] == n;
        }
      }
    }
  }

  /** After the node loop over the 64 squares, every square has an entry. */
  lemma SquaresCovered(s: GraphState)
    requires WellFormed(s)
    ensures WellFormed(NodesAdded(s, SquareNodes())) && Covers(NodesAdded(s, SquareNodes()))
  {
    NodesAddedWellFormed(s, SquareNodes());
    var t := NodesAdded(s, SquareNodes());
    forall f, r | IsSquare(f, r) ensures SquareId(f, r) in t.connections {
      SquareNodesCover(ChessNode(f, r));
      assert ChessNode(f, r).Id() in Ids(t.nodes);
    }
  }

  /** The source's `connection in list`: some element is equal in the source's sense. */
  predicate Listed(l: seq<ChessConnection>, c: ChessConnection)
  {
    exists j :: 0 <= j < |l| && l[j].Same(c)
  }

  /** The list of addConnection after it saw c: appended unless an equal connection is listed. */
  function ListAdded(l: seq<ChessConnection>, c: ChessConnection): (r: seq<ChessConnection>)
  {
    if Listed(l, c) then l else l + [c]
  }

  /** The list keeps what it had, and gains c's target exactly when it lacked it. */
  lemma ListAddedTargets(l: seq<ChessConnection>, c: ChessConnection, b: string)
    ensures ToAmong(ListAdded(l, c), b) <==> ToAmong(l, b) || b == c.toSquare
  {
    if Listed(l, c) {
      var j :| 0 <= j < |l| && l[j].Same(c);
      assert l[j].toSquare == c.toSquare;
    } else {
      var r := l + [c];
      assert r[|l|].toSquare == c.toSquare;
      if ToAmong(r, b) {
        var j :| 0 <= j < |r| && r[j].toSquare == b;
        if j < |l| { assert l[j].toSquare == b; }
      }
      if ToAmong(l, b) {
        var j :| 0 <= j < |l| && l[j].toSquare == b;
        assert r[j].toSquare == b;
      }
    }
  }

  /** Appending to a well-formed list under k a connection that leaves k with weight 1 keeps it well formed. */
  lemma ListAddedUnder(k: string, l: seq<ChessConnection>, c: ChessConnection)
    requires ListUnder(k, l) && c.fromSquare == k && c.weight == 1
    ensures ListUnder(k, ListAdded(l, c))
  {
    if !Listed(l, c) {
      var r := l + [c];
      forall i, j | 0 <= i < j < |r| ensures !r[i].Same(r[j]) {
        if j == |l| {
          assert r[i] == l[i];
        }
      }
    }
  }

  /** addConnection: the connection is appended to its source square's list unless an equal one is there. */
  function ConnectionAdded(s: GraphState, c: ChessConnection): (r: GraphState)
    requires c.fromSquare in s.connections
  {
    s.(connections := s.connections[c.fromSquare := ListAdded(s.connections[c.fromSquare], c)])
  }

  /** addConnection keeps the invariant when the connection has weight 1. */
  lemma ConnectionAddedWellFormed(s: GraphState, c: ChessConnection)
    requires WellFormed(s) && c.fromSquare in s.connections && c.weight == 1
    ensures WellFormed(ConnectionAdded(s, c))
  {
    ListAddedUnder(c.fromSquare, s.connections[c.fromSquare], c);
  }

  /** After addConnection there is an edge a to b exactly when there was one or c is it. */
  lemma ConnectionAddedEdges(s: GraphState, c: ChessConnection, a: string, b: string)
    requires c.fromSquare in s.connections
    ensures HasEdge(ConnectionAdded(s, c), a, b) <==> HasEdge(s, a, b) || (a == c.fromSquare && b == c.toSquare)
  {
    ListAddedTargets(s.connections[c.fromSquare], c, b);
  }

  /** The inner loop of createGraph on the list under (f, r): one connection per entry of v, the first n of them. */
  function SightList(l: seq<ChessConnection>, f: char, r: char, v: seq<Sight>, n: nat): (t: seq<ChessConnection>)
    requires n <= |v|
    ensures ListUnder(SquareId(f, r), l) ==> ListUnder(SquareId(f, r), t)
  {
    if n == 0 then l
    else
      var t := SightList(l, f, r, v, n - 1);
      var c := Connect(f, r, v[n - 1].file, v[n - 1].rank, 1);
      if ListUnder(SquareId(f, r), l) then ListAddedUnder(SquareId(f, r), t, c); ListAdded(t, c)
      else ListAdded(t, c)
  }

  /** Some entry among the first n of v is the square with id b. */
  predicate SightAmong(v: seq<Sight>, n: nat, b: string)
    requires n <= |v|
  {
    exists j :: 0 <= j < n && b == SquareId(v[j].file, v[j].rank)
  }

  lemma SightAmongStep(v: seq<Sight>, n: nat, b: string)
    requires n < |v|
    ensures SightAmong(v, n + 1, b) <==> SightAmong(v, n, b) || b == SquareId(v[n].file, v[n].rank)
  {
    if SightAmong(v, n + 1, b) && b != SquareId(v[n].file, v[n].rank) {
      var j :| 0 <= j < n + 1 && b == SquareId(v[j].file, v[j].rank);
      assert j < n;
    }
  }

  /** The inner loop adds to the list exactly the squares of the vision as targets. */
  lemma {:induction false} SightListTargets(l: seq<ChessConnection>, f: char, r: char, v: seq<Sight>, n: nat, b: string)
    requires n <= |v|
    ensures ToAmong(SightList(l, f, r, v, n), b) <==> ToAmong(l, b) || SightAmong(v, n, b)
  {
    if n > 0 {
      SightListTargets(l, f, r, v, n - 1, b);
      ListAddedTargets(SightList(l, f, r, v, n - 1), Connect(f, r, v[n - 1].file, v[n - 1].rank, 1), b);
      SightAmongStep(v, n - 1, b);
    }
  }

  /** The inner loop of createGraph for a piece on (f, r) with vision v. */
  function SightsAdded(s: GraphState, f: char, r: char, v: seq<Sight>): (t: GraphState)
    requires SquareId(f, r) in s.connections
    ensures t.nodes == s.nodes && t.connections.Keys == s.connections.Keys
  {
    var k := SquareId(f, r);
    s.(connections := s.connections[k := SightList(s.connections[k], f, r, v, |v|)])
  }

  /** The inner loop keeps the invariant. */
  lemma SightsAddedWellFormed(s: GraphState, f: char, r: char, v: seq<Sight>)
    requires WellFormed(s) && SquareId(f, r) in s.connections
    ensures WellFormed(SightsAdded(s, f, r, v))
  {
    assert ListUnder(SquareId(f, r), s.connections[SquareId(f, r)]);
  }

  /** The inner loop adds exactly the edges from (f, r) to the squares of the vision. */
  lemma SightsAddedEdges(s: GraphState, f: char, r: char, v: seq<Sight>, a: string, b: string)
    requires SquareId(f, r) in s.connections
    ensures HasEdge(SightsAdded(s, f, r, v), a, b) <==> HasEdge(s, a, b) || (a == SquareId(f, r) && SightAmong(v, |v|, b))
  {
    SightListTargets(s.connections[SquareId(f, r)], f, r, v, |v|, b);
  }

  /** With a colour filter only pieces of that colour contribute; without one every piece does. */
  predicate Contributes(filterColor: bool, color: PieceColor, p: PieceState)
  {
    !filterColor || p.pieceColor == color
  }

  /** The vision of each piece of the position, as getPieceBoardVision computes it from the piece's fields. */
  function Visions(pos: seq<PieceState>): (vs: seq<seq<Sight>>)
    requires AllOnBoard(pos)
    ensures |vs| == |pos|
  {
    seq(|pos|, i requires 0 <= i < |pos| =>
      assert OnBoard(pos[i]);
      Vision(pos, pos[i].pieceType, pos[i].file, pos[i].rank, pos[i].moveCounter, pos[i].pieceColor))
  }

  /** Entry i of the visions is what getPieceBoardVision gives for the fields of piece i. */
  lemma VisionsAt(pos: seq<PieceState>, i: nat, t: PieceType, f: char, r: char, moveCounter: nat, c: PieceColor)
    requires AllOnBoard(pos) && i < |pos| && pos[i] == PieceState(t, c, f, r, moveCounter)
    ensures IsSquare(f, r) && Visions(pos)[i] == Vision(pos, t, f, r, moveCounter, c)
  {
    assert OnBoard(pos[i]);
  }

  /** The piece loop of createGraph over the first n pieces, piece i seeing the squares vs[i]. */
  function PiecesAdded(s: GraphState, pos: seq<PieceState>, vs: seq<seq<Sight>>, filterColor: bool, color: PieceColor,
                       n: nat): (t: GraphState)
    requires AllOnBoard(pos) && Covers(s) && |vs| == |pos| && n <= |pos|
    ensures t.nodes == s.nodes && t.connections.Keys == s.connections.Keys
  {
    if n == 0 then s
    else
      var t := PiecesAdded(s, pos, vs, filterColor, color, n - 1);
      var p := pos[n - 1];
      if Contributes(filterColor, color, p) then SightsAdded(t, p.file, p.rank, vs[n - 1]) else t
  }

  lemma PiecesAddedStep(s: GraphState, pos: seq<PieceState>, vs: seq<seq<Sight>>, filterColor: bool, color: PieceColor,
                        n: nat)
    requires AllOnBoard(pos) && Covers(s) && |vs| == |pos| && n < |pos|
    ensures PiecesAdded(s, pos, vs, filterColor, color, n + 1) ==
            if Contributes(filterColor, color, pos[n])
            then SightsAdded(PiecesAdded(s, pos, vs, filterColor, color, n), pos[n].file, pos[n].rank, vs[n])
            else PiecesAdded(s, pos, vs, filterColor, color, n)
  {
  }

  /** The piece loop keeps the invariant. */
  lemma {:induction false} PiecesAddedWellFormed(s: GraphState, pos: seq<PieceState>, vs: seq<seq<Sight>>,
                                                  filterColor: bool, color: PieceColor, n: nat)
    requires WellFormed(s) && AllOnBoard(pos) && Covers(s) && |vs| == |pos| && n <= |pos|
    ensures WellFormed(PiecesAdded(s, pos, vs, filterColor, color, n))
  {
    if n > 0 {
      PiecesAddedWellFormed(s, pos, vs, filterColor, color, n - 1);
      var p := pos[n - 1];
      if Contributes(filterColor, color, p) {
        assert OnBoard(p);
        SightsAddedWellFormed(PiecesAdded(s, pos, vs, filterColor, color, n - 1), p.file, p.rank, vs[n - 1]);
      }
    }
  }

  /** Piece i stands on square id a and sees, by vs[i], the square with id b. */
  predicate PieceSees(pos: seq<PieceState>, vs: seq<seq<Sight>>, i: nat, a: string, b: string)
    requires i < |pos| == |vs|
  {
    a == SquareId(pos[i].file, pos[i].rank) && SightAmong(vs[i], |vs[i]|, b)
  }

  /** Some contributing piece among the first n stands on a and sees b. */
  predicate SomePieceSees(pos: seq<PieceState>, vs: seq<seq<Sight>>, filterColor: bool, color: PieceColor, n: nat,
                          a: string, b: string)
    requires n <= |pos| == |vs|
  {
    exists i :: 0 <= i < n && Contributes(filterColor, color, pos[i]) && PieceSees(pos, vs, i, a, b)
  }

  lemma SomePieceSeesStep(pos: seq<PieceState>, vs: seq<seq<Sight>>, filterColor: bool, color: PieceColor, n: nat,
                          a: string, b: string)
    requires n < |pos| == |vs|
    ensures SomePieceSees(pos, vs, filterColor, color, n + 1, a, b) <==>
            SomePieceSees(pos, vs, filterColor, color, n, a, b)
            || (Contributes(filterColor, color, pos[n]) && PieceSees(pos, vs, n, a, b))
  {
    if SomePieceSees(pos, vs, filterColor, color, n + 1, a, b)
       && !(Contributes(filterColor, color, pos[n]) && PieceSees(pos, vs, n, a, b)) {
      var i :| 0 <= i < n + 1 && Contributes(filterColor, color, pos[i]) && PieceSees(pos, vs, i, a, b);
      assert i < n;
    }
  }

  /** The piece loop adds exactly the edges from contributing pieces to the squares they see. */
  lemma {:induction false} PiecesAddedEdges(s: GraphState, pos: seq<PieceState>, vs: seq<seq<Sight>>, filterColor: bool,
                                             color: PieceColor, n: nat, a: string, b: string)
    requires AllOnBoard(pos) && Covers(s) && |vs| == |pos| && n <= |pos|
    ensures HasEdge(PiecesAdded(s, pos, vs, filterColor, color, n), a, b) <==>
            HasEdge(s, a, b) || SomePieceSees(pos, vs, filterColor, color, n, a, b)
  {
    if n > 0 {
      PiecesAddedEdges(s, pos, vs, filterColor, color, n - 1, a, b);
      SomePieceSeesStep(pos, vs, filterColor, color, n - 1, a, b);
      PieceAddedEdges(PiecesAdded(s, pos, vs, filterColor, color, n - 1), pos, vs, filterColor, color, n - 1, a, b);
    }
  }

  /** One round of the piece loop: piece i adds its edges when it contributes. */
  lemma PieceAddedEdges(t: GraphState, pos: seq<PieceState>, vs: seq<seq<Sight>>, filterColor: bool, color: PieceColor,
                        i: nat, a: string, b: string)
    requires AllOnBoard(pos) && Covers(t) && |vs| == |pos| && i < |pos|
    ensures var t' := if Contributes(filterColor, color, pos[i]) then SightsAdded(t, pos[i].file, pos[i].rank, vs[i]) else t;
            HasEdge(t', a, b) <==> HasEdge(t, a, b) || (Contributes(filterColor, color, pos[i]) && PieceSees(pos, vs, i, a, b))
  {
    if Contributes(filterColor, color, pos[i]) {
      assert OnBoard(pos[i]);
      SightsAddedEdges(t, pos[i].file, pos[i].rank, vs[i], a, b);
    }
  }

  /** createGraph on a graph in state s: the 64 square nodes, then the connections of the contributing pieces. */
  function Built(s: GraphState, pos: seq<PieceState>, filterColor: bool, color: PieceColor): (t: GraphState)
    requires WellFormed(s) && AllOnBoard(pos)
    ensures WellFormed(t)
  {
    SquaresCovered(s);
    PiecesAddedWellFormed(NodesAdded(s, SquareNodes()), pos, Visions(pos), filterColor, color, |pos|);
    PiecesAdded(NodesAdded(s, SquareNodes()), pos, Visions(pos), filterColor, color, |pos|)
  }

  /** A new graph: the 64 square nodes in order, an entry for each, and the invariant. */
  lemma BuiltFromEmpty(pos: seq<PieceState>, filterColor: bool, color: PieceColor)
    requires AllOnBoard(pos)
    ensures Built(EmptyGraph, pos, filterColor, color).nodes == SquareNodes()
    ensures Built(EmptyGraph, pos, filterColor, color).connections.Keys == Ids(SquareNodes())
  {
    SquareNodesDistinct();
    NodesAddedToEmpty(SquareNodes());
  }

  /**
   * A new graph has an edge from a to b exactly when a contributing piece
   * (of the given colour under the filter, any piece otherwise) stands on a
   * and has b in its vision.
   */
  lemma BuiltEdges(pos: seq<PieceState>, filterColor: bool, color: PieceColor, a: string, b: string)
    requires AllOnBoard(pos)
    ensures HasEdge(Built(EmptyGraph, pos, filterColor, color), a, b) <==>
            SomePieceSees(pos, Visions(pos), filterColor, color, |pos|, a, b)
  {
    SquareNodesDistinct();
    NodesAddedToEmpty(SquareNodes());
    var s1 := NodesAdded(EmptyGraph, SquareNodes());
    SquaresCovered(EmptyGraph);
    PiecesAddedEdges(s1, pos, Visions(pos), filterColor, color, |pos|, a, b);
    assert !HasEdge(s1, a, b) by {
      if a in s1.connections {
        assert s1.connections[a] == [];
      }
    }
  }

  /** The connections of the first n nodes, concatenated in node order. */
  function AllConnections(s: GraphState, n: nat): seq<ChessConnection>
    requires Ids(s.nodes) <= s.connections.Keys && n <= |s.nodes|
  {
    if n == 0 then []
    else
      assert s.nodes[n - 1] in s.nodes;
      AllConnections(s, n - 1) + s.connections[s.nodes[n - 1].Id()]
  }

  /** The number of connections leaving the first n nodes. */
  function TotalDegree(s: GraphState, n: nat): nat
    requires Ids(s.nodes) <= s.connections.Keys && n <= |s.nodes|
  {
    if n == 0 then 0
    else
      assert s.nodes[n - 1] in s.nodes;
      TotalDegree(s, n - 1) + |s.connections[s.nodes[n - 1].Id()]|
  }

  /** The concatenation is as long as the node degrees add up to. */
  lemma {:induction false} AllConnectionsLength(s: GraphState, n: nat)
    requires Ids(s.nodes) <= s.connections.Keys && n <= |s.nodes|
    ensures |AllConnections(s, n)| == TotalDegree(s, n)
  {
    if n > 0 {
      AllConnectionsLength(s, n - 1);
    }
  }

  /** A connection is in the concatenation exactly when it is in the list of one of the first n nodes. */
  lemma {:induction false} AllConnectionsMembers(s: GraphState, n: nat, c: ChessConnection)
    requires Ids(s.nodes) <= s.connections.Keys && n <= |s.nodes|
    ensures c in AllConnections(s, n) <==> exists i :: 0 <= i < n && s.nodes[i].Id() in s.connections
                                                     && c in s.connections[s.nodes[i].Id()]
  {
    if n > 0 {
      AllConnectionsMembers(s, n - 1, c);
      assert s.nodes[n - 1] in s.nodes;
      if c in s.connections[s.nodes[n - 1].Id()] {
        assert c in AllConnections(s, n);
      }
    }
  }

  /**
   * ChessGraph: the node list and the table of connections per square id,
   * built on construction from the board's pieces.
   */
  class ChessGraph {
    const board: ChessBoard
    var nodes: seq<ChessNode>
    var connections: map<string, seq<ChessConnection>>

    ghost function State(): GraphState
      reads `nodes, `connections
    {
      GraphState(nodes, connections)
    }

    /** The graph of the board: all 64 squares, and the connections of the pieces the filter admits. */
    constructor(board: ChessBoard, filterColor: bool, color: PieceColor)
      requires board.Valid()
      ensures this.board == board && WellFormed(State())
      ensures State() == Built(EmptyGraph, board.Snapshot(), filterColor, color)
    {
      this.board := board;
      nodes := [];
      connections := map[];
      new;
      CreateGraph(filterColor, color);
    }

    /** createGraph: a node per square, files outermost, then the connections of the contributing pieces. */
    method CreateGraph(filterColor: bool, color: PieceColor)
      requires board.Valid() && WellFormed(State())
      modifies `nodes, `connections
      ensures WellFormed(State()) && State() == Built(old(State()), board.Snapshot(), filterColor, color)
    {
      ghost var s0 := State();
      ghost var pos := board.Snapshot();
      AddSquareNodes();
      SquaresCovered(s0);
      AddPieceConnections(pos, filterColor, color);
      assert State() == Built(s0, pos, filterColor, color);
      assert board.Snapshot() == pos;
    }

    /** The node loops of createGraph: addNode for a1, a2, ..., h8. */
    method AddSquareNodes()
      requires WellFormed(State())
      modifies `nodes, `connections
      ensures WellFormed(State()) && State() == NodesAdded(old(State()), SquareNodes())
    {
      ghost var s0 := State();
      var fileNames := FileNames;
      var rankNames := RankNames;
      for i := 0 to |fileNames|
        invariant WellFormed(State()) && State() == NodesAdded(s0, SquareNodes()[..8 * i])
      {
        for j := 0 to |rankNames|
          invariant WellFormed(State()) && State() == NodesAdded(s0, SquareNodes()[..8 * i + j])
        {
          var node := ChessNode(fileNames[i], rankNames[j]);
          assert node == SquareNodes()[8 * i + j] by {
            assert (8 * i + j) / 8 == i && (8 * i + j) % 8 == j;
          }
          NodesAddedStep(s0, SquareNodes(), 8 * i + j);
          NodeAddedWellFormed(State(), node);
          AddNode(node);
        }
      }
      assert SquareNodes()[..64] == SquareNodes();
    }

    /** The piece loop of createGraph: the connections of every piece the filter admits. */
    method AddPieceConnections(ghost pos: seq<PieceState>, filterColor: bool, color: PieceColor)
      requires pos == board.Snapshot() && AllOnBoard(pos) && WellFormed(State()) && Covers(State())
      modifies `connections
      ensures WellFormed(State()) && State() == PiecesAdded(old(State()), pos, Visions(pos), filterColor, color, |pos|)
    {
      ghost var s1 := State();
      ghost var vs := Visions(pos);
      var pieces := board.pieces;
      var nPieces := |pieces|;
      for i := 0 to nPieces
        invariant WellFormed(State()) && State() == PiecesAdded(s1, pos, vs, filterColor, color, i)
      {
        AddPieceAt(s1, pos, vs, pieces[i], i, filterColor, color);
      }
    }

    /** One round of the piece loop of createGraph: the connections of piece i when the filter admits it. */
    method AddPieceAt(ghost s1: GraphState, ghost pos: seq<PieceState>, ghost vs: seq<seq<Sight>>, piece: ChessPiece,
                      i: nat, filterColor: bool, color: PieceColor)
      requires pos == board.Snapshot() && AllOnBoard(pos) && vs == Visions(pos) && Covers(s1)
      requires i < |pos| && piece == board.pieces[i]
      requires WellFormed(State()) && State() == PiecesAdded(s1, pos, vs, filterColor, color, i)
      modifies `connections
      ensures WellFormed(State()) && State() == PiecesAdded(s1, pos, vs, filterColor, color, i + 1)
    {
      assert piece.State() == pos[i] && OnBoard(pos[i]);
      PiecesAddedStep(s1, pos, vs, filterColor, color, i);
      if !filterColor || piece.pieceColor == color {
        var file, rank := piece.file, piece.rank;
        var v := board.GetPieceBoardVision(piece.pieceType, file, rank, piece.moveCounter, piece.pieceColor);
        VisionsAt(pos, i, piece.pieceType, file, rank, piece.moveCounter, piece.pieceColor);
        assert (file, rank, v) == (pos[i].file, pos[i].rank, vs[i]);
        AddSights(file, rank, v);
      }
    }

    /** The inner loop of createGraph: a connection from (f, r) to each square of the vision v. */
    method AddSights(f: char, r: char, v: seq<Sight>)
      requires WellFormed(State()) && SquareId(f, r) in connections
      modifies `connections
      ensures WellFormed(State()) && State() == SightsAdded(old(State()), f, r, v)
    {
      ghost var t := State();
      ghost var k := SquareId(f, r);
      SightsAddedWellFormed(t, f, r, v);
      for j := 0 to |v|
        invariant State() == t.(connections := t.connections[k := SightList(t.connections[k], f, r, v, j)])
      {
        AddConnection(f, r, v[j].file, v[j].rank);
      }
    }

    /** addNode: append the node and give it an empty list, unless an equal node is present. */
    method AddNode(node: ChessNode)
      modifies `nodes, `connections
      ensures State() == NodeAdded(old(State()), node)
    {
      if node !in nodes {
        nodes := nodes + [node];
        connections := connections[node.Id() := []];
      }
    }

    /** getNodeById: the node on the square named by the id's first two characters, None for the source's -1. */
    method GetNodeById(nodeId: string) returns (r: Option<ChessNode>)
      requires |nodeId| >= 2
      ensures r == if ChessNode(nodeId[0], nodeId[1]) in nodes then Some(ChessNode(nodeId[0], nodeId[1])) else None
    {
      var file := nodeId[0];
      var rank := nodeId[1];
      var nNodes := |nodes|;
      r := None;
      var i := 0;
      while i < nNodes && r.None?
        invariant 0 <= i <= nNodes
        invariant r.None? ==> forall k :: 0 <= k < i ==> nodes[k] != ChessNode(file, rank)
        invariant r.Some? ==> r == Some(ChessNode(file, rank)) && ChessNode(file, rank) in nodes
      {
        var node := nodes[i];
        if file == node.file && rank == node.rank {
          r := Some(node);
        }
        i := i + 1;
      }
    }

    /** addConnection: a weight-1 connection appended to its source's list unless an equal one is listed. */
    method AddConnection(fromFile: char, fromRank: char, toFile: char, toRank: char)
      requires SquareId(fromFile, fromRank) in connections
      modifies `connections
      ensures State() == ConnectionAdded(old(State()), Connect(fromFile, fromRank, toFile, toRank, 1))
    {
      var nodeId := SquareId(fromFile, fromRank);
      var connection := Connect(fromFile, fromRank, toFile, toRank, 1);
      if !Listed(connections[nodeId], connection) {
        connections := connections[nodeId := connections[nodeId] + [connection]];
      }
    }

    /** getAllConnections: every node's list, concatenated in node order. */
    method GetAllConnections() returns (all: seq<ChessConnection>)
      requires Ids(nodes) <= connections.Keys
      ensures all == AllConnections(State(), |nodes|)
    {
      var nNodes := |nodes|;
      all := [];
      for i := 0 to nNodes
        invariant all == AllConnections(State(), i)
      {
        var node := nodes[i];
        var nodeId := node.Id();
        assert node in nodes;
        all := all + connections[nodeId];
      }
    }
  }
}
