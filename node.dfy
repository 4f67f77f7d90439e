/**
 * `Node` and `Ground` of the current engine (sccircuitbuilder/node.py):
 * creation, `drop` onto another node, `split` into one node per element,
 * `delete` and `NodeMemento`.
 *
 * Each operation is specified by a function on the `Graph` value and
 * implemented on a `Circuit` with the source's loops. Redirecting a
 * connection uses the corrected `change_dest` (`ChangeDestOnPath`); the
 * as-written one is `Connections.ChangeDestConn`.
 */
module Nodes {
  import opened Geometry
  import opened Lists
  import opened Records
  import opened Circuits
  import opened Connections

  /** `NodeMemento`: index, position and quarter turns of a node or ground. */
  datatype NodeMemento = NodeMemento(idx: int, loc: Point, rot: int)

  /** A point on the grid: both coordinates multiples of SPACING. */
  predicate OnGrid(p: Point)
  {
    p.x % SPACING == 0 && p.y % SPACING == 0
  }

  /** Snapping always lands on the grid. */
  lemma SnapPointOnGrid(p: Point)
    ensures OnGrid(SnapPoint(p))
  {
    SnapIsNearest(p.x, 0);
    SnapIsNearest(p.y, 0);
  }

  /** Snapping a point already on the grid leaves it in place. */
  lemma OnGridFixed(p: Point)
    requires OnGrid(p)
    ensures SnapPoint(p) == p
  {
    GridIndexOfMultiple(p.x / SPACING);
    GridIndexOfMultiple(p.y / SPACING);
  }

  // ---------------------------------------------------------------------
  // Creation

  /** `Node.__init__`: a new node record at the snapped point, registered by `add_node`. */
  function NewNodeSpec(g: Graph, p: Point): Graph
  {
    var n := |g.store.nodes|;
    AddNodeSpec(g.(store := g.store.(nodes := g.store.nodes + [NodeRec(false, 0, SnapPoint(p), 0, [], [])])), n)
  }

  /** A new node is a plain node on the grid, last in the list with index N+1; a dense numbering stays dense. */
  lemma NewNodeOk(g: Graph, p: Point)
    requires ListsIn(g) && Kinded(g)
    ensures var r := NewNodeSpec(g, p); var n := |g.store.nodes|;
      ListsIn(r) && Kinded(r) && (Dense(g) ==> Dense(r)) && r.nodes == g.nodes + [n] && r.store.nodes[..n] == g.store.nodes &&
      r.store.nodes[n] == NodeRec(false, |r.nodes|, SnapPoint(p), 0, [], []) && OnGrid(r.store.nodes[n].pos)
  {
    var n := |g.store.nodes|;
    var g0 := g.(store := g.store.(nodes := g.store.nodes + [NodeRec(false, 0, SnapPoint(p), 0, [], [])]));
    assert n !in g.nodes;
    if Dense(g) {
      AddNodeKeepsDense(g0, n);
    }
    SnapPointOnGrid(p);
    var r := NewNodeSpec(g, p);
    assert r.store.nodes[..n] == g.store.nodes;
  }

  /** `Ground.__init__`: a new ground record at the snapped point, registered by `add_ground`; its index stays 0. */
  function NewGroundSpec(g: Graph, p: Point): Graph
  {
    var n := |g.store.nodes|;
    g.(grounds := g.grounds + [n], store := g.store.(nodes := g.store.nodes + [NodeRec(true, 0, SnapPoint(p), 0, [], [])]))
  }

  /** A new ground is on the grid with index 0, last among the grounds; the node list and its numbering are untouched. */
  lemma NewGroundOk(g: Graph, p: Point)
    requires ListsIn(g) && Kinded(g)
    ensures var r := NewGroundSpec(g, p); var n := |g.store.nodes|;
      ListsIn(r) && Kinded(r) && (Dense(g) ==> Dense(r)) && r.nodes == g.nodes && r.grounds == g.grounds + [n] &&
      r.store.nodes[n].ground && r.store.nodes[n].idx == 0 && OnGrid(r.store.nodes[n].pos)
  {
    SnapPointOnGrid(p);
  }

  /** `Node.__init__` on a circuit. */
  method NewNode(circ: Circuit, p: Point) returns (n: nat)
    requires circ.Valid()
    modifies circ, circ.heap
    ensures n == old(|circ.heap.nodes|)
    ensures circ.Valid() && circ.State() == NewNodeSpec(old(circ.State()), p)
  {
    n := |circ.heap.nodes|;
    circ.heap.nodes := circ.heap.nodes + [NodeRec(false, 0, SnapPoint(p), 0, [], [])];
    circ.AddNode(n);
  }

  /** `Ground.__init__` on a circuit. */
  method NewGround(circ: Circuit, p: Point) returns (n: nat)
    requires circ.Valid()
    modifies circ, circ.heap
    ensures n == old(|circ.heap.nodes|)
    ensures circ.Valid() && circ.State() == NewGroundSpec(old(circ.State()), p)
  {
    n := |circ.heap.nodes|;
    circ.heap.nodes := circ.heap.nodes + [NodeRec(true, 0, SnapPoint(p), 0, [], [])];
    circ.AddGround(n);
  }

  // ---------------------------------------------------------------------
  // drop

  /** The connections and elements node n lists are records of the store. */
  predicate NodeLinksIn(st: Store, n: nat)
    requires n < |st.nodes|
  {
    (forall i :: 0 <= i < |st.nodes[n].connections| ==> st.nodes[n].connections[i] < |st.conns|) &&
    (forall i :: 0 <= i < |st.nodes[n].elements| ==> st.nodes[n].elements[i] < |st.elems|)
  }

  /** `for conn in cs: conn.change_dest(o)`, with the corrected `change_dest`. */
  function RedirectEach(conns: seq<ConnRec>, cs: seq<nat>, o: nat): (r: seq<ConnRec>)
    requires forall i :: 0 <= i < |cs| ==> cs[i] < |conns|
    ensures |r| == |conns|
    decreases |cs|
  {
    if cs == [] then conns
    else
      var p := RedirectEach(conns, cs[..|cs| - 1], o);
      p[cs[|cs| - 1] := ChangeDestOnPath(p[cs[|cs| - 1]], o)]
  }

  /** Every listed connection now ends at o and every chained one stays chained; the others are untouched. */
  lemma {:induction false} RedirectEachEffect(conns: seq<ConnRec>, cs: seq<nat>, o: nat)
    requires forall i :: 0 <= i < |cs| ==> cs[i] < |conns|
    ensures var r := RedirectEach(conns, cs, o);
      (forall c :: 0 <= c < |conns| && c !in cs ==> r[c] == conns[c]) &&
      (forall c :: c in cs ==> c < |conns| && r[c].dest == o) &&
      (forall c :: 0 <= c < |conns| ==> r[c].origin == conns[c].origin && r[c].anchors == conns[c].anchors) &&
      (forall c :: 0 <= c < |conns| && Chain(conns[c]) ==> Chain(r[c]))
    decreases |cs|
  {
    if cs != [] {
      var k := |cs| - 1;
      RedirectEachEffect(conns, cs[..k], o);
      RedirectStep(conns, RedirectEach(conns, cs[..k], o), cs, o);
    }
  }

  /** r is conns with the connections of cs redirected to o: see `RedirectEachEffect`. */
  ghost predicate Redirected(conns: seq<ConnRec>, r: seq<ConnRec>, cs: seq<nat>, o: nat)
  {
    |r| == |conns| &&
    (forall c :: 0 <= c < |conns| && c !in cs ==> r[c] == conns[c]) &&
    (forall c :: c in cs ==> c < |conns| && r[c].dest == o) &&
    (forall c :: 0 <= c < |conns| ==> r[c].origin == conns[c].origin && r[c].anchors == conns[c].anchors) &&
    (forall c :: 0 <= c < |conns| && Chain(conns[c]) ==> Chain(r[c]))
  }

  /** Redirecting one more connection extends the redirected list by it. */
  lemma RedirectStep(conns: seq<ConnRec>, p: seq<ConnRec>, cs: seq<nat>, o: nat)
    requires cs != [] && forall i :: 0 <= i < |cs| ==> cs[i] < |conns|
    requires Redirected(conns, p, cs[..|cs| - 1], o)
    ensures Redirected(conns, p[cs[|cs| - 1] := ChangeDestOnPath(p[cs[|cs| - 1]], o)], cs, o)
  {
    var k := |cs| - 1;
    var r := p[cs[k] := ChangeDestOnPath(p[cs[k]], o)];
    forall c | c in cs
      ensures r[c].dest == o
    {
      if c != cs[k] {
        assert c in cs[..k];
      }
    }
    forall c | 0 <= c < |conns| && c !in cs
      ensures r[c] == conns[c]
    {
      assert c !in cs[..k];
    }
    forall c | 0 <= c < |conns| && Chain(conns[c])
      ensures Chain(r[c])
    {
      if c == cs[k] {
        ChangeDestOnPathKeepsChain(p[c], o);
      }
    }
  }

  /** `for elem in es: for i, node in enumerate(elem.nodes): if node == s: elem.nodes[i] = o`. */
  function ReplaceEach(elems: seq<ElementRec>, es: seq<nat>, s: nat, o: nat): (r: seq<ElementRec>)
    requires forall i :: 0 <= i < |es| ==> es[i] < |elems|
    ensures |r| == |elems|
    decreases |es|
  {
    if es == [] then elems
    else
      var p := ReplaceEach(elems, es[..|es| - 1], s, o);
      var e := es[|es| - 1];
      p[e := p[e].(nodes := Replaced(p[e].nodes, s, o))]
  }

  /** Repointing twice is repointing once. */
  lemma ReplacedTwice<T>(xs: seq<T>, s: T, o: T)
    ensures Replaced(Replaced(xs, s, o), s, o) == Replaced(xs, s, o)
  {
  }

  /** Every listed element has each slot that held s repointed to o; nothing else changes. */
  lemma {:induction false} ReplaceEachEffect(elems: seq<ElementRec>, es: seq<nat>, s: nat, o: nat)
    requires forall i :: 0 <= i < |es| ==> es[i] < |elems|
    ensures var r := ReplaceEach(elems, es, s, o);
      (forall e :: 0 <= e < |elems| && e !in es ==> r[e] == elems[e]) &&
      (forall e :: e in es ==> r[e] == elems[e].(nodes := Replaced(elems[e].nodes, s, o)))
    decreases |es|
  {
    if es != [] {
      var k := |es| - 1;
      var p := ReplaceEach(elems, es[..k], s, o);
      ReplaceEachEffect(elems, es[..k], s, o);
      var r := ReplaceEach(elems, es, s, o);
      forall e | e in es
        ensures r[e] == elems[e].(nodes := Replaced(elems[e].nodes, s, o))
      {
        if e == es[k] {
          if e in es[..k] {
            ReplacedTwice(elems[e].nodes, s, o);
          }
        } else {
          assert e in es[..k];
        }
      }
    }
  }

  /**
   * `drop(point, other)` with other a node or ground: s leaves the node list
   * (which is renumbered), o takes over s's connections and elements, every
   * connection of s is redirected to o and every element slot holding s now
   * holds o.
   */
  function DropSpec(g: Graph, s: nat, o: nat): Graph
    requires ListsIn(g) && s in g.nodes && s < |g.store.nodes| && o < |g.store.nodes| && NodeLinksIn(g.store, s)
  {
    var g1 := RemoveNodeSpec(g, s);
    var st := g1.store;
    var sr, orr := st.nodes[s], st.nodes[o];
    g1.(store := st.(nodes := st.nodes[o := orr.(connections := orr.connections + sr.connections,
                                                 elements := orr.elements + sr.elements)],
                     conns := RedirectEach(st.conns, sr.connections, o),
                     elems := ReplaceEach(st.elems, sr.elements, s, o)))
  }

  /** After `drop` the circuit is closed and kinded, s is gone and the remaining nodes are numbered 1..N. */
  lemma DropKeepsCircuit(g: Graph, s: nat, o: nat)
    requires ListsIn(g) && Kinded(g) && Distinct(g.nodes) && s in g.nodes && s < |g.store.nodes|
    requires o < |g.store.nodes| && NodeLinksIn(g.store, s)
    ensures var r := DropSpec(g, s, o);
      ListsIn(r) && Kinded(r) && Dense(r) && s !in r.nodes &&
      (forall h :: h != s ==> (h in r.nodes <==> h in g.nodes))
  {
    var g1 := RemoveNodeSpec(g, s);
    var r := DropSpec(g, s, o);
    assert Kinded(g1) by {
      forall h | h in g1.nodes
        ensures h < |g1.store.nodes| && !g1.store.nodes[h].ground
      {
        assert h in g.nodes;
      }
    }
    DropFlags(g, s, o);
    SameShape(g1, r);
  }

  /** `drop` changes only the link lists of o: every node keeps its ground flag and index. */
  lemma DropFlags(g: Graph, s: nat, o: nat)
    requires ListsIn(g) && s in g.nodes && s < |g.store.nodes| && o < |g.store.nodes| && NodeLinksIn(g.store, s)
    ensures var g1, r := RemoveNodeSpec(g, s), DropSpec(g, s, o);
      |r.store.nodes| == |g1.store.nodes| &&
      forall h :: 0 <= h < |g1.store.nodes| ==>
        r.store.nodes[h].ground == g1.store.nodes[h].ground && r.store.nodes[h].idx == g1.store.nodes[h].idx
  {
  }

  /** A graph with the same lists, store sizes, ground flags and indices as a closed, densely numbered one is closed and densely numbered too, and kinded when it is. */
  lemma SameShape(g: Graph, r: Graph)
    requires ListsIn(g) && Dense(g)
    requires r.nodes == g.nodes && r.elements == g.elements && r.grounds == g.grounds &&
             r.connections == g.connections && r.anchors == g.anchors
    requires |r.store.nodes| == |g.store.nodes| && |r.store.elems| == |g.store.elems| &&
             |r.store.conns| == |g.store.conns| && |r.store.anchors| == |g.store.anchors|
    requires forall h :: 0 <= h < |g.store.nodes| ==>
               r.store.nodes[h].ground == g.store.nodes[h].ground && r.store.nodes[h].idx == g.store.nodes[h].idx
    ensures ListsIn(r) && Dense(r) && (Kinded(g) ==> Kinded(r))
  {
  }

  /** After `drop`, o holds s's connections and elements, and every connection and element slot of s refers to o; chained connections stay chained. */
  lemma DropMovesLinks(g: Graph, s: nat, o: nat)
    requires ListsIn(g) && Distinct(g.nodes) && s in g.nodes && s < |g.store.nodes|
    requires o < |g.store.nodes| && o != s && NodeLinksIn(g.store, s)
    ensures var r := DropSpec(g, s, o); var sr, orr := g.store.nodes[s], g.store.nodes[o];
      r.store.nodes[o].connections == orr.connections + sr.connections &&
      r.store.nodes[o].elements == orr.elements + sr.elements &&
      (forall c :: c in sr.connections ==> r.store.conns[c].dest == o) &&
      (forall c :: 0 <= c < |g.store.conns| && Chain(g.store.conns[c]) ==> Chain(r.store.conns[c])) &&
      (forall e :: e in sr.elements ==>
        r.store.elems[e] == g.store.elems[e].(nodes := Replaced(g.store.elems[e].nodes, s, o)) &&
        s !in r.store.elems[e].nodes)
  {
    var g1 := RemoveNodeSpec(g, s);
    var sr := g1.store.nodes[s];
    assert sr.connections == g.store.nodes[s].connections && sr.elements == g.store.nodes[s].elements;
    RedirectEachEffect(g1.store.conns, sr.connections, o);
    ReplaceEachEffect(g1.store.elems, sr.elements, s, o);
    forall e | e in sr.elements
      ensures s !in Replaced(g.store.elems[e].nodes, s, o)
    {
      ReplacedLeavesNone(g.store.elems[e].nodes, s, o);
    }
  }

  /** After repointing s to a different o, no slot holds s. */
  lemma ReplacedLeavesNone(xs: seq<nat>, s: nat, o: nat)
    requires s != o
    ensures s !in Replaced(xs, s, o)
  {
    var r := Replaced(xs, s, o);
    forall i | 0 <= i < |r|
      ensures r[i] != s
    {
    }
  }

  /** `Node.drop(point, other)`: a no-op unless other is a node or ground; see `DropSpec`. The canvas never drops a node onto itself. */
  method Drop(circ: Circuit, s: nat, other: Item)
    requires circ.Valid() && s in circ.nodes && s < |circ.heap.nodes| && NodeLinksIn(circ.heap.Contents(), s)
    requires other.NodeItem? ==> other.n < |circ.heap.nodes| && other.n != s
    modifies circ, circ.heap
    ensures !other.NodeItem? ==> circ.State() == old(circ.State())
    ensures other.NodeItem? ==> circ.Valid() && circ.State() == DropSpec(old(circ.State()), s, other.n)
  {
    if !other.NodeItem? {
      return;
    }
    var o := other.n;
    circ.RemoveNode(s);
    var sr, orr := circ.heap.nodes[s], circ.heap.nodes[o];
    circ.heap.nodes := circ.heap.nodes[o := orr.(connections := orr.connections + sr.connections,
                                                 elements := orr.elements + sr.elements)];
    RedirectAll(circ.heap, sr.connections, o);
    ReplaceAll(circ.heap, sr.elements, s, o);
  }

  /** The loop `for conn in cs: conn.change_dest(o)`. */
  method RedirectAll(heap: Heap, cs: seq<nat>, o: nat)
    requires forall i :: 0 <= i < |cs| ==> cs[i] < |heap.conns|
    modifies heap
    ensures heap.Contents() == old(heap.Contents()).(conns := RedirectEach(old(heap.conns), cs, o))
  {
    var i := 0;
    assert cs[..0] == [];
    while i < |cs|
      invariant 0 <= i <= |cs|
      invariant heap.Contents() == old(heap.Contents()).(conns := RedirectEach(old(heap.conns), cs[..i], o))
    {
      assert cs[..i + 1][..i] == cs[..i];
      ChangeDestFixed(heap, cs[i], o);
      i := i + 1;
    }
    assert cs[..i] == cs;
  }

  /** The loop repointing, in each element of es, every slot holding s to o. */
  method ReplaceAll(heap: Heap, es: seq<nat>, s: nat, o: nat)
    requires forall i :: 0 <= i < |es| ==> es[i] < |heap.elems|
    modifies heap
    ensures heap.Contents() == old(heap.Contents()).(elems := ReplaceEach(old(heap.elems), es, s, o))
  {
    var i := 0;
    assert es[..0] == [];
    while i < |es|
      invariant 0 <= i <= |es|
      invariant heap.Contents() == old(heap.Contents()).(elems := ReplaceEach(old(heap.elems), es[..i], s, o))
    {
      assert es[..i + 1][..i] == es[..i];
      var e := es[i];
      var ns := ReplaceSlots(heap.elems[e].nodes, s, o);
      heap.elems := heap.elems[e := heap.elems[e].(nodes := ns)];
      i := i + 1;
    }
    assert es[..i] == es;
  }

  // ---------------------------------------------------------------------
  // split

  /** Every element's connections are records of the store. */
  predicate ElemLinksIn(st: Store)
  {
    forall e, i :: 0 <= e < |st.elems| && 0 <= i < |st.elems[e].connections| ==> st.elems[e].connections[i] < |st.conns|
  }

  /** The search `for connection in element.connections: if connection.dest is s`: the position in cs of the last connection ending at s, or -1. */
  function LastConnTo(conns: seq<ConnRec>, cs: seq<nat>, s: nat): (r: int)
    requires forall i :: 0 <= i < |cs| ==> cs[i] < |conns|
    ensures -1 <= r < |cs|
    ensures r >= 0 ==> conns[cs[r]].dest == s && forall j :: r < j < |cs| ==> conns[cs[j]].dest != s
    ensures r == -1 ==> forall j :: 0 <= j < |cs| ==> conns[cs[j]].dest != s
    decreases |cs|
  {
    if cs == [] then -1
    else if conns[cs[|cs| - 1]].dest == s then |cs| - 1
    else LastConnTo(conns, cs[..|cs| - 1], s)
  }

  /** Where `split` puts element er's new node before snapping: its position plus the displacement scaled by SPACING and turned by its quarter turns. */
  function SplitPoint(er: ElementRec, d: Point): Point
  {
    er.pos.Plus(Turned(d.Scaled(SPACING), er.rot % 4))
  }

  /**
   * One pass of the `split` loop for element e: find e's last connection to
   * s, clear its anchors, create a node at `SplitPoint` holding e and that
   * connection, redirect the connection to it and repoint e's slots. The flag
   * is false, and nothing changes, when no connection of e ends at s (the
   * source then fails on `None.anchors`).
   */
  function SplitOne(g: Graph, s: nat, e: nat): (r: (Graph, bool))
    requires e < |g.store.elems| && ElemLinksIn(g.store)
    ensures |r.0.store.elems| == |g.store.elems| && r.0.store.elems == g.store.elems[e := r.0.store.elems[e]]
    ensures r.0.store.elems[e].connections == g.store.elems[e].connections
    ensures |r.0.store.conns| == |g.store.conns| && ElemLinksIn(r.0.store)
  {
    var st := g.store;
    var er := st.elems[e];
    var k := LastConnTo(st.conns, er.connections, s);
    if k < 0 then (g, false)
    else
      var c := er.connections[k];
      var n := |st.nodes|;
      var g1 := NewNodeSpec(g, SplitPoint(er, st.conns[c].displacement));
      var st1 := g1.store;
      (g1.(store := st1.(nodes := st1.nodes[n := st1.nodes[n].(elements := [e], connections := [c])],
                         conns := st1.conns[c := ChangeDestOnPath(st1.conns[c].(anchors := []), n)],
                         elems := st1.elems[e := er.(nodes := Replaced(er.nodes, s, n))])), true)
  }

  /** The `split` loop over es, stopping at the first element without a connection to s. */
  function SplitEach(g: Graph, s: nat, es: seq<nat>): (r: (Graph, bool))
    requires forall i :: 0 <= i < |es| ==> es[i] < |g.store.elems|
    requires ElemLinksIn(g.store)
    decreases |es|
  {
    if es == [] then (g, true)
    else
      var p := SplitOne(g, s, es[0]);
      if !p.1 then p else SplitEach(p.0, s, es[1..])
  }

  /** `split`: nothing when s has at most one element; otherwise s leaves the node list and each of its elements gets a node of its own. */
  function SplitSpec(g: Graph, s: nat): (r: (Graph, bool))
    requires ListsIn(g) && s < |g.store.nodes| && NodeLinksIn(g.store, s) && ElemLinksIn(g.store)
    requires |g.store.nodes[s].elements| > 1 ==> s in g.nodes
  {
    var es := g.store.nodes[s].elements;
    if |es| <= 1 then (g, true) else SplitEach(RemoveNodeSpec(g, s), s, es)
  }

  /** Node n, made by `split` for element e, holds exactly e and one connection, which ends at n with no anchors; e no longer refers to s. */
  predicate SplitOff(st: Store, n: nat, e: nat, s: nat)
  {
    n < |st.nodes| && e < |st.elems| &&
    st.nodes[n].elements == [e] && |st.nodes[n].connections| == 1 && OnGrid(st.nodes[n].pos) &&
    st.nodes[n].connections[0] < |st.conns| &&
    st.conns[st.nodes[n].connections[0]].dest == n && st.conns[st.nodes[n].connections[0]].anchors == [] &&
    s !in st.elems[e].nodes
  }

  /** What passes of `split` leave alone: the node list and node records only grow, connections not ending at s are untouched, elements change only in their slots, and an element freed of s is left as it is. */
  predicate SplitGrows(g: Graph, r: Graph, s: nat)
  {
    |g.nodes| <= |r.nodes| && r.nodes[..|g.nodes|] == g.nodes &&
    |g.store.nodes| <= |r.store.nodes| && r.store.nodes[..|g.store.nodes|] == g.store.nodes &&
    |r.store.conns| == |g.store.conns| && |r.store.elems| == |g.store.elems| &&
    (forall c :: 0 <= c < |g.store.conns| && g.store.conns[c].dest != s ==> r.store.conns[c] == g.store.conns[c]) &&
    (forall c :: 0 <= c < |g.store.conns| && r.store.conns[c].dest == s ==> r.store.conns[c] == g.store.conns[c]) &&
    (forall e :: 0 <= e < |g.store.elems| ==> r.store.elems[e].connections == g.store.elems[e].connections) &&
    (forall e :: 0 <= e < |g.store.elems| ==> r.store.elems[e] == g.store.elems[e].(nodes := r.store.elems[e].nodes)) &&
    (forall e :: 0 <= e < |g.store.elems| && s !in g.store.elems[e].nodes ==> r.store.elems[e] == g.store.elems[e])
  }

  lemma SplitGrowsTrans(g: Graph, h: Graph, r: Graph, s: nat)
    requires SplitGrows(g, h, s) && SplitGrows(h, r, s)
    ensures SplitGrows(g, r, s)
  {
    assert r.nodes[..|h.nodes|][..|g.nodes|] == r.nodes[..|g.nodes|];
    assert r.store.nodes[..|h.store.nodes|][..|g.store.nodes|] == r.store.nodes[..|g.store.nodes|];
  }

  /** A split-off node keeps its facts through later passes. */
  lemma SplitOffKept(g: Graph, r: Graph, n: nat, e: nat, s: nat)
    requires SplitOff(g.store, n, e, s) && SplitGrows(g, r, s) && n != s
    ensures SplitOff(r.store, n, e, s)
  {
    assert r.store.nodes[n] == r.store.nodes[..|g.store.nodes|][n];
  }

  /**
   * What one pass achieves: it succeeds exactly when some connection of e
   * ends at s. Then a new plain node n, last in the list, is split off for e:
   * n holds e and e's last connection c to s, c alone is redirected to n with
   * its anchors cleared, every slot of e on s now holds n, and the rest is
   * left alone.
   */
  lemma SplitOneEffect(g: Graph, s: nat, e: nat)
    requires ListsIn(g) && Kinded(g) && Dense(g) && s !in g.nodes && s < |g.store.nodes|
    requires e < |g.store.elems| && ElemLinksIn(g.store)
    ensures SplitOne(g, s, e).1 <==> LastConnTo(g.store.conns, g.store.elems[e].connections, s) >= 0
    ensures var r := SplitOne(g, s, e).0; var n := |g.store.nodes|;
      if !SplitOne(g, s, e).1 then r == g else
        ListsIn(r) && Kinded(r) && Dense(r) && s !in r.nodes && r.nodes == g.nodes + [n] &&
        |r.store.nodes| == n + 1 && SplitGrows(g, r, s) && SplitOff(r.store, n, e, s) &&
        !r.store.nodes[n].ground && r.store.anchors == g.store.anchors
    ensures var r, n, er := SplitOne(g, s, e).0, |g.store.nodes|, g.store.elems[e];
      SplitOne(g, s, e).1 ==>
        var c := er.connections[LastConnTo(g.store.conns, er.connections, s)];
        r.store.elems[e] == er.(nodes := Replaced(er.nodes, s, n)) &&
        r.store.nodes[n].connections == [c] &&
        r.store.nodes[n].pos == SnapPoint(SplitPoint(er, g.store.conns[c].displacement)) &&
        r.store.conns == g.store.conns[c := ChangeDestOnPath(g.store.conns[c].(anchors := []), n)]
  {
    SplitOneShape(g, s, e);
    if SplitOne(g, s, e).1 {
      var er := g.store.elems[e];
      var c := er.connections[LastConnTo(g.store.conns, er.connections, s)];
      NewNodeOk(g, SplitPoint(er, g.store.conns[c].displacement));
    }
  }

  /** The shape part of `SplitOneEffect`. */
  lemma SplitOneShape(g: Graph, s: nat, e: nat)
    requires ListsIn(g) && Kinded(g) && Dense(g) && s !in g.nodes && s < |g.store.nodes|
    requires e < |g.store.elems| && ElemLinksIn(g.store)
    ensures var r := SplitOne(g, s, e).0; var n := |g.store.nodes|;
      if !SplitOne(g, s, e).1 then r == g else
        ListsIn(r) && Kinded(r) && Dense(r) && s !in r.nodes && r.nodes == g.nodes + [n] &&
        |r.store.nodes| == n + 1 && SplitGrows(g, r, s) && SplitOff(r.store, n, e, s) &&
        !r.store.nodes[n].ground && r.store.anchors == g.store.anchors
  {
    if SplitOne(g, s, e).1 {
      SplitOneGrows(g, s, e);
      SplitOneOff(g, s, e);
    }
  }

  /** A pass that splits a node off leaves the circuit sound with the new node last, and the rest as `SplitGrows` says. */
  lemma SplitOneGrows(g: Graph, s: nat, e: nat)
    requires ListsIn(g) && Kinded(g) && Dense(g) && s !in g.nodes && s < |g.store.nodes|
    requires e < |g.store.elems| && ElemLinksIn(g.store) && SplitOne(g, s, e).1
    ensures var r := SplitOne(g, s, e).0; var n := |g.store.nodes|;
      ListsIn(r) && Kinded(r) && Dense(r) && s !in r.nodes && r.nodes == g.nodes + [n] &&
      |r.store.nodes| == n + 1 && SplitGrows(g, r, s) && r.store.anchors == g.store.anchors
  {
    var st := g.store;
    var er := st.elems[e];
    var k := LastConnTo(st.conns, er.connections, s);
    var c := er.connections[k];
    var n := |st.nodes|;
    var p := SplitPoint(er, st.conns[c].displacement);
    NewNodeOk(g, p);
    var r := SplitOne(g, s, e).0;
    assert r.store.nodes[..n] == NewNodeSpec(g, p).store.nodes[..n];
    forall x | 0 <= x < |st.elems| && s !in st.elems[x].nodes
      ensures r.store.elems[x] == st.elems[x]
    {
      if x == e {
        assert s in st.elems[e].nodes || Replaced(er.nodes, s, n) == er.nodes;
      }
    }
  }

  /** A pass that splits a node off gives element e a plain node of its own, on the grid, holding only the connection moved to it. */
  lemma SplitOneOff(g: Graph, s: nat, e: nat)
    requires ListsIn(g) && Kinded(g) && s < |g.store.nodes|
    requires e < |g.store.elems| && ElemLinksIn(g.store) && SplitOne(g, s, e).1
    ensures var r := SplitOne(g, s, e).0; var n := |g.store.nodes|;
      SplitOff(r.store, n, e, s) && !r.store.nodes[n].ground
  {
    var st := g.store;
    var er := st.elems[e];
    var k := LastConnTo(st.conns, er.connections, s);
    var c := er.connections[k];
    var n := |st.nodes|;
    var p := SplitPoint(er, st.conns[c].displacement);
    NewNodeOk(g, p);
    ReplacedLeavesNone(er.nodes, s, n);
  }

  /**
   * Node n, split off for e on the way from g to r, holds a connection of e
   * that ended at s in g and now ends at n, its anchors cleared; n stands at
   * the snapped `SplitPoint` of e and that connection's displacement.
   */
  predicate MovedTo(g: Graph, r: Graph, s: nat, n: nat, e: nat)
  {
    n < |r.store.nodes| && e < |g.store.elems| && |r.store.conns| == |g.store.conns| &&
    |r.store.nodes[n].connections| == 1 &&
    var c := r.store.nodes[n].connections[0];
    c in g.store.elems[e].connections && c < |g.store.conns| && g.store.conns[c].dest == s &&
    r.store.conns[c] == ChangeDestOnPath(g.store.conns[c].(anchors := []), n) &&
    r.store.nodes[n].pos == SnapPoint(SplitPoint(g.store.elems[e], g.store.conns[c].displacement))
  }

  /**
   * What passes of `split` over es achieve, from g to r: a sound circuit
   * without s, with one node split off per element, numbered in order after
   * g's nodes, each holding a connection of its element that was moved to it.
   * The first pass for an element repoints all of its slots on s to that
   * pass's node; elements outside es are untouched.
   */
  predicate SplitDone(g: Graph, r: Graph, s: nat, es: seq<nat>)
  {
    SplitShape(g, r, s, es) && SplitMoves(g, r, s, es)
  }

  /** The shape part of `SplitDone`: soundness, numbering and the split-off nodes. */
  predicate SplitShape(g: Graph, r: Graph, s: nat, es: seq<nat>)
  {
    ListsIn(r) && Kinded(r) && Dense(r) && s !in r.nodes && SplitGrows(g, r, s) &&
    |r.nodes| == |g.nodes| + |es| && |r.store.nodes| == |g.store.nodes| + |es| &&
    (forall k :: |g.nodes| <= k < |r.nodes| ==> r.nodes[k] == |g.store.nodes| + (k - |g.nodes|)) &&
    (forall i :: 0 <= i < |es| ==> SplitOff(r.store, |g.store.nodes| + i, es[i], s))
  }

  /** The part of `SplitDone` that ties each new node to the connection it took over and each element to its new slots. */
  predicate SplitMoves(g: Graph, r: Graph, s: nat, es: seq<nat>)
  {
    AllMoved(g, r, s, es) && FirstSlots(g, r, s, es) && OthersKept(g, r, es)
  }

  /** Each pass's node holds a connection of its element moved to it. */
  predicate AllMoved(g: Graph, r: Graph, s: nat, es: seq<nat>)
  {
    forall i :: 0 <= i < |es| ==> MovedTo(g, r, s, |g.store.nodes| + i, es[i])
  }

  /** The first pass for an element repoints all of its slots on s to that pass's node. */
  predicate FirstSlots(g: Graph, r: Graph, s: nat, es: seq<nat>)
  {
    |r.store.elems| == |g.store.elems| && (forall i :: 0 <= i < |es| ==> es[i] < |g.store.elems|) &&
    forall i :: 0 <= i < |es| && es[i] !in es[..i] ==>
      r.store.elems[es[i]] == g.store.elems[es[i]].(nodes := Replaced(g.store.elems[es[i]].nodes, s, |g.store.nodes| + i))
  }

  /** Elements outside es are untouched. */
  predicate OthersKept(g: Graph, r: Graph, es: seq<nat>)
  {
    |r.store.elems| == |g.store.elems| &&
    forall x :: 0 <= x < |g.store.elems| && x !in es ==> r.store.elems[x] == g.store.elems[x]
  }

  /**
   * What the loop achieves when every element has a connection to s: one
   * new node per element, in order, split off for it; the numbering stays
   * dense and s stays out of the node list.
   */
  lemma {:induction false} SplitEachEffect(g: Graph, s: nat, es: seq<nat>)
    requires ListsIn(g) && Kinded(g) && Dense(g) && s !in g.nodes && s < |g.store.nodes|
    requires forall i :: 0 <= i < |es| ==> es[i] < |g.store.elems|
    requires ElemLinksIn(g.store)
    ensures SplitEach(g, s, es).1 ==> SplitDone(g, SplitEach(g, s, es).0, s, es)
    decreases |es|
  {
    if es == [] {
      SplitDoneNone(g, s);
    } else {
      SplitOneShape(g, s, es[0]);
      var g1 := SplitOne(g, s, es[0]).0;
      if SplitOne(g, s, es[0]).1 {
        var rest := es[1..];
        assert forall i :: 0 <= i < |rest| ==> rest[i] == es[i + 1];
        SplitEachEffect(g1, s, rest);
        SplitOneMoved(g, s, es[0]);
        var p := SplitEach(g, s, es);
        assert p == SplitEach(g1, s, rest);
        if p.1 {
          SplitEachStep(g, g1, p.0, s, es);
        }
      }
    }
  }

  /** No passes: nothing is split and nothing moves. */
  lemma SplitDoneNone(g: Graph, s: nat)
    requires ListsIn(g) && Kinded(g) && Dense(g) && s !in g.nodes
    ensures SplitDone(g, g, s, [])
  {
    assert g.nodes[..|g.nodes|] == g.nodes && g.store.nodes[..|g.store.nodes|] == g.store.nodes;
  }

  /** A single pass, seen through `MovedTo`. */
  lemma SplitOneMoved(g: Graph, s: nat, e: nat)
    requires ListsIn(g) && Kinded(g) && Dense(g) && s !in g.nodes && s < |g.store.nodes|
    requires e < |g.store.elems| && ElemLinksIn(g.store) && SplitOne(g, s, e).1
    ensures MovedTo(g, SplitOne(g, s, e).0, s, |g.store.nodes|, e)
    ensures var er := g.store.elems[e];
      SplitOne(g, s, e).0.store.elems == g.store.elems[e := er.(nodes := Replaced(er.nodes, s, |g.store.nodes|))]
  {
    SplitOneEffect(g, s, e);
    var er := g.store.elems[e];
    var k := LastConnTo(g.store.conns, er.connections, s);
    assert er.connections[k] in er.connections;
  }

  /** The induction step of `SplitEachEffect`: the first pass's node survives the rest, whose nodes follow it. */
  lemma SplitEachStep(g: Graph, g1: Graph, r: Graph, s: nat, es: seq<nat>)
    requires es != [] && s < |g.store.nodes| && forall i :: 0 <= i < |es| ==> es[i] < |g.store.elems|
    requires var n0 := |g.store.nodes|;
      g1.nodes == g.nodes + [n0] && |g1.store.nodes| == n0 + 1 && SplitGrows(g, g1, s) && SplitOff(g1.store, n0, es[0], s) &&
      MovedTo(g, g1, s, n0, es[0]) &&
      g1.store.elems == g.store.elems[es[0] := g.store.elems[es[0]].(nodes := Replaced(g.store.elems[es[0]].nodes, s, n0))]
    requires SplitDone(g1, r, s, es[1..])
    ensures SplitDone(g, r, s, es)
  {
    SplitShapeStep(g, g1, r, s, es);
    SplitGrowsTrans(g, g1, r, s);
    SplitStepMoved(g, g1, r, s, es);
    SplitStepFirst(g, g1, r, s, es);
    SplitStepOthers(g, g1, r, s, es);
  }

  /** The induction step for `SplitShape`. */
  lemma SplitShapeStep(g: Graph, g1: Graph, r: Graph, s: nat, es: seq<nat>)
    requires es != [] && s < |g.store.nodes|
    requires var n0 := |g.store.nodes|;
      g1.nodes == g.nodes + [n0] && |g1.store.nodes| == n0 + 1 && SplitGrows(g, g1, s) && SplitOff(g1.store, n0, es[0], s)
    requires SplitShape(g1, r, s, es[1..])
    ensures SplitShape(g, r, s, es)
  {
    var n0 := |g.store.nodes|;
    SplitGrowsTrans(g, g1, r, s);
    SplitOffKept(g1, r, n0, es[0], s);
    assert r.nodes[|g.nodes|] == r.nodes[..|g1.nodes|][|g.nodes|];
    forall i | 0 <= i < |es|
      ensures SplitOff(r.store, n0 + i, es[i], s)
    {
      if i > 0 {
        var j := i - 1;
        assert es[i] == es[1..][j] && |g1.store.nodes| + j == n0 + i;
      }
    }
  }

  /** The induction step for `AllMoved`: the first pass's connection keeps its new end, and a later pass's connection still ended at s in g. */
  lemma SplitStepMoved(g: Graph, g1: Graph, r: Graph, s: nat, es: seq<nat>)
    requires es != [] && s < |g.store.nodes|
    requires var n0 := |g.store.nodes|;
      |g1.store.nodes| == n0 + 1 && SplitGrows(g, g1, s) && SplitGrows(g1, r, s) && MovedTo(g, g1, s, n0, es[0])
    requires AllMoved(g1, r, s, es[1..])
    ensures AllMoved(g, r, s, es)
  {
    var n0 := |g.store.nodes|;
    assert r.store.nodes[n0] == r.store.nodes[..|g1.store.nodes|][n0];
    forall i | 0 <= i < |es|
      ensures MovedTo(g, r, s, n0 + i, es[i])
    {
      if i > 0 {
        var j := i - 1;
        assert es[i] == es[1..][j] && |g1.store.nodes| + j == n0 + i;
        assert MovedTo(g1, r, s, n0 + i, es[i]);
        var c := r.store.nodes[n0 + i].connections[0];
        assert g.store.conns[c].dest == s;
        assert SplitPoint(g1.store.elems[es[i]], g1.store.conns[c].displacement) == SplitPoint(g.store.elems[es[i]], g.store.conns[c].displacement);
      }
    }
  }

  /** A later first occurrence in es is also a first occurrence in its tail, and differs from the head. */
  lemma FirstInTail(es: seq<nat>, i: nat)
    requires 0 < i < |es| && es[i] !in es[..i]
    ensures es[i] != es[0] && es[1..][i - 1] == es[i] && es[i] !in es[1..][..i - 1]
  {
    assert es[0] in es[..i];
    assert es[1..][..i - 1] == es[..i][1..];
  }

  /** The induction step for `FirstSlots`. */
  lemma SplitStepFirst(g: Graph, g1: Graph, r: Graph, s: nat, es: seq<nat>)
    requires es != [] && s < |g.store.nodes| && forall i :: 0 <= i < |es| ==> es[i] < |g.store.elems|
    requires var n0 := |g.store.nodes|;
      |g1.store.nodes| == n0 + 1 && SplitGrows(g1, r, s) &&
      g1.store.elems == g.store.elems[es[0] := g.store.elems[es[0]].(nodes := Replaced(g.store.elems[es[0]].nodes, s, n0))] &&
      s !in g1.store.elems[es[0]].nodes
    requires FirstSlots(g1, r, s, es[1..])
    ensures FirstSlots(g, r, s, es)
  {
    var n0 := |g.store.nodes|;
    forall i | 0 <= i < |es| && es[i] !in es[..i]
      ensures r.store.elems[es[i]] == g.store.elems[es[i]].(nodes := Replaced(g.store.elems[es[i]].nodes, s, n0 + i))
    {
      if i > 0 {
        FirstInTail(es, i);
        assert |g1.store.nodes| + (i - 1) == n0 + i;
      }
    }
  }

  /** The induction step for `OthersKept`. */
  lemma SplitStepOthers(g: Graph, g1: Graph, r: Graph, s: nat, es: seq<nat>)
    requires es != [] && es[0] < |g.store.elems|
    requires g1.store.elems == g.store.elems[es[0] := g.store.elems[es[0]].(nodes := Replaced(g.store.elems[es[0]].nodes, s, |g.store.nodes|))]
    requires OthersKept(g1, r, es[1..])
    ensures OthersKept(g, r, es)
  {
    forall x | 0 <= x < |g.store.elems| && x !in es
      ensures r.store.elems[x] == g.store.elems[x]
    {
      assert x != es[0] && x !in es[1..];
    }
  }

  /** Removing a plain node keeps the lists in range and kinded, drops it, and renumbers densely. */
  lemma RemoveNodeKinded(g: Graph, s: nat)
    requires ListsIn(g) && Kinded(g) && Distinct(g.nodes) && s in g.nodes
    ensures var r := RemoveNodeSpec(g, s);
      ListsIn(r) && Kinded(r) && Dense(r) && s !in r.nodes && |r.nodes| == |g.nodes| - 1 &&
      |r.store.nodes| == |g.store.nodes| && r.store.elems == g.store.elems && r.store.conns == g.store.conns
  {
    var r := RemoveNodeSpec(g, s);
    assert forall h :: 0 <= h < |g.store.nodes| ==> r.store.nodes[h].ground == g.store.nodes[h].ground;
  }

  /**
   * `split` on a node with several elements, when each element has a
   * connection to it: the node leaves the node list, each element gets a
   * node of its own (a plain node, numbered after the others), and the
   * numbering stays dense.
   */
  lemma SplitOk(g: Graph, s: nat)
    requires ListsIn(g) && Kinded(g) && Distinct(g.nodes) && s in g.nodes && s < |g.store.nodes|
    requires NodeLinksIn(g.store, s) && ElemLinksIn(g.store)
    ensures var es := g.store.nodes[s].elements;
      (|es| <= 1 ==> SplitSpec(g, s) == (g, true)) &&
      (|es| > 1 && SplitSpec(g, s).1 ==>
         |SplitSpec(g, s).0.nodes| == |g.nodes| - 1 + |es| && SplitDone(RemoveNodeSpec(g, s), SplitSpec(g, s).0, s, es))
  {
    var es := g.store.nodes[s].elements;
    if |es| > 1 {
      var g1 := RemoveNodeSpec(g, s);
      RemoveNodeKinded(g, s);
      SplitEachEffect(g1, s, es);
      assert SplitSpec(g, s) == SplitEach(g1, s, es);
    }
  }

  /**
   * `split` on a node that holds one element in both of its slots, with a
   * connection to the node from each slot: the first pass repoints both
   * slots to the first new node, and the second pass makes a node that lists
   * the element while the element lists it in no slot.
   */
  lemma SplitRepeatedOrphan(g: Graph, s: nat, e: nat)
    requires ListsIn(g) && Kinded(g) && Distinct(g.nodes) && s in g.nodes && s < |g.store.nodes|
    requires NodeLinksIn(g.store, s) && ElemLinksIn(g.store) && e < |g.store.elems|
    requires g.store.nodes[s].elements == [e, e] && g.store.elems[e].nodes == [s, s]
    requires var cs := g.store.elems[e].connections;
      |cs| == 2 && cs[0] != cs[1] && g.store.conns[cs[0]].dest == s && g.store.conns[cs[1]].dest == s
    ensures SplitSpec(g, s).1 && Orphaned(SplitSpec(g, s).0, |g.store.nodes|, e)
  {
    var g1 := RemoveNodeSpec(g, s);
    RemoveNodeKinded(g, s);
    OrphanPasses(g1, s, e);
    assert SplitSpec(g, s) == SplitEach(g1, s, [e, e]);
  }

  /** Both slots of e hold node n, and node n + 1 lists e although e does not list it. */
  predicate Orphaned(r: Graph, n: nat, e: nat)
  {
    e < |r.store.elems| && n + 1 < |r.store.nodes| &&
    r.store.elems[e].nodes == [n, n] && r.store.nodes[n + 1].elements == [e] && n + 1 !in r.store.elems[e].nodes
  }

  /** The two passes of `SplitRepeatedOrphan`, once s has left the node list. */
  lemma OrphanPasses(g: Graph, s: nat, e: nat)
    requires ListsIn(g) && Kinded(g) && Dense(g) && s !in g.nodes && s < |g.store.nodes|
    requires ElemLinksIn(g.store) && e < |g.store.elems| && g.store.elems[e].nodes == [s, s]
    requires var cs := g.store.elems[e].connections;
      |cs| == 2 && cs[0] != cs[1] && g.store.conns[cs[0]].dest == s && g.store.conns[cs[1]].dest == s
    ensures SplitEach(g, s, [e, e]).1 && Orphaned(SplitEach(g, s, [e, e]).0, |g.store.nodes|, e)
  {
    OrphanFirstPass(g, s, e);
    OrphanSecondPass(SplitOne(g, s, e).0, s, e, |g.store.nodes|);
  }

  /** The first pass of `SplitRepeatedOrphan`: the element's last connection moves, and both slots go to the new node. */
  lemma OrphanFirstPass(g: Graph, s: nat, e: nat)
    requires ListsIn(g) && Kinded(g) && Dense(g) && s !in g.nodes && s < |g.store.nodes|
    requires ElemLinksIn(g.store) && e < |g.store.elems| && g.store.elems[e].nodes == [s, s]
    requires var cs := g.store.elems[e].connections;
      |cs| == 2 && cs[0] != cs[1] && g.store.conns[cs[0]].dest == s && g.store.conns[cs[1]].dest == s
    ensures SplitOne(g, s, e).1 && SplitEach(g, s, [e, e]) == SplitEach(SplitOne(g, s, e).0, s, [e])
    ensures HalfSplit(SplitOne(g, s, e).0, s, e, |g.store.nodes|)
  {
    var cs := g.store.elems[e].connections;
    assert LastConnTo(g.store.conns, cs, s) == 1;
    SplitOneEffect(g, s, e);
    assert [e, e][1..] == [e];
  }

  /** After the first pass: a sound circuit without s, with one more node n, that both slots of e hold; e's first connection still ends at s and its second does not. */
  predicate HalfSplit(g: Graph, s: nat, e: nat, n: nat)
  {
    ListsIn(g) && Kinded(g) && Dense(g) && s !in g.nodes && s < |g.store.nodes| && |g.store.nodes| == n + 1 &&
    ElemLinksIn(g.store) && e < |g.store.elems| && g.store.elems[e].nodes == [n, n] &&
    var cs := g.store.elems[e].connections;
    |cs| == 2 && g.store.conns[cs[0]].dest == s && g.store.conns[cs[1]].dest != s
  }

  /** The second pass of `SplitRepeatedOrphan`: the other connection moves to a node the element's slots do not reach. */
  lemma OrphanSecondPass(g: Graph, s: nat, e: nat, n: nat)
    requires HalfSplit(g, s, e, n) && s < n
    ensures SplitEach(g, s, [e]).1 && Orphaned(SplitEach(g, s, [e]).0, n, e)
  {
    var cs := g.store.elems[e].connections;
    assert LastConnTo(g.store.conns, cs, s) == 0 by {
      assert cs[..1] == [cs[0]];
    }
    SplitOneEffect(g, s, e);
    var r := SplitOne(g, s, e).0;
    ReplacedAbsent([n, n], s, n + 1);
    assert [e][1..] == [];
  }

  lemma ReplacedAbsent(xs: seq<nat>, was: nat, now: nat)
    requires was !in xs
    ensures Replaced(xs, was, now) == xs
  {
  }

  /** `split` clears the anchors of a connection it moves, so a connection that passed through any anchor no longer forms a path: its wires still count one more than the old anchors. */
  lemma SplitClearsPath(c: ConnRec, n: nat)
    requires Chain(c) && |c.anchors| >= 1
    ensures !Chain(ChangeDestOnPath(c.(anchors := []), n))
  {
    ChainCounts(c);
    var c' := ChangeDestOnPath(c.(anchors := []), n);
    if Chain(c') {
      ChainCounts(c');
      assert false;
    }
  }

  /** The inner loop of `split`: the position in cs of the last connection ending at s, or -1. */
  method FindConnTo(heap: Heap, cs: seq<nat>, s: nat) returns (k: int)
    requires forall i :: 0 <= i < |cs| ==> cs[i] < |heap.conns|
    ensures k == LastConnTo(heap.conns, cs, s)
  {
    k := -1;
    var i := 0;
    assert cs[..0] == [];
    while i < |cs|
      invariant 0 <= i <= |cs|
      invariant k == LastConnTo(heap.conns, cs[..i], s)
    {
      assert cs[..i + 1][..i] == cs[..i];
      if heap.conns[cs[i]].dest == s {
        k := i;
      }
      i := i + 1;
    }
    assert cs[..i] == cs;
  }

  /** One pass of the `split` loop, in the source's order: clear the anchors, create the node, link it, redirect, repoint the slots. */
  method SplitElement(circ: Circuit, s: nat, e: nat) returns (ok: bool)
    requires circ.Valid() && e < |circ.heap.elems| && ElemLinksIn(circ.heap.Contents())
    modifies circ, circ.heap
    ensures circ.Valid() && (circ.State(), ok) == SplitOne(old(circ.State()), s, e)
  {
    ghost var g := circ.State();
    var er := circ.heap.elems[e];
    var k := FindConnTo(circ.heap, er.connections, s);
    if k < 0 {
      return false;
    }
    var c := er.connections[k];
    var cr := circ.heap.conns[c];
    circ.heap.conns := circ.heap.conns[c := cr.(anchors := [])];
    ghost var p := SplitPoint(er, cr.displacement);
    var n := NewNode(circ, SplitPoint(er, cr.displacement));
    ghost var g1 := NewNodeSpec(g, p);
    assert n == |g.store.nodes| && LastConnTo(g.store.conns, er.connections, s) == k;
    assert circ.State() == g1.(store := g1.store.(conns := g.store.conns[c := cr.(anchors := [])]));
    ghost var st := circ.heap.Contents();
    assert st.conns[c] == cr.(anchors := []) && st.elems == g.store.elems && st.nodes == g1.store.nodes;
    assert er == g.store.elems[e] && g1.store.elems == g.store.elems && g1.store.conns == g.store.conns;
    LinkSplitNode(circ, s, e, c, n);
    ghost var r := SplitOne(g, s, e);
    assert r.0.store.conns == st.conns[c := ChangeDestOnPath(st.conns[c], n)];
    assert r.0.store.nodes == st.nodes[n := st.nodes[n].(elements := [e], connections := [c])];
    assert r.0.store.elems[e] == er.(nodes := Replaced(er.nodes, s, n));
    assert r.0.store.elems == st.elems[e := er.(nodes := Replaced(er.nodes, s, n))];
    assert r.0.store.anchors == st.anchors;
    assert r.0.nodes == g1.nodes && r.0.elements == g1.elements && r.0.grounds == g1.grounds;
    assert r.0.connections == g1.connections && r.0.anchors == g1.anchors;
    assert circ.State() == r.0;
    ok := true;
  }

  /** The rewiring half of one pass of `split`'s loop, once the new node n exists: n takes element e and connection c, c ends at n, and e's slots at s point to n. */
  method LinkSplitNode(circ: Circuit, s: nat, e: nat, c: nat, n: nat)
    requires circ.Valid() && e < |circ.heap.elems| && c < |circ.heap.conns| && n < |circ.heap.nodes|
    modifies circ.heap
    ensures circ.Valid()
    ensures var g := old(circ.State()); var st := g.store;
      circ.State() == g.(store := st.(nodes := st.nodes[n := st.nodes[n].(elements := [e], connections := [c])],
                                      conns := st.conns[c := ChangeDestOnPath(st.conns[c], n)],
                                      elems := st.elems[e := st.elems[e].(nodes := Replaced(st.elems[e].nodes, s, n))]))
  {
    var nr := circ.heap.nodes[n];
    circ.heap.nodes := circ.heap.nodes[n := nr.(elements := [e], connections := [c])];
    ChangeDestFixed(circ.heap, c, n);
    var er := circ.heap.elems[e];
    var slots := ReplaceSlots(er.nodes, s, n);
    circ.heap.elems := circ.heap.elems[e := er.(nodes := slots)];
  }

  /** `split`: a node with several elements leaves the node list and each of its elements gets a node of its own; the loop stops at an element without a connection to the node. */
  method Split(circ: Circuit, s: nat) returns (ok: bool)
    requires circ.Valid() && s < |circ.heap.nodes| && NodeLinksIn(circ.heap.Contents(), s) && ElemLinksIn(circ.heap.Contents())
    requires |circ.heap.nodes[s].elements| > 1 ==> s in circ.nodes
    modifies circ, circ.heap
    ensures circ.Valid() && (circ.State(), ok) == SplitSpec(old(circ.State()), s)
  {
    var es := circ.heap.nodes[s].elements;
    if |es| <= 1 {
      return true;
    }
    circ.RemoveNode(s);
    ok := SplitAll(circ, s, es);
  }

  /** The `split` loop: one pass of it for each element in turn, stopping at the first that fails. */
  method SplitAll(circ: Circuit, s: nat, es: seq<nat>) returns (ok: bool)
    requires circ.Valid() && ElemLinksIn(circ.heap.Contents())
    requires forall j :: 0 <= j < |es| ==> es[j] < |circ.heap.elems|
    modifies circ, circ.heap
    ensures circ.Valid() && (circ.State(), ok) == SplitEach(old(circ.State()), s, es)
  {
    ghost var want := SplitEach(circ.State(), s, es);
    ghost var m := |circ.heap.elems|;
    var i := 0;
    while i < |es|
      invariant 0 <= i <= |es|
      invariant circ.Valid() && ElemLinksIn(circ.heap.Contents()) && |circ.heap.elems| == m
      invariant SplitEach(circ.State(), s, es[i..]) == want
    {
      ok := SplitElement(circ, s, es[i]);
      if !ok {
        return;
      }
      assert es[i..][1..] == es[i + 1..];
      i := i + 1;
    }
    ok := true;
  }
}
