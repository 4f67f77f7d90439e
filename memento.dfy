/**
 * Saving and restoring a circuit (sccircuitbuilder/circuit.py, `load`,
 * `_load_nodes`, `_load_grounds`, `_setup_nodes`, `_setup_connection` and
 * `CircuitMemento`). A capture gives the grounds temporary indices above the
 * node numbering, so that a connection memento's destination index names a
 * node or a ground unambiguously; loading looks a destination up among the
 * saved node indices first and falls back to the ground indices.
 */
module Mementos {
  import opened Geometry
  import opened Lists
  import opened Records
  import opened Paths
  import opened Circuits
  import opened Connections
  import opened Nodes

  /** `CircuitMemento`: the node count at capture, the ground and node mementos, and one memento per connection. */
  datatype CircuitMemento = CircuitMemento(cutoff: int, grounds: seq<NodeMemento>, nodes: seq<NodeMemento>, conns: seq<ConnMemento>)

  // ---------------------------------------------------------------------
  // Capture

  /** `[Node.NodeMemento(n) for n in hs]`: index, position and quarter turns of each listed record. */
  function NodeMementos(recs: seq<NodeRec>, hs: seq<nat>): (r: seq<NodeMemento>)
    requires forall i :: 0 <= i < |hs| ==> hs[i] < |recs|
    ensures |r| == |hs|
  {
    seq(|hs|, i requires 0 <= i < |hs| && hs[i] < |recs| => NodeMemento(recs[hs[i]].idx, recs[hs[i]].pos, recs[hs[i]].rot))
  }

  /** The first loop of the capture: the i-th listed ground gets index base + i, in list order. */
  function Tagged(recs: seq<NodeRec>, gs: seq<nat>, base: int): (r: seq<NodeRec>)
    requires forall i :: 0 <= i < |gs| ==> gs[i] < |recs|
    ensures |r| == |recs|
    decreases |gs|
  {
    if gs == [] then recs
    else
      var k := |gs| - 1;
      var t := Tagged(recs, gs[..k], base);
      t[gs[k] := t[gs[k]].(idx := base + k)]
  }

  /** The last loop of the capture: every listed ground back at index 0. */
  function Zeroed(recs: seq<NodeRec>, gs: seq<nat>): (r: seq<NodeRec>)
    ensures |r| == |recs|
  {
    seq(|recs|, h requires 0 <= h < |recs| => if h in gs then recs[h].(idx := 0) else recs[h])
  }

  /** Tagging changes only the indices of the listed grounds, puts each in base..base+|gs|-1, and gives distinct grounds base + their position. */
  lemma {:induction false} TaggedEffect(recs: seq<NodeRec>, gs: seq<nat>, base: int)
    requires forall i :: 0 <= i < |gs| ==> gs[i] < |recs|
    ensures var r := Tagged(recs, gs, base);
      (forall h :: 0 <= h < |recs| ==> r[h] == recs[h].(idx := r[h].idx)) &&
      (forall h :: 0 <= h < |recs| && h !in gs ==> r[h] == recs[h]) &&
      (forall i :: 0 <= i < |gs| ==> base <= r[gs[i]].idx < base + |gs|) &&
      (Distinct(gs) ==> forall i :: 0 <= i < |gs| ==> r[gs[i]].idx == base + i)
    decreases |gs|
  {
    if gs != [] {
      var k := |gs| - 1;
      var p := gs[..k];
      assert gs == p + [gs[k]];
      TaggedEffect(recs, p, base);
      var r := Tagged(recs, gs, base);
      forall i | 0 <= i < |gs|
        ensures base <= r[gs[i]].idx < base + |gs|
      {
        if i < k && gs[i] != gs[k] {
          assert gs[i] == p[i];
        }
      }
      if Distinct(gs) {
        forall i | 0 <= i < |gs|
          ensures r[gs[i]].idx == base + i
        {
          if i < k {
            assert gs[i] == p[i] && gs[i] != gs[k];
          }
        }
      }
    }
  }

  /** The indices the tagging wrote are all reset: tagging then zeroing is the same as zeroing alone. */
  lemma ZeroedAfterTagged(recs: seq<NodeRec>, gs: seq<nat>, base: int)
    requires forall i :: 0 <= i < |gs| ==> gs[i] < |recs|
    ensures Zeroed(Tagged(recs, gs, base), gs) == Zeroed(recs, gs)
  {
    TaggedEffect(recs, gs, base);
  }

  /** Grounds keep index 0 (`Ground` registers through `add_ground`, which never numbers it). */
  predicate GroundsAtZero(g: Graph)
  {
    forall i :: 0 <= i < |g.grounds| ==> g.grounds[i] < |g.store.nodes| && g.store.nodes[g.grounds[i]].idx == 0
  }

  /** In a circuit whose grounds are at index 0, the capture leaves every node record as it found it. */
  lemma CaptureRestoresIndices(g: Graph, base: int)
    requires GroundsAtZero(g)
    ensures Zeroed(Tagged(g.store.nodes, g.grounds, base), g.grounds) == g.store.nodes
  {
    ZeroedAfterTagged(g.store.nodes, g.grounds, base);
  }

  /**
   * While the capture runs, the nodes keep their indices 1..N and every
   * ground has an index of at least N+5, so no saved ground index equals a
   * saved node index; distinct grounds get N+5, N+6, ... in list order.
   */
  lemma CaptureIndicesApart(g: Graph)
    requires ListsIn(g) && Kinded(g) && Dense(g)
    ensures (BelowAt(g.grounds, |g.store.nodes|); BelowAt(g.nodes, |g.store.nodes|);
      var N := |g.nodes|; var t := Tagged(g.store.nodes, g.grounds, N + 5);
      var ns, gs := NodeMementos(t, g.nodes), NodeMementos(t, g.grounds);
      (forall i :: 0 <= i < |ns| ==> ns[i].idx == i + 1) &&
      (forall j :: 0 <= j < |gs| ==> N + 5 <= gs[j].idx) &&
      (forall i, j :: 0 <= i < |ns| && 0 <= j < |gs| ==> ns[i].idx != gs[j].idx) &&
      (Distinct(g.grounds) ==> forall j :: 0 <= j < |gs| ==> gs[j].idx == N + j + 5))
  {
    CaptureNodeIndices(g);
    CaptureGroundIndices(g);
  }

  /** The node half of `CaptureIndicesApart`: plain nodes keep their dense indices 1..N. */
  lemma CaptureNodeIndices(g: Graph)
    requires ListsIn(g) && Kinded(g) && Dense(g)
    ensures (BelowAt(g.grounds, |g.store.nodes|); BelowAt(g.nodes, |g.store.nodes|);
      var ns := NodeMementos(Tagged(g.store.nodes, g.grounds, |g.nodes| + 5), g.nodes);
      forall i :: 0 <= i < |ns| ==> ns[i].idx == i + 1)
  {
    var N := |g.nodes|;
    BelowAt(g.grounds, |g.store.nodes|);
    BelowAt(g.nodes, |g.store.nodes|);
    var t := Tagged(g.store.nodes, g.grounds, N + 5);
    TaggedEffect(g.store.nodes, g.grounds, N + 5);
    forall i | 0 <= i < N
      ensures t[g.nodes[i]].idx == i + 1
    {
      var h := g.nodes[i];
      assert h in g.nodes;
      assert !g.store.nodes[h].ground;
    }
  }

  /** The ground half of `CaptureIndicesApart`: grounds are tagged from N + 5 on, in list order when none repeats. */
  lemma CaptureGroundIndices(g: Graph)
    requires ListsIn(g) && Kinded(g)
    ensures (BelowAt(g.grounds, |g.store.nodes|);
      var N := |g.nodes|; var gs := NodeMementos(Tagged(g.store.nodes, g.grounds, N + 5), g.grounds);
      (forall j :: 0 <= j < |gs| ==> N + 5 <= gs[j].idx) &&
      (Distinct(g.grounds) ==> forall j :: 0 <= j < |gs| ==> gs[j].idx == N + j + 5))
  {
    var N := |g.nodes|;
    BelowAt(g.grounds, |g.store.nodes|);
    var t := Tagged(g.store.nodes, g.grounds, N + 5);
    TaggedEffect(g.store.nodes, g.grounds, N + 5);
    forall j | 0 <= j < |g.grounds|
      ensures N + 5 <= t[g.grounds[j]].idx
    {
      assert g.grounds[j] in g.grounds;
    }
  }

  /** What `ConnectionMomento` records of a chained connection c in store st: the destination's index, the first wire's d and the anchor positions in path order. */
  ghost predicate Captured(st: Store, c: ConnRec, m: ConnMemento)
    requires c.dest < |st.nodes| && forall a :: a in c.anchors ==> a < |st.anchors|
  {
    |c.wires| >= 1 && m.dest == st.nodes[c.dest].idx && m.d == c.wires[0].d &&
    forall ord :: PathThrough(c, ord) ==>
      (StopsAreAnchors(c, ord); m.anchors == StopPositions(st, Stops(PathEnds(c.wires, ord))))
  }

  /** Every listed connection is in the store and forms a path. */
  ghost predicate Chains(g: Graph)
  {
    forall i :: 0 <= i < |g.connections| ==> ConnIn(g.store, g.connections[i]) && Chain(g.store.conns[g.connections[i]])
  }

  /**
   * `CircuitMemento.__init__`: tag the grounds, record the node count and
   * the ground, node and connection mementos, then reset every ground to 0.
   */
  method Capture(circ: Circuit) returns (m: CircuitMemento)
    requires circ.Valid() && Chains(circ.State())
    modifies circ.heap
    ensures (BelowAt(circ.grounds, |old(circ.heap.nodes)|); BelowAt(circ.nodes, |old(circ.heap.nodes)|);
      var st0 := old(circ.heap.Contents()); var t := Tagged(st0.nodes, circ.grounds, |circ.nodes| + 5);
      circ.heap.Contents() == st0.(nodes := Zeroed(t, circ.grounds)) &&
      m.cutoff == |circ.nodes| && m.grounds == NodeMementos(t, circ.grounds) && m.nodes == NodeMementos(t, circ.nodes) &&
      |m.conns| == |circ.connections| &&
      forall i :: 0 <= i < |circ.connections| ==>
        ConnIn(st0.(nodes := t), circ.connections[i]) && Captured(st0.(nodes := t), st0.conns[circ.connections[i]], m.conns[i]))
  {
    var N := |circ.nodes|;
    ghost var st0 := circ.heap.Contents();
    BelowAt(circ.grounds, |circ.heap.nodes|);
    BelowAt(circ.nodes, |circ.heap.nodes|);
    TagGrounds(circ.heap, circ.grounds, N + 5);
    ghost var t := circ.heap.nodes;
    var gms := NodeMementos(circ.heap.nodes, circ.grounds);
    var nms := NodeMementos(circ.heap.nodes, circ.nodes);
    var cms := CaptureAll(circ.heap.Contents(), circ.connections);
    ZeroGrounds(circ.heap, circ.grounds);
    m := CircuitMemento(N, gms, nms, cms);
  }

  /** `for i, gnd in enumerate(grounds): gnd.idx = base + i`. */
  method TagGrounds(heap: Heap, gs: seq<nat>, base: int)
    requires forall i :: 0 <= i < |gs| ==> gs[i] < |heap.nodes|
    modifies heap
    ensures heap.Contents() == old(heap.Contents()).(nodes := Tagged(old(heap.nodes), gs, base))
  {
    ghost var st0 := heap.Contents();
    var i := 0;
    assert gs[..0] == [];
    while i < |gs|
      invariant 0 <= i <= |gs|
      invariant heap.Contents() == st0.(nodes := Tagged(st0.nodes, gs[..i], base))
    {
      assert gs[..i + 1][..i] == gs[..i];
      var h := gs[i];
      heap.nodes := heap.nodes[h := heap.nodes[h].(idx := base + i)];
      i := i + 1;
    }
    assert gs[..i] == gs;
  }

  /** `for gnd in grounds: gnd.idx = 0`. */
  method ZeroGrounds(heap: Heap, gs: seq<nat>)
    requires forall i :: 0 <= i < |gs| ==> gs[i] < |heap.nodes|
    modifies heap
    ensures heap.Contents() == old(heap.Contents()).(nodes := Zeroed(old(heap.nodes), gs))
  {
    ghost var st0 := heap.Contents();
    var i := 0;
    assert gs[..0] == [];
    assert Zeroed(st0.nodes, []) == st0.nodes;
    while i < |gs|
      invariant 0 <= i <= |gs|
      invariant heap.Contents() == st0.(nodes := Zeroed(st0.nodes, gs[..i]))
    {
      var h := gs[i];
      assert gs[..i + 1] == gs[..i] + [h];
      heap.nodes := heap.nodes[h := heap.nodes[h].(idx := 0)];
      assert heap.nodes == Zeroed(st0.nodes, gs[..i + 1]);
      i := i + 1;
    }
    assert gs[..i] == gs;
  }

  /** `[Connection.ConnectionMomento(c) for c in cs]`. */
  method CaptureAll(st: Store, cs: seq<nat>) returns (ms: seq<ConnMemento>)
    requires forall i :: 0 <= i < |cs| ==> ConnIn(st, cs[i]) && Chain(st.conns[cs[i]])
    ensures |ms| == |cs|
    ensures forall i :: 0 <= i < |cs| ==> ConnIn(st, cs[i]) && Captured(st, st.conns[cs[i]], ms[i])
  {
    ms := [];
    var i := 0;
    while i < |cs|
      invariant 0 <= i <= |cs| && |ms| == i
      invariant forall j :: 0 <= j < i ==> ConnIn(st, cs[j]) && Captured(st, st.conns[cs[j]], ms[j])
    {
      var C := st.conns[cs[i]];
      ChainCounts(C);
      var m := CaptureConnection(st, C);
      ms := ms + [m];
      i := i + 1;
    }
  }

  // ---------------------------------------------------------------------
  // Load

  /** The handles n0, n0+1, ..., n0+k-1. */
  function Iota(n0: nat, k: nat): (r: seq<nat>)
    ensures |r| == k && forall i :: 0 <= i < k ==> r[i] == n0 + i
  {
    seq(k, i requires 0 <= i < k => n0 + i)
  }

  /** One pass of `_load_nodes`: a new node at the saved location, then given the saved index. */
  function LoadNode(g: Graph, m: NodeMemento): Graph
  {
    var n := |g.store.nodes|;
    var g1 := NewNodeSpec(g, m.loc);
    g1.(store := g1.store.(nodes := g1.store.nodes[n := g1.store.nodes[n].(idx := m.idx)]))
  }

  /** `_load_nodes`. */
  function LoadNodes(g: Graph, ms: seq<NodeMemento>): Graph
    decreases |ms|
  {
    if ms == [] then g else LoadNode(LoadNodes(g, ms[..|ms| - 1]), ms[|ms| - 1])
  }

  /** The number of `rotate` calls `range(rot)` makes: none for a negative count. */
  function Turns(rot: int): nat
  {
    if rot > 0 then rot else 0
  }

  /** One pass of `_load_grounds`: a new ground at the saved location, rotated the saved number of times. */
  function LoadGround(g: Graph, m: NodeMemento): Graph
  {
    var n := |g.store.nodes|;
    var g1 := NewGroundSpec(g, m.loc);
    g1.(store := g1.store.(nodes := g1.store.nodes[n := g1.store.nodes[n].(rot := Rotations(0, Turns(m.rot)))]))
  }

  /** `_load_grounds`. */
  function LoadGrounds(g: Graph, ms: seq<NodeMemento>): Graph
    decreases |ms|
  {
    if ms == [] then g else LoadGround(LoadGrounds(g, ms[..|ms| - 1]), ms[|ms| - 1])
  }

  /** Only the node and ground lists and the node records change when nodes and grounds are loaded. */
  predicate LoadFrame(g: Graph, r: Graph)
  {
    r.elements == g.elements && r.connections == g.connections && r.anchors == g.anchors &&
    r.store.elems == g.store.elems && r.store.conns == g.store.conns && r.store.anchors == g.store.anchors &&
    |g.store.nodes| <= |r.store.nodes| && r.store.nodes[..|g.store.nodes|] == g.store.nodes
  }

  lemma LoadFrameTrans(g: Graph, h: Graph, r: Graph)
    requires LoadFrame(g, h) && LoadFrame(h, r)
    ensures LoadFrame(g, r)
  {
    assert r.store.nodes[..|h.store.nodes|][..|g.store.nodes|] == r.store.nodes[..|g.store.nodes|];
  }

  /** One loaded node: a plain node last in the list, at the snapped location, with the saved index. */
  lemma LoadNodeOne(g: Graph, m: NodeMemento)
    requires ListsIn(g) && Kinded(g)
    ensures var r := LoadNode(g, m); var n := |g.store.nodes|;
      ListsIn(r) && Kinded(r) && LoadFrame(g, r) && r.grounds == g.grounds && r.nodes == g.nodes + [n] &&
      |r.store.nodes| == n + 1 && r.store.nodes[n] == NodeRec(false, m.idx, SnapPoint(m.loc), 0, [], [])
  {
    var n := |g.store.nodes|;
    NewNodeOk(g, m.loc);
    var r := LoadNode(g, m);
    assert r.store.nodes[..n] == NewNodeSpec(g, m.loc).store.nodes[..n];
  }

  /** One loaded ground: last among the grounds, at the snapped location, with index 0 and the saved turns modulo 4. */
  lemma LoadGroundOne(g: Graph, m: NodeMemento)
    requires ListsIn(g) && Kinded(g)
    ensures var r := LoadGround(g, m); var n := |g.store.nodes|;
      ListsIn(r) && Kinded(r) && LoadFrame(g, r) && r.nodes == g.nodes && r.grounds == g.grounds + [n] &&
      |r.store.nodes| == n + 1 && r.store.nodes[n] == NodeRec(true, 0, SnapPoint(m.loc), Turns(m.rot) % 4, [], [])
  {
    var n := |g.store.nodes|;
    NewGroundOk(g, m.loc);
    RotationsCount(0, Turns(m.rot));
    var r := LoadGround(g, m);
    assert r.store.nodes[..n] == NewGroundSpec(g, m.loc).store.nodes[..n];
  }

  /**
   * Loading node mementos appends one plain node per memento, in order, at
   * the snapped saved location, with the saved index, no links and no
   * turns; nothing else changes.
   */
  lemma {:induction false} LoadNodesEffect(g: Graph, ms: seq<NodeMemento>)
    requires ListsIn(g) && Kinded(g)
    ensures var r := LoadNodes(g, ms); var n0 := |g.store.nodes|;
      ListsIn(r) && Kinded(r) && LoadFrame(g, r) && r.grounds == g.grounds &&
      r.nodes == g.nodes + Iota(n0, |ms|) && |r.store.nodes| == n0 + |ms| &&
      forall i :: 0 <= i < |ms| ==> r.store.nodes[n0 + i] == NodeRec(false, ms[i].idx, SnapPoint(ms[i].loc), 0, [], [])
    decreases |ms|
  {
    if ms != [] {
      var k := |ms| - 1;
      var n0 := |g.store.nodes|;
      LoadNodesEffect(g, ms[..k]);
      var p := LoadNodes(g, ms[..k]);
      LoadNodeOne(p, ms[k]);
      LoadFrameTrans(g, p, LoadNodes(g, ms));
      LoadedOneMore(g, p, LoadNodes(g, ms), ms, ms[..k], false);
    }
  }

  /** Loading ground mementos appends one ground per memento, in order, at the snapped saved location, with index 0 and the saved turns modulo 4; nothing else changes. */
  lemma {:induction false} LoadGroundsEffect(g: Graph, ms: seq<NodeMemento>)
    requires ListsIn(g) && Kinded(g)
    ensures var r := LoadGrounds(g, ms); var n0 := |g.store.nodes|;
      ListsIn(r) && Kinded(r) && LoadFrame(g, r) && r.nodes == g.nodes &&
      r.grounds == g.grounds + Iota(n0, |ms|) && |r.store.nodes| == n0 + |ms| &&
      forall i :: 0 <= i < |ms| ==> r.store.nodes[n0 + i] == NodeRec(true, 0, SnapPoint(ms[i].loc), Turns(ms[i].rot) % 4, [], [])
    decreases |ms|
  {
    if ms != [] {
      var k := |ms| - 1;
      LoadGroundsEffect(g, ms[..k]);
      var p := LoadGrounds(g, ms[..k]);
      LoadGroundOne(p, ms[k]);
      LoadFrameTrans(g, p, LoadGrounds(g, ms));
      LoadedOneMore(g, p, LoadGrounds(g, ms), ms, ms[..k], true);
    }
  }

  /** The record a node or ground memento loads into. */
  function Loaded(m: NodeMemento, ground: bool): NodeRec
  {
    if ground then NodeRec(true, 0, SnapPoint(m.loc), Turns(m.rot) % 4, [], [])
    else NodeRec(false, m.idx, SnapPoint(m.loc), 0, [], [])
  }

  /** The induction step of the two load lemmas: the records loaded so far survive the next one. */
  lemma LoadedOneMore(g: Graph, p: Graph, r: Graph, ms: seq<NodeMemento>, ks: seq<NodeMemento>, ground: bool)
    requires ms != [] && ks == ms[..|ms| - 1]
    requires LoadFrame(p, r) && |p.store.nodes| == |g.store.nodes| + |ms| - 1 && |r.store.nodes| == |p.store.nodes| + 1
    requires forall i :: 0 <= i < |ks| ==> p.store.nodes[|g.store.nodes| + i] == Loaded(ks[i], ground)
    requires r.store.nodes[|p.store.nodes|] == Loaded(ms[|ms| - 1], ground)
    ensures |r.store.nodes| == |g.store.nodes| + |ms|
    ensures forall i :: 0 <= i < |ms| ==> r.store.nodes[|g.store.nodes| + i] == Loaded(ms[i], ground)
    ensures Iota(|g.store.nodes|, |ms| - 1) + [|p.store.nodes|] == Iota(|g.store.nodes|, |ms|)
  {
    var n0, k := |g.store.nodes|, |ms| - 1;
    forall i | 0 <= i < |ms|
      ensures r.store.nodes[n0 + i] == Loaded(ms[i], ground)
    {
      if i < k {
        assert ks[i] == ms[i];
        assert r.store.nodes[n0 + i] == r.store.nodes[..|p.store.nodes|][n0 + i];
      }
    }
  }

  // ---------------------------------------------------------------------
  // _setup_nodes

  /** `[lst[idxs.index(x)] for x in xs]`: each saved index looked up among the saved indices, and the handle at that position taken. */
  function Resolved(lst: seq<nat>, idxs: seq<int>, xs: seq<int>): (r: seq<nat>)
    requires forall i :: 0 <= i < |xs| ==> xs[i] in idxs && IndexOf(idxs, xs[i]) < |lst|
    ensures |r| == |xs|
    ensures forall i :: 0 <= i < |xs| ==> r[i] == lst[IndexOf(idxs, xs[i])]
  {
    seq(|xs|, i requires 0 <= i < |xs| && xs[i] in idxs && IndexOf(idxs, xs[i]) < |lst| => lst[IndexOf(idxs, xs[i])])
  }

  /** One pass of `_setup_nodes`: node n appended to element e's slots, and e to n's elements. */
  function Attach(g: Graph, e: nat, n: nat): Graph
    requires e < |g.store.elems| && n < |g.store.nodes|
  {
    var st := g.store;
    g.(store := st.(elems := st.elems[e := st.elems[e].(nodes := st.elems[e].nodes + [n])],
                    nodes := st.nodes[n := st.nodes[n].(elements := st.nodes[n].elements + [e])]))
  }

  /** The passes of `_setup_nodes` over the handles ns, in order. */
  function AttachEach(g: Graph, e: nat, ns: seq<nat>): (r: Graph)
    requires e < |g.store.elems| && forall i :: 0 <= i < |ns| ==> ns[i] < |g.store.nodes|
    ensures r.elements == g.elements && r.nodes == g.nodes && r.grounds == g.grounds &&
      r.connections == g.connections && r.anchors == g.anchors
    ensures |r.store.elems| == |g.store.elems| && |r.store.nodes| == |g.store.nodes| &&
      r.store.conns == g.store.conns && r.store.anchors == g.store.anchors
    decreases |ns|
  {
    if ns == [] then g else Attach(AttachEach(g, e, ns[..|ns| - 1]), e, ns[|ns| - 1])
  }

  /** What the node and ground passes leave in node record h: the old record with e appended once per occurrence of h. */
  predicate AttachedTo(old_: NodeRec, now: NodeRec, e: nat, count: nat)
  {
    now == old_.(elements := now.elements) && |now.elements| == |old_.elements| + count &&
    now.elements[..|old_.elements|] == old_.elements &&
    forall k :: |old_.elements| <= k < |now.elements| ==> now.elements[k] == e
  }

  /**
   * Attaching the handles ns to element e appends ns to e's node slots and
   * appends e to each listed node's elements once per occurrence; no other
   * element, no other part of a node record and no list changes.
   */
  lemma {:induction false} AttachEachEffect(g: Graph, e: nat, ns: seq<nat>)
    requires e < |g.store.elems| && forall i :: 0 <= i < |ns| ==> ns[i] < |g.store.nodes|
    ensures var r := AttachEach(g, e, ns);
      r.store.elems == g.store.elems[e := g.store.elems[e].(nodes := g.store.elems[e].nodes + ns)] &&
      forall h :: 0 <= h < |g.store.nodes| ==> AttachedTo(g.store.nodes[h], r.store.nodes[h], e, multiset(ns)[h])
    decreases |ns|
  {
    var r := AttachEach(g, e, ns);
    if ns == [] {
      assert g.store.elems[e].nodes + ns == g.store.elems[e].nodes;
      forall h | 0 <= h < |g.store.nodes|
        ensures AttachedTo(g.store.nodes[h], r.store.nodes[h], e, multiset(ns)[h])
      {
        assert r.store.nodes[h].elements[..|g.store.nodes[h].elements|] == g.store.nodes[h].elements;
      }
    } else {
      var k := |ns| - 1;
      var x := ns[k];
      assert ns == ns[..k] + [x];
      AttachEachEffect(g, e, ns[..k]);
      var p := AttachEach(g, e, ns[..k]);
      assert p.store.elems[e].nodes + [x] == g.store.elems[e].nodes + ns;
      AttachedSnoc(g.store.nodes, p.store.nodes, e, ns);
    }
  }

  /** Linking e with one more node x adds one to x's count and leaves every other record's count alone. */
  lemma AttachedSnoc(os: seq<NodeRec>, ps: seq<NodeRec>, e: nat, ns: seq<nat>)
    requires ns != [] && |ps| == |os| && ns[|ns| - 1] < |ps|
    requires forall h :: 0 <= h < |os| ==> AttachedTo(os[h], ps[h], e, multiset(ns[..|ns| - 1])[h])
    ensures var x := ns[|ns| - 1]; var rs := ps[x := ps[x].(elements := ps[x].elements + [e])];
      forall h :: 0 <= h < |os| ==> AttachedTo(os[h], rs[h], e, multiset(ns)[h])
  {
    var k := |ns| - 1;
    var x := ns[k];
    var rs := ps[x := ps[x].(elements := ps[x].elements + [e])];
    assert ns == ns[..k] + [x];
    forall h | 0 <= h < |os|
      ensures AttachedTo(os[h], rs[h], e, multiset(ns)[h])
    {
      assert multiset(ns)[h] == multiset(ns[..k])[h] + multiset([x])[h];
      if h == x {
        assert rs[h].elements[..|os[h].elements|] == ps[h].elements[..|os[h].elements|];
      }
    }
  }

  /** `_setup_nodes`: the element's saved node indices resolved among the loaded nodes, then its saved ground indices among the loaded grounds. */
  function SetupNodesSpec(g: Graph, e: nat, xs: seq<int>, ys: seq<int>, nis: seq<int>, gis: seq<int>): Graph
    requires ListsIn(g) && e < |g.store.elems|
    requires forall i :: 0 <= i < |xs| ==> xs[i] in nis && IndexOf(nis, xs[i]) < |g.nodes|
    requires forall i :: 0 <= i < |ys| ==> ys[i] in gis && IndexOf(gis, ys[i]) < |g.grounds|
  {
    BelowAt(g.nodes, |g.store.nodes|);
    BelowAt(g.grounds, |g.store.nodes|);
    var g1 := AttachEach(g, e, Resolved(g.nodes, nis, xs));
    AttachEach(g1, e, Resolved(g.grounds, gis, ys))
  }

  /** The saved node indices are the indices of the loaded nodes, position by position. */
  predicate Aligned(g: Graph, nis: seq<int>)
  {
    |nis| <= |g.nodes| && forall i :: 0 <= i < |nis| ==> g.nodes[i] < |g.store.nodes| && g.store.nodes[g.nodes[i]].idx == nis[i]
  }

  /** When the saved node indices are those of the loaded nodes, each lookup finds the node carrying the index that was looked up. */
  lemma {:induction false} ResolvedFindsSaved(g: Graph, nis: seq<int>, xs: seq<int>)
    requires Aligned(g, nis)
    requires forall i :: 0 <= i < |xs| ==> xs[i] in nis && IndexOf(nis, xs[i]) < |g.nodes|
    ensures var ns := Resolved(g.nodes, nis, xs);
      forall i :: 0 <= i < |xs| ==> ns[i] < |g.store.nodes| && g.store.nodes[ns[i]].idx == xs[i]
  {
    var ns := Resolved(g.nodes, nis, xs);
    forall i | 0 <= i < |xs|
      ensures ns[i] < |g.store.nodes| && g.store.nodes[ns[i]].idx == xs[i]
    {
      var j := IndexOf(nis, xs[i]);
      assert ns[i] == g.nodes[j] && nis[j] == xs[i];
    }
  }

  /**
   * `_setup_nodes` gives element e the resolved nodes and then the resolved
   * grounds as its slots and adds e to each of them; node records change in
   * nothing else, so each keeps its index.
   */
  lemma SetupNodesOk(g: Graph, e: nat, xs: seq<int>, ys: seq<int>, nis: seq<int>, gis: seq<int>)
    requires ListsIn(g) && e < |g.store.elems|
    requires forall i :: 0 <= i < |xs| ==> xs[i] in nis && IndexOf(nis, xs[i]) < |g.nodes|
    requires forall i :: 0 <= i < |ys| ==> ys[i] in gis && IndexOf(gis, ys[i]) < |g.grounds|
    ensures var r := SetupNodesSpec(g, e, xs, ys, nis, gis);
      var ns, gs := Resolved(g.nodes, nis, xs), Resolved(g.grounds, gis, ys);
      ListsIn(r) && |r.store.nodes| == |g.store.nodes| &&
      r.store.elems == g.store.elems[e := g.store.elems[e].(nodes := g.store.elems[e].nodes + ns + gs)] &&
      (forall h :: 0 <= h < |g.store.nodes| ==> AttachedTo(g.store.nodes[h], r.store.nodes[h], e, multiset(ns + gs)[h]))
  {
    BelowAt(g.nodes, |g.store.nodes|);
    BelowAt(g.grounds, |g.store.nodes|);
    var ns, gs := Resolved(g.nodes, nis, xs), Resolved(g.grounds, gis, ys);
    var g1 := AttachEach(g, e, ns);
    var r := AttachEach(g1, e, gs);
    AttachEachEffect(g, e, ns);
    AttachEachEffect(g1, e, gs);
    AttachedTwice(g.store, g1.store, r.store, e, ns, gs);
  }

  /** Two runs of links to element e, one after the other, make one run of their concatenation. */
  lemma AttachedTwice(s0: Store, s1: Store, s2: Store, e: nat, ns: seq<nat>, gs: seq<nat>)
    requires e < |s0.elems| && |s1.nodes| == |s0.nodes| == |s2.nodes|
    requires s1.elems == s0.elems[e := s0.elems[e].(nodes := s0.elems[e].nodes + ns)]
    requires s2.elems == s1.elems[e := s1.elems[e].(nodes := s1.elems[e].nodes + gs)]
    requires forall h :: 0 <= h < |s0.nodes| ==> AttachedTo(s0.nodes[h], s1.nodes[h], e, multiset(ns)[h])
    requires forall h :: 0 <= h < |s1.nodes| ==> AttachedTo(s1.nodes[h], s2.nodes[h], e, multiset(gs)[h])
    ensures s2.elems == s0.elems[e := s0.elems[e].(nodes := s0.elems[e].nodes + ns + gs)]
    ensures forall h :: 0 <= h < |s0.nodes| ==> AttachedTo(s0.nodes[h], s2.nodes[h], e, multiset(ns + gs)[h])
  {
    forall h: nat | h < |s0.nodes|
      ensures AttachedTo(s0.nodes[h], s2.nodes[h], e, multiset(ns + gs)[h])
    {
      var m1: multiset<nat>, m2: multiset<nat> := multiset(ns), multiset(gs);
      var c1: nat, c2: nat := m1[h], m2[h];
      AttachedToTrans(s0.nodes[h], s1.nodes[h], s2.nodes[h], e, c1, c2);
    }
    assert s0.elems[e].nodes + ns + gs == s1.elems[e].nodes + gs;
  }

  lemma AttachedToTrans(o: NodeRec, m: NodeRec, n: NodeRec, e: nat, c1: nat, c2: nat)
    requires AttachedTo(o, m, e, c1) && AttachedTo(m, n, e, c2)
    ensures AttachedTo(o, n, e, c1 + c2)
  {
    assert n.elements[..|o.elements|] == n.elements[..|m.elements|][..|o.elements|];
  }

  /** `_setup_nodes` on a circuit: the two loops, each looking an index up and linking both ways. */
  method SetupNodes(circ: Circuit, e: nat, xs: seq<int>, ys: seq<int>, nis: seq<int>, gis: seq<int>)
    requires circ.Valid() && e < |circ.heap.elems|
    requires forall i :: 0 <= i < |xs| ==> xs[i] in nis && IndexOf(nis, xs[i]) < |circ.nodes|
    requires forall i :: 0 <= i < |ys| ==> ys[i] in gis && IndexOf(gis, ys[i]) < |circ.grounds|
    modifies circ.heap
    ensures circ.Valid() && circ.State() == SetupNodesSpec(old(circ.State()), e, xs, ys, nis, gis)
  {
    ghost var g := circ.State();
    BelowAt(circ.nodes, |circ.heap.nodes|);
    BelowAt(circ.grounds, |circ.heap.nodes|);
    ghost var ns := Resolved(circ.nodes, nis, xs);
    AttachAll(circ, e, nis, xs, circ.nodes);
    ghost var g1 := circ.State();
    assert g1 == AttachEach(g, e, ns);
    AttachAll(circ, e, gis, ys, circ.grounds);
  }

  /** One loop of `_setup_nodes`: for each saved index, the handle at its position in lst is linked with element e. */
  method AttachAll(circ: Circuit, e: nat, idxs: seq<int>, xs: seq<int>, lst: seq<nat>)
    requires circ.Valid() && e < |circ.heap.elems|
    requires forall i :: 0 <= i < |lst| ==> lst[i] < |circ.heap.nodes|
    requires forall i :: 0 <= i < |xs| ==> xs[i] in idxs && IndexOf(idxs, xs[i]) < |lst|
    modifies circ.heap
    ensures circ.Valid() && circ.State() == AttachEach(old(circ.State()), e, Resolved(lst, idxs, xs))
  {
    ghost var g := circ.State();
    ghost var ns := Resolved(lst, idxs, xs);
    var i := 0;
    assert ns[..0] == [];
    assert forall j :: 0 <= j < |ns| ==> ns[j] < |g.store.nodes|;
    while i < |xs|
      invariant 0 <= i <= |xs|
      invariant circ.Valid() && circ.State() == AttachEach(g, e, ns[..i])
    {
      AttachEachNext(g, e, ns, i);
      var n := lst[IndexOf(idxs, xs[i])];
      AttachOne(circ, e, n);
      i := i + 1;
    }
    assert ns[..i] == ns;
  }

  /** The links for the first i + 1 handles are those for the first i and then one more. */
  lemma AttachEachNext(g: Graph, e: nat, ns: seq<nat>, i: nat)
    requires e < |g.store.elems| && i < |ns| && forall j :: 0 <= j < |ns| ==> ns[j] < |g.store.nodes|
    ensures AttachEach(g, e, ns[..i + 1]) == Attach(AttachEach(g, e, ns[..i]), e, ns[i])
  {
    assert ns[..i + 1][..i] == ns[..i];
  }

  /** One pass of a `_setup_nodes` loop: node n and element e listed with each other. */
  method AttachOne(circ: Circuit, e: nat, n: nat)
    requires circ.Valid() && e < |circ.heap.elems| && n < |circ.heap.nodes|
    modifies circ.heap
    ensures circ.Valid() && circ.State() == Attach(old(circ.State()), e, n)
  {
    circ.heap.elems := circ.heap.elems[e := circ.heap.elems[e].(nodes := circ.heap.elems[e].nodes + [n])];
    circ.heap.nodes := circ.heap.nodes[n := circ.heap.nodes[n].(elements := circ.heap.nodes[n].elements + [e])];
  }

  // ---------------------------------------------------------------------
  // _setup_connection

  /** The destination lookup of `_setup_connection` succeeds: among the loaded nodes or, failing that, among the loaded grounds. */
  predicate Findable(g: Graph, x: int, nis: seq<int>, gis: seq<int>)
  {
    (x in nis && IndexOf(nis, x) < |g.nodes|) || (x in gis && IndexOf(gis, x) < |g.grounds|)
  }

  /**
   * The destination of a loaded connection: the `try` looks the saved index
   * up among the saved node indices, and any failure there (no such index,
   * or no node at that position) falls through to the lookup among the
   * saved ground indices.
   */
  function DestOf(g: Graph, x: int, nis: seq<int>, gis: seq<int>): (r: nat)
    requires ListsIn(g) && Findable(g, x, nis, gis)
    ensures r < |g.store.nodes|
  {
    BelowAt(g.nodes, |g.store.nodes|);
    BelowAt(g.grounds, |g.store.nodes|);
    if x in nis && IndexOf(nis, x) < |g.nodes| then g.nodes[IndexOf(nis, x)] else g.grounds[IndexOf(gis, x)]
  }

  /**
   * With the saved node indices those of the loaded nodes, a saved node
   * index resolves to the plain node carrying it, and any other index to the
   * first loaded ground saved under it.
   */
  lemma DestRoundTrip(g: Graph, x: int, nis: seq<int>, gis: seq<int>)
    requires ListsIn(g) && Kinded(g) && Aligned(g, nis) && Findable(g, x, nis, gis)
    ensures var r := DestOf(g, x, nis, gis);
      (x in nis ==> !g.store.nodes[r].ground && g.store.nodes[r].idx == x) &&
      (x !in nis ==> exists j :: 0 <= j < |g.grounds| && j < |gis| && r == g.grounds[j] && gis[j] == x &&
                      g.store.nodes[r].ground && forall i :: 0 <= i < j ==> gis[i] != x)
  {
    var r := DestOf(g, x, nis, gis);
    if x in nis {
      assert r == g.nodes[IndexOf(nis, x)] && r in g.nodes;
    } else {
      var j := IndexOf(gis, x);
      assert r == g.grounds[j] && r in g.grounds;
    }
  }

  /** The wires `_setup_connection` builds through the anchors ks: element to the first anchor with d, anchor to anchor, and the last anchor to the node, the others with d = (0, 0). */
  function ChainWires(e: nat, n: nat, d: Point, ks: seq<nat>): (r: seq<Wire>)
    ensures |r| == |ks| + 1
  {
    seq(|ks| + 1, i requires 0 <= i <= |ks| =>
      Wire(if i == 0 then ElementEnd(e) else AnchorEnd(ks[i - 1]),
           if i == |ks| then NodeEnd(n) else AnchorEnd(ks[i]),
           if i == 0 then d else Point(0, 0), [], 0))
  }

  /** ws has the ends and departure vectors of vs, wire by wire, whatever its links. */
  predicate EndsLike(ws: seq<Wire>, vs: seq<Wire>)
  {
    |ws| == |vs| && forall i :: 0 <= i < |ws| ==> ws[i].origin == vs[i].origin && ws[i].dest == vs[i].dest && ws[i].d == vs[i].d
  }

  lemma ChainWiresIn(st: Store, e: nat, n: nat, d: Point, ks: seq<nat>)
    requires e < |st.elems| && n < |st.nodes| && forall i :: 0 <= i < |ks| ==> ks[i] < |st.anchors|
    ensures var ws := ChainWires(e, n, d, ks); forall i :: 0 <= i < |ws| ==> WireIn(st, ws[i])
  {
  }

  /** Routing wires with the same ends and vectors gives the same wires: `rewire` starts from empty links. */
  lemma RewireAllEndsLike(st: Store, ws: seq<Wire>, vs: seq<Wire>)
    requires EndsLike(ws, vs) && forall i :: 0 <= i < |vs| ==> WireIn(st, vs[i])
    ensures forall i :: 0 <= i < |ws| ==> WireIn(st, ws[i])
    ensures RewireAll(st, ws) == RewireAll(st, vs)
  {
    assert forall i :: 0 <= i < |ws| ==> Rewired(st, ws[i]) == Rewired(st, vs[i]);
  }

  /** The anchor records `Anchor(pt, circuit, conn)` creates for the points pts, in order. */
  function AnchorRecs(pts: seq<Point>, c: nat): (r: seq<AnchorRec>)
    ensures |r| == |pts| && forall i :: 0 <= i < |pts| ==> r[i] == AnchorRec(pts[i], c)
  {
    seq(|pts|, i requires 0 <= i < |pts| => AnchorRec(pts[i], c))
  }

  /** The anchor loop of `_setup_connection`: one anchor per saved point, registered with the circuit and appended to connection c. */
  function AddAnchorsSpec(g: Graph, c: nat, pts: seq<Point>): Graph
    requires c < |g.store.conns|
  {
    var a0, st := |g.store.anchors|, g.store;
    g.(anchors := g.anchors + Iota(a0, |pts|),
       store := st.(anchors := st.anchors + AnchorRecs(pts, c),
                    conns := st.conns[c := st.conns[c].(anchors := st.conns[c].anchors + Iota(a0, |pts|))]))
  }

  /** The rest of `_setup_connection` for a connection with anchors: the first wire redirected to the first anchor, the chain wires appended, and all rerouted. */
  function ChainStore(st: Store, c: nat): (r: Store)
    requires c < |st.conns| && var C := st.conns[c];
      C.origin < |st.elems| && C.dest < |st.nodes| && forall i :: 0 <= i < |C.anchors| ==> C.anchors[i] < |st.anchors|
    requires |st.conns[c].wires| == 1
    ensures r.elems == st.elems && r.nodes == st.nodes && r.anchors == st.anchors && |r.conns| == |st.conns|
    ensures forall k :: 0 <= k < |st.conns| && k != c ==> r.conns[k] == st.conns[k]
    ensures var C, C' := st.conns[c], r.conns[c];
      C'.origin == C.origin && C'.dest == C.dest && C'.anchors == C.anchors &&
      EndsLike(C'.wires, ChainWires(C.origin, C.dest, C.wires[0].d, C.anchors)) &&
      forall i :: 0 <= i < |C'.wires| ==> WireIn(r, C'.wires[i])
  {
    var C := st.conns[c];
    ChainWiresIn(st, C.origin, C.dest, C.wires[0].d, C.anchors);
    st.(conns := st.conns[c := C.(wires := RewireAll(st, ChainWires(C.origin, C.dest, C.wires[0].d, C.anchors)))])
  }

  /** The start of `_setup_connection`: a new connection from element e to node n, appended to n's connections. */
  function ConnectTo(g: Graph, e: nat, n: nat, d: Point): Graph
    requires e < |g.store.elems| && n < |g.store.nodes|
  {
    var c := |g.store.conns|;
    var g1 := NewConnectionSpec(g, e, n, d);
    var st1 := g1.store;
    g1.(store := st1.(nodes := st1.nodes[n := st1.nodes[n].(connections := st1.nodes[n].connections + [c])]))
  }

  lemma ConnectToOk(g: Graph, e: nat, n: nat, d: Point)
    requires ListsIn(g) && e < |g.store.elems| && n < |g.store.nodes|
    ensures var r := ConnectTo(g, e, n, d); var c := |g.store.conns|;
      ListsIn(r) && ConnIn(r.store, c) && r.connections == g.connections + [c] &&
      r.elements == g.elements && r.nodes == g.nodes && r.grounds == g.grounds && r.anchors == g.anchors &&
      r.store.conns == g.store.conns + [NewConn(g.store, e, n, d)] &&
      r.store.elems == g.store.elems && r.store.anchors == g.store.anchors &&
      r.store.nodes == g.store.nodes[n := g.store.nodes[n].(connections := g.store.nodes[n].connections + [c])]
  {
    NewConnectionOk(g, e, n, d);
  }

  /** The anchors and the chain of wires through them, on a connection that had none: the anchors are new records at pts, and the wires run element, anchors in order, node. */
  lemma AnchorChainOk(g: Graph, c: nat, pts: seq<Point>)
    requires ListsIn(g) && ConnIn(g.store, c) && pts != []
    requires var C := g.store.conns[c]; C.anchors == [] && |C.wires| == 1 && C.wires[0].origin == ElementEnd(C.origin)
    ensures var ga := AddAnchorsSpec(g, c, pts); var a0 := |g.store.anchors|;
      ConnIn(ga.store, c) && |ga.store.conns[c].wires| == 1 &&
      var r := ga.(store := ChainStore(ga.store, c)); var C, C' := g.store.conns[c], r.store.conns[c];
      ListsIn(r) && ConnIn(r.store, c) &&
      r.elements == g.elements && r.nodes == g.nodes && r.grounds == g.grounds && r.connections == g.connections &&
      r.anchors == g.anchors + Iota(a0, |pts|) && r.store.anchors == g.store.anchors + AnchorRecs(pts, c) &&
      r.store.elems == g.store.elems && r.store.nodes == g.store.nodes &&
      |r.store.conns| == |g.store.conns| && (forall k :: 0 <= k < |g.store.conns| && k != c ==> r.store.conns[k] == g.store.conns[k]) &&
      C'.origin == C.origin && C'.dest == C.dest && C'.anchors == Iota(a0, |pts|) &&
      EndsLike(C'.wires, ChainWires(C.origin, C.dest, C.wires[0].d, Iota(a0, |pts|)))
  {
    var a0 := |g.store.anchors|;
    var ga := AddAnchorsSpec(g, c, pts);
    assert [] + Iota(a0, |pts|) == Iota(a0, |pts|);
    assert ConnIn(ga.store, c) by {
      assert forall i :: 0 <= i < |g.store.conns[c].wires| ==> WireIn(g.store, g.store.conns[c].wires[i]);
    }
    var C := ga.store.conns[c];
    ChainWiresIn(ga.store, C.origin, C.dest, C.wires[0].d, C.anchors);
    var r := ga.(store := ChainStore(ga.store, c));
    assert ListsIn(r) by {
      assert forall h :: h in Iota(a0, |pts|) ==> h < |r.store.anchors|;
    }
  }

  /**
   * `_setup_connection`: a connection from element e to the looked-up
   * destination with the saved d, listed by that node; for saved anchor
   * points, the anchors and the chain of wires through them; finally the
   * connection listed by the element.
   */
  function SetupConnectionSpec(g: Graph, e: nat, cm: ConnMemento, nis: seq<int>, gis: seq<int>): Graph
    requires ListsIn(g) && e < |g.store.elems| && Findable(g, cm.dest, nis, gis)
  {
    var n, c := DestOf(g, cm.dest, nis, gis), |g.store.conns|;
    var g2 := ConnectTo(g, e, n, cm.d);
    var g3 := if cm.anchors == [] then g2 else
      var ga := AddAnchorsSpec(g2, c, cm.anchors);
      ga.(store := ChainStore(ga.store, c));
    var st3 := g3.store;
    g3.(store := st3.(elems := st3.elems[e := st3.elems[e].(connections := st3.elems[e].connections + [c])]))
  }

  /**
   * The loaded connection is the next record, listed by the circuit, by its
   * destination node and by its element; its anchors are new records at the
   * saved points, listed by the circuit; its wires run element, anchors in
   * saved order, node; nothing else changes.
   */
  lemma SetupConnectionShape(g: Graph, e: nat, cm: ConnMemento, nis: seq<int>, gis: seq<int>)
    requires ListsIn(g) && e < |g.store.elems| && Findable(g, cm.dest, nis, gis)
    ensures var r := SetupConnectionSpec(g, e, cm, nis, gis);
      var n, c, a0 := DestOf(g, cm.dest, nis, gis), |g.store.conns|, |g.store.anchors|;
      var C := r.store.conns[c];
      ListsIn(r) && ConnIn(r.store, c) &&
      r.elements == g.elements && r.nodes == g.nodes && r.grounds == g.grounds &&
      r.connections == g.connections + [c] && r.anchors == g.anchors + Iota(a0, |cm.anchors|) &&
      |r.store.conns| == c + 1 && r.store.conns[..c] == g.store.conns &&
      r.store.anchors == g.store.anchors + AnchorRecs(cm.anchors, c) &&
      r.store.nodes == g.store.nodes[n := g.store.nodes[n].(connections := g.store.nodes[n].connections + [c])] &&
      r.store.elems == g.store.elems[e := g.store.elems[e].(connections := g.store.elems[e].connections + [c])] &&
      C.origin == e && C.dest == n && C.anchors == Iota(a0, |cm.anchors|) &&
      EndsLike(C.wires, ChainWires(e, n, cm.d, Iota(a0, |cm.anchors|)))
  {
    var n, c, a0 := DestOf(g, cm.dest, nis, gis), |g.store.conns|, |g.store.anchors|;
    ConnectToOk(g, e, n, cm.d);
    var g2 := ConnectTo(g, e, n, cm.d);
    var g3 := if cm.anchors == [] then g2 else
      var ga := AddAnchorsSpec(g2, c, cm.anchors);
      ga.(store := ChainStore(ga.store, c));
    var r := SetupConnectionSpec(g, e, cm, nis, gis);
    assert g2.store.conns[..c] == g.store.conns;
    if cm.anchors != [] {
      AnchorChainOk(g2, c, cm.anchors);
      assert g3.store.conns[..c] == g2.store.conns[..c];
    } else {
      assert Iota(a0, 0) == [];
      assert g.anchors + [] == g.anchors && g.store.anchors + [] == g.store.anchors;
    }
    ElemLinkOk(g3, e, c);
  }

  /** Listing connection c with element e keeps the circuit closed and c in the store. */
  lemma ElemLinkOk(g: Graph, e: nat, c: nat)
    requires ListsIn(g) && ConnIn(g.store, c) && e < |g.store.elems|
    ensures var st := g.store;
      var r := g.(store := st.(elems := st.elems[e := st.elems[e].(connections := st.elems[e].connections + [c])]));
      ListsIn(r) && ConnIn(r.store, c)
  {
    var C := g.store.conns[c];
    assert forall i :: 0 <= i < |C.wires| ==> WireIn(g.store, C.wires[i]);
  }

  /** Wires laid out as `ChainWires` through distinct anchors form the connection's path, wire by wire in list order, stopping at the anchors in their order. */
  lemma ChainWiresPath(C: ConnRec, d: Point)
    requires Distinct(C.anchors) && EndsLike(C.wires, ChainWires(C.origin, C.dest, d, C.anchors))
    ensures PathThrough(C, Iota(0, |C.wires|)) && Stops(PathEnds(C.wires, Iota(0, |C.wires|))) == C.anchors
  {
    var k := |C.anchors|;
    var ord := Iota(0, k + 1);
    IotaOrder(k + 1);
    var hs := PathEnds(C.wires, ord);
    ChainWiresHops(C, d, hs);
  }

  /** The handles 0..n-1 in increasing order are an order of n wires. */
  lemma IotaOrder(n: nat)
    requires n >= 1
    ensures Order(Iota(0, n), n)
  {
    var ord := Iota(0, n);
    forall j | 0 <= j < n
      ensures j in ord
    {
      assert ord[j] == j;
    }
  }

  /** The ends of wires laid out as `ChainWires`, in list order, form a chain stopping at the anchors. */
  lemma ChainWiresHops(C: ConnRec, d: Point, hs: seq<Hop>)
    requires EndsLike(C.wires, ChainWires(C.origin, C.dest, d, C.anchors))
    requires |hs| == |C.wires| && forall i :: 0 <= i < |hs| ==> hs[i] == (C.wires[i].origin, C.wires[i].dest)
    ensures Chained(hs, C.origin, C.dest) && Stops(hs) == C.anchors
  {
    var cw := ChainWires(C.origin, C.dest, d, C.anchors);
    assert forall i :: 0 <= i < |hs| ==> hs[i] == (cw[i].origin, cw[i].dest);
    assert forall i :: 0 <= i < |hs| - 1 ==> hs[i].1 == AnchorEnd(C.anchors[i]);
  }

  /** The memento of a connection whose path stops at anchors placed at pts, in order, records exactly pts. */
  lemma CapturedChain(st: Store, C: ConnRec, pts: seq<Point>)
    requires C.dest < |st.nodes| && forall a :: a in C.anchors ==> a < |st.anchors|
    requires PathThrough(C, Iota(0, |C.wires|)) && Stops(PathEnds(C.wires, Iota(0, |C.wires|))) == C.anchors
    requires |pts| == |C.anchors| && forall i :: 0 <= i < |pts| ==> C.anchors[i] < |st.anchors| && st.anchors[C.anchors[i]].pos == pts[i]
    ensures Captured(st, C, ConnMemento(st.nodes[C.dest].idx, pts, C.wires[0].d))
  {
    forall ord | PathThrough(C, ord)
      ensures ord == Iota(0, |C.wires|)
    {
      PathUnique(C, ord, Iota(0, |C.wires|));
    }
  }

  /**
   * A loaded connection forms a path through its new anchors in saved order,
   * and capturing it again records the saved anchor points and d, with the
   * index its destination now carries; for a destination saved among the
   * loaded nodes that index is the saved one, so the memento comes back
   * unchanged.
   */
  lemma SetupConnectionRoundTrip(g: Graph, e: nat, cm: ConnMemento, nis: seq<int>, gis: seq<int>)
    requires ListsIn(g) && e < |g.store.elems| && Findable(g, cm.dest, nis, gis)
    ensures var r := SetupConnectionSpec(g, e, cm, nis, gis); var c := |g.store.conns|;
      ConnIn(r.store, c) && PathThrough(r.store.conns[c], Iota(0, |cm.anchors| + 1)) &&
      Captured(r.store, r.store.conns[c], ConnMemento(r.store.nodes[r.store.conns[c].dest].idx, cm.anchors, cm.d))
    ensures Kinded(g) && Aligned(g, nis) && cm.dest in nis ==>
      var r := SetupConnectionSpec(g, e, cm, nis, gis); var c := |g.store.conns|;
      ConnIn(r.store, c) && Captured(r.store, r.store.conns[c], cm)
  {
    var r := SetupConnectionSpec(g, e, cm, nis, gis);
    var n, c, a0 := DestOf(g, cm.dest, nis, gis), |g.store.conns|, |g.store.anchors|;
    SetupConnectionShape(g, e, cm, nis, gis);
    var C := r.store.conns[c];
    forall i | 0 <= i < |cm.anchors|
      ensures r.store.anchors[a0 + i].pos == cm.anchors[i]
    {
      assert r.store.anchors[a0 + i] == AnchorRecs(cm.anchors, c)[i];
    }
    ChainCaptured(r.store, C, a0, cm.anchors, cm.d);
    if Kinded(g) && Aligned(g, nis) && cm.dest in nis {
      DestRoundTrip(g, cm.dest, nis, gis);
    }
  }

  /** A connection laid out as `ChainWires` through fresh anchors holding the saved points is captured as those points and d. */
  lemma ChainCaptured(st: Store, C: ConnRec, a0: nat, pts: seq<Point>, d: Point)
    requires C.dest < |st.nodes| && a0 + |pts| <= |st.anchors| && C.anchors == Iota(a0, |pts|)
    requires EndsLike(C.wires, ChainWires(C.origin, C.dest, d, C.anchors))
    requires forall i :: 0 <= i < |pts| ==> st.anchors[a0 + i].pos == pts[i]
    ensures PathThrough(C, Iota(0, |pts| + 1)) && Captured(st, C, ConnMemento(st.nodes[C.dest].idx, pts, d))
  {
    ChainWiresPath(C, d);
    forall i | 0 <= i < |pts|
      ensures C.anchors[i] < |st.anchors| && st.anchors[C.anchors[i]].pos == pts[i]
    {
      assert C.anchors[i] == a0 + i;
    }
    CapturedChain(st, C, pts);
  }

  /** `_setup_connection` on a circuit, in the source's order. */
  method SetupConnection(circ: Circuit, e: nat, cm: ConnMemento, nis: seq<int>, gis: seq<int>) returns (c: nat)
    requires circ.Valid() && e < |circ.heap.elems| && Findable(circ.State(), cm.dest, nis, gis)
    modifies circ, circ.heap
    ensures c == old(|circ.heap.conns|)
    ensures circ.Valid() && circ.State() == SetupConnectionSpec(old(circ.State()), e, cm, nis, gis)
  {
    ghost var g := circ.State();
    SetupConnectionShape(g, e, cm, nis, gis);
    var n := FindDest(circ, cm.dest, nis, gis);
    c := ConnectDest(circ, e, n, cm.d);
    if cm.anchors != [] {
      AnchorChain(circ, c, cm.anchors);
    }
    ElemTakesConn(circ, e, c);
  }

  /** `new_element.connections.append(new_conn)`. */
  method ElemTakesConn(circ: Circuit, e: nat, c: nat)
    requires circ.Valid() && e < |circ.heap.elems|
    modifies circ.heap
    ensures circ.Valid() && var g := old(circ.State()); var st := g.store;
      circ.State() == g.(store := st.(elems := st.elems[e := st.elems[e].(connections := st.elems[e].connections + [c])]))
  {
    circ.heap.elems := circ.heap.elems[e := circ.heap.elems[e].(connections := circ.heap.elems[e].connections + [c])];
  }

  /** The lookup of `_setup_connection`: the saved index among the nodes, failing that among the grounds. */
  method FindDest(circ: Circuit, x: int, nis: seq<int>, gis: seq<int>) returns (n: nat)
    requires circ.Valid() && Findable(circ.State(), x, nis, gis)
    ensures n == DestOf(circ.State(), x, nis, gis) && n < |circ.heap.nodes|
  {
    BelowAt(circ.nodes, |circ.heap.nodes|);
    BelowAt(circ.grounds, |circ.heap.nodes|);
    if x in nis && IndexOf(nis, x) < |circ.nodes| {
      n := circ.nodes[IndexOf(nis, x)];
    } else {
      n := circ.grounds[IndexOf(gis, x)];
    }
  }

  /** `Connection(new_element, node, d, self)` followed by `node.connections.append(new_conn)`. */
  method ConnectDest(circ: Circuit, e: nat, n: nat, d: Point) returns (c: nat)
    requires circ.Valid() && e < |circ.heap.elems| && n < |circ.heap.nodes|
    modifies circ, circ.heap
    ensures c == old(|circ.heap.conns|)
    ensures circ.Valid() && circ.State() == ConnectTo(old(circ.State()), e, n, d)
    ensures ConnIn(circ.heap.Contents(), c) && var C := circ.heap.conns[c];
      C.anchors == [] && |C.wires| == 1 && C.wires[0].origin == ElementEnd(C.origin)
  {
    ghost var g := circ.State();
    c := NewConnection(circ, e, n, d);
    circ.heap.nodes := circ.heap.nodes[n := circ.heap.nodes[n].(connections := circ.heap.nodes[n].connections + [c])];
    ConnectToOk(g, e, n, d);
  }

  /** The part of `_setup_connection` for saved anchor points: the anchors, then the chain of wires through them. */
  method AnchorChain(circ: Circuit, c: nat, pts: seq<Point>)
    requires circ.Valid() && ConnIn(circ.heap.Contents(), c) && pts != []
    requires var C := circ.heap.conns[c]; C.anchors == [] && |C.wires| == 1 && C.wires[0].origin == ElementEnd(C.origin)
    modifies circ, circ.heap
    ensures (AnchorChainOk(old(circ.State()), c, pts);
      var ga := AddAnchorsSpec(old(circ.State()), c, pts);
      circ.Valid() && circ.State() == ga.(store := ChainStore(ga.store, c)))
  {
    ghost var g := circ.State();
    AnchorChainOk(g, c, pts);
    AddAnchors(circ, c, pts);
    ChainUp(circ.heap, c);
  }

  /** The anchor loop of `_setup_connection`: each `Anchor(pt, circuit, conn)` registers itself, then joins the connection's anchors. */
  method AddAnchors(circ: Circuit, c: nat, pts: seq<Point>)
    requires circ.Valid() && c < |circ.heap.conns|
    modifies circ, circ.heap
    ensures circ.Valid() && circ.State() == AddAnchorsSpec(old(circ.State()), c, pts)
  {
    ghost var g := circ.State();
    ghost var a0 := |circ.heap.anchors|;
    var i := 0;
    assert AddAnchorsSpec(g, c, pts[..0]) == g by {
      assert Iota(a0, 0) == [] && AnchorRecs(pts[..0], c) == [];
      assert g.anchors + [] == g.anchors && g.store.anchors + [] == g.store.anchors;
      assert g.store.conns[c].anchors + [] == g.store.conns[c].anchors;
    }
    while i < |pts|
      invariant 0 <= i <= |pts| && circ.Valid() && |circ.heap.anchors| == a0 + i
      invariant circ.State() == AddAnchorsSpec(g, c, pts[..i])
    {
      assert Iota(a0, i + 1) == Iota(a0, i) + [a0 + i];
      assert AnchorRecs(pts[..i + 1], c) == AnchorRecs(pts[..i], c) + [AnchorRec(pts[i], c)];
      ghost var want := AddAnchorsSpec(g, c, pts[..i + 1]);
      var a := |circ.heap.anchors|;
      circ.heap.anchors := circ.heap.anchors + [AnchorRec(pts[i], c)];
      assert circ.heap.anchors == want.store.anchors;
      circ.AddAnchor(a);
      assert circ.anchors == want.anchors;
      circ.heap.conns := circ.heap.conns[c := circ.heap.conns[c].(anchors := circ.heap.conns[c].anchors + [a])];
      assert g.store.conns[c].anchors + Iota(a0, i) + [a] == g.store.conns[c].anchors + Iota(a0, i + 1);
      assert circ.heap.conns == want.store.conns;
      i := i + 1;
    }
    assert pts[..i] == pts;
  }

  /** The wire part of `_setup_connection`: the first wire redirected to the first anchor, one wire per pair of consecutive anchors, one from the last anchor to the destination, then `rewire`. */
  method ChainUp(heap: Heap, c: nat)
    requires c < |heap.conns| && var C := heap.conns[c];
      C.origin < |heap.elems| && C.dest < |heap.nodes| && (forall i :: 0 <= i < |C.anchors| ==> C.anchors[i] < |heap.anchors|) &&
      |C.anchors| >= 1 && |C.wires| == 1 && C.wires[0].origin == ElementEnd(C.origin)
    modifies heap
    ensures heap.Contents() == ChainStore(old(heap.Contents()), c)
  {
    var st := heap.Contents();
    var C := heap.conns[c];
    var ks := C.anchors;
    ghost var want := ChainWires(C.origin, C.dest, C.wires[0].d, ks);
    ChainWiresIn(st, C.origin, C.dest, C.wires[0].d, ks);
    var ws := [C.wires[0].(dest := AnchorEnd(ks[0]))];
    var i := 0;
    while i < |ks| - 1
      invariant 0 <= i <= |ks| - 1 && |ws| == i + 1 && heap.Contents() == st
      invariant forall j :: 0 <= j < |ws| ==> ws[j].origin == want[j].origin && ws[j].dest == want[j].dest && ws[j].d == want[j].d
    {
      var w := NewWire(st, AnchorEnd(ks[i]), AnchorEnd(ks[i + 1]), Point(0, 0));
      ws := ws + [w];
      i := i + 1;
    }
    var w := NewWire(st, AnchorEnd(ks[|ks| - 1]), NodeEnd(C.dest), Point(0, 0));
    ws := ws + [w];
    assert EndsLike(ws, want);
    RewireAllEndsLike(st, ws, want);
    heap.conns := heap.conns[c := C.(wires := ws)];
    RewireAllPlaces(st, heap.Contents(), ws);
    RewireConnection(heap, c);
  }

  // ---------------------------------------------------------------------
  // load and restore

  /** The saved indices of a list of node mementos, in order (`[node.idx for node in ...]`). */
  function SavedIdxs(ms: seq<NodeMemento>): (r: seq<int>)
    ensures |r| == |ms| && forall i :: 0 <= i < |ms| ==> r[i] == ms[i].idx
  {
    seq(|ms|, i requires 0 <= i < |ms| => ms[i].idx)
  }

  /** `load` up to the elements: the saved node and ground indices recorded, then the nodes and the grounds loaded. */
  function LoadSpec(g: Graph, m: CircuitMemento): (Graph, seq<int>, seq<int>)
  {
    (LoadGrounds(LoadNodes(g, m.nodes), m.grounds), SavedIdxs(m.nodes), SavedIdxs(m.grounds))
  }

  /**
   * Loading onto a cleared circuit lists one loaded node per node memento
   * and one ground per ground memento, in saved order, with the saved node
   * indices aligned to the nodes (so `_setup_nodes` and `_setup_connection`
   * find the node each index was saved for); the numbering is dense when the
   * saved indices were 1..N.
   */
  lemma LoadRestores(g: Graph, m: CircuitMemento)
    requires ListsIn(g) && Kinded(g) && g.nodes == [] && g.grounds == []
    ensures var r, nis := LoadSpec(g, m).0, LoadSpec(g, m).1;
      ListsIn(r) && Kinded(r) && |r.nodes| == |m.nodes| && |r.grounds| == |m.grounds| && Aligned(r, nis) &&
      (forall i :: 0 <= i < |m.nodes| ==> r.nodes[i] < |r.store.nodes| && r.store.nodes[r.nodes[i]] == Loaded(m.nodes[i], false)) &&
      (forall j :: 0 <= j < |m.grounds| ==> r.grounds[j] < |r.store.nodes| && r.store.nodes[r.grounds[j]] == Loaded(m.grounds[j], true)) &&
      ((forall i :: 0 <= i < |m.nodes| ==> m.nodes[i].idx == i + 1) ==> Dense(r))
  {
    var h := LoadNodes(g, m.nodes);
    LoadNodesEffect(g, m.nodes);
    LoadGroundsEffect(h, m.grounds);
    var r := LoadGrounds(h, m.grounds);
    LoadedNodesKept(g, h, r, m.nodes);
    LoadedGroundsListed(h, r, m.grounds);
  }

  /** The grounds loaded after the nodes are listed in saved order. */
  lemma LoadedGroundsListed(h: Graph, r: Graph, ms: seq<NodeMemento>)
    requires h.grounds == [] && r.grounds == Iota(|h.store.nodes|, |ms|) && |r.store.nodes| == |h.store.nodes| + |ms|
    requires forall i :: 0 <= i < |ms| ==> r.store.nodes[|h.store.nodes| + i] == NodeRec(true, 0, SnapPoint(ms[i].loc), Turns(ms[i].rot) % 4, [], [])
    ensures |r.grounds| == |ms|
    ensures forall j :: 0 <= j < |ms| ==> r.grounds[j] < |r.store.nodes| && r.store.nodes[r.grounds[j]] == Loaded(ms[j], true)
  {
  }

  /** The nodes loaded first keep their records while the grounds are loaded. */
  lemma LoadedNodesKept(g: Graph, h: Graph, r: Graph, ms: seq<NodeMemento>)
    requires LoadFrame(h, r) && r.nodes == h.nodes && |h.store.nodes| == |g.store.nodes| + |ms|
    requires h.nodes == g.nodes + Iota(|g.store.nodes|, |ms|) && g.nodes == []
    requires forall i :: 0 <= i < |ms| ==> h.store.nodes[|g.store.nodes| + i] == Loaded(ms[i], false)
    ensures |r.nodes| == |ms| && Aligned(r, SavedIdxs(ms))
    ensures forall i :: 0 <= i < |ms| ==> r.nodes[i] < |r.store.nodes| && r.store.nodes[r.nodes[i]] == Loaded(ms[i], false)
    ensures (forall i :: 0 <= i < |ms| ==> ms[i].idx == i + 1) ==> Dense(r)
  {
    var n0 := |g.store.nodes|;
    forall i | 0 <= i < |ms|
      ensures r.nodes[i] < |r.store.nodes| && r.store.nodes[r.nodes[i]] == Loaded(ms[i], false)
    {
      assert r.nodes[i] == n0 + i;
      assert r.store.nodes[n0 + i] == r.store.nodes[..|h.store.nodes|][n0 + i];
    }
  }

  /** The memento `NodeMemento` takes of a record. */
  function MementoOf(rec: NodeRec): (r: NodeMemento)
    ensures r.idx == rec.idx && r.loc == rec.pos && r.rot == rec.rot
  {
    NodeMemento(rec.idx, rec.pos, rec.rot)
  }

  /**
   * Saving a loaded record gives the memento back: for a node whose saved
   * location is on the grid and whose turns are 0 (`_load_nodes` does not
   * restore turns), and for a ground on the grid with turns in 0..3 up to its
   * index, which a ground keeps at 0.
   */
  lemma LoadedRoundTrip(m: NodeMemento)
    requires OnGrid(m.loc)
    ensures m.rot == 0 ==> MementoOf(Loaded(m, false)) == m
    ensures 0 <= m.rot < 4 ==> MementoOf(Loaded(m, true)) == m.(idx := 0)
  {
    OnGridFixed(m.loc);
  }

  /**
   * Capture followed by load onto a cleared circuit: the loaded nodes are
   * numbered densely again, and every node and ground, read back through
   * `NodeMemento`, is the one that was saved, in the same list position,
   * provided positions are on the grid, nodes are unturned and ground turns
   * lie in 0..3.
   */
  lemma CaptureLoadRoundTrip(g: Graph, h: Graph, m: CircuitMemento)
    requires ListsIn(g) && Kinded(g) && Dense(g) && GroundsAtZero(g)
    requires forall i :: 0 <= i < |g.nodes| ==> OnGrid(g.store.nodes[g.nodes[i]].pos) && g.store.nodes[g.nodes[i]].rot == 0
    requires forall j :: 0 <= j < |g.grounds| ==> OnGrid(g.store.nodes[g.grounds[j]].pos) && 0 <= g.store.nodes[g.grounds[j]].rot < 4
    requires var t := Tagged(g.store.nodes, g.grounds, |g.nodes| + 5);
      m.nodes == NodeMementos(t, g.nodes) && m.grounds == NodeMementos(t, g.grounds)
    requires ListsIn(h) && Kinded(h) && h.nodes == [] && h.grounds == []
    ensures var r := LoadSpec(h, m).0;
      Dense(r) && |r.nodes| == |g.nodes| && |r.grounds| == |g.grounds| &&
      (forall i :: 0 <= i < |g.nodes| ==>
        r.nodes[i] < |r.store.nodes| && MementoOf(r.store.nodes[r.nodes[i]]) == MementoOf(g.store.nodes[g.nodes[i]])) &&
      (forall j :: 0 <= j < |g.grounds| ==>
        r.grounds[j] < |r.store.nodes| && MementoOf(r.store.nodes[r.grounds[j]]) == MementoOf(g.store.nodes[g.grounds[j]]))
  {
    CaptureLoadNodes(g, h, m);
    CaptureLoadGrounds(g, h, m);
  }

  /** The node half of `CaptureLoadRoundTrip`. */
  lemma CaptureLoadNodes(g: Graph, h: Graph, m: CircuitMemento)
    requires ListsIn(g) && Kinded(g) && Dense(g) && GroundsAtZero(g)
    requires forall i :: 0 <= i < |g.nodes| ==> OnGrid(g.store.nodes[g.nodes[i]].pos) && g.store.nodes[g.nodes[i]].rot == 0
    requires forall j :: 0 <= j < |g.grounds| ==> OnGrid(g.store.nodes[g.grounds[j]].pos) && 0 <= g.store.nodes[g.grounds[j]].rot < 4
    requires var t := Tagged(g.store.nodes, g.grounds, |g.nodes| + 5);
      m.nodes == NodeMementos(t, g.nodes) && m.grounds == NodeMementos(t, g.grounds)
    requires ListsIn(h) && Kinded(h) && h.nodes == [] && h.grounds == []
    ensures var r := LoadSpec(h, m).0;
      Dense(r) && |r.nodes| == |g.nodes| &&
      (forall i :: 0 <= i < |g.nodes| ==>
        r.nodes[i] < |r.store.nodes| && MementoOf(r.store.nodes[r.nodes[i]]) == MementoOf(g.store.nodes[g.nodes[i]]))
  {
    CaptureLoadDense(g, h, m);
    CaptureLoadNodesBack(g, h, m);
  }

  lemma CaptureLoadDense(g: Graph, h: Graph, m: CircuitMemento)
    requires ListsIn(g) && Kinded(g) && Dense(g) && GroundsAtZero(g)
    requires forall i :: 0 <= i < |g.nodes| ==> OnGrid(g.store.nodes[g.nodes[i]].pos) && g.store.nodes[g.nodes[i]].rot == 0
    requires forall j :: 0 <= j < |g.grounds| ==> OnGrid(g.store.nodes[g.grounds[j]].pos) && 0 <= g.store.nodes[g.grounds[j]].rot < 4
    requires var t := Tagged(g.store.nodes, g.grounds, |g.nodes| + 5);
      m.nodes == NodeMementos(t, g.nodes) && m.grounds == NodeMementos(t, g.grounds)
    requires ListsIn(h) && Kinded(h) && h.nodes == [] && h.grounds == []
    ensures var r := LoadSpec(h, m).0; Dense(r) && |r.nodes| == |g.nodes|
  {
    CaptureIndicesApart(g);
    LoadRestores(h, m);
  }

  lemma CaptureLoadNodesBack(g: Graph, h: Graph, m: CircuitMemento)
    requires ListsIn(g) && Kinded(g) && Dense(g) && GroundsAtZero(g)
    requires forall i :: 0 <= i < |g.nodes| ==> OnGrid(g.store.nodes[g.nodes[i]].pos) && g.store.nodes[g.nodes[i]].rot == 0
    requires forall j :: 0 <= j < |g.grounds| ==> OnGrid(g.store.nodes[g.grounds[j]].pos) && 0 <= g.store.nodes[g.grounds[j]].rot < 4
    requires var t := Tagged(g.store.nodes, g.grounds, |g.nodes| + 5);
      m.nodes == NodeMementos(t, g.nodes) && m.grounds == NodeMementos(t, g.grounds)
    requires ListsIn(h) && Kinded(h) && h.nodes == [] && h.grounds == []
    ensures var r := LoadSpec(h, m).0;
      |r.nodes| == |g.nodes| &&
      forall i :: 0 <= i < |g.nodes| ==>
        r.nodes[i] < |r.store.nodes| && MementoOf(r.store.nodes[r.nodes[i]]) == MementoOf(g.store.nodes[g.nodes[i]])
  {
    var t := Tagged(g.store.nodes, g.grounds, |g.nodes| + 5);
    TaggedEffect(g.store.nodes, g.grounds, |g.nodes| + 5);
    LoadRestores(h, m);
    var r := LoadSpec(h, m).0;
    forall i | 0 <= i < |g.nodes|
      ensures t[g.nodes[i]] == g.store.nodes[g.nodes[i]]
    {
      assert g.nodes[i] in g.nodes;
    }
    NodesBack(g.store.nodes, g.nodes, t, m.nodes, r.store.nodes, r.nodes);
  }

  /** Nodes saved untouched and loaded back read back as they were saved. */
  lemma NodesBack(recs: seq<NodeRec>, ns: seq<nat>, t: seq<NodeRec>, ms: seq<NodeMemento>, rs: seq<NodeRec>, rn: seq<nat>)
    requires |t| == |recs| && |rn| == |ns| && forall i :: 0 <= i < |ns| ==> ns[i] < |recs|
    requires forall i :: 0 <= i < |ns| ==> t[ns[i]] == recs[ns[i]] && OnGrid(recs[ns[i]].pos) && recs[ns[i]].rot == 0
    requires ms == NodeMementos(t, ns)
    requires forall i :: 0 <= i < |ns| ==> rn[i] < |rs| && rs[rn[i]] == Loaded(ms[i], false)
    ensures forall i :: 0 <= i < |ns| ==> MementoOf(rs[rn[i]]) == MementoOf(recs[ns[i]])
  {
    forall i | 0 <= i < |ns|
      ensures MementoOf(rs[rn[i]]) == MementoOf(recs[ns[i]])
    {
      LoadedRoundTrip(ms[i]);
    }
  }

  /** The ground half of `CaptureLoadRoundTrip`. */
  lemma CaptureLoadGrounds(g: Graph, h: Graph, m: CircuitMemento)
    requires ListsIn(g) && Kinded(g) && Dense(g) && GroundsAtZero(g)
    requires forall i :: 0 <= i < |g.nodes| ==> OnGrid(g.store.nodes[g.nodes[i]].pos) && g.store.nodes[g.nodes[i]].rot == 0
    requires forall j :: 0 <= j < |g.grounds| ==> OnGrid(g.store.nodes[g.grounds[j]].pos) && 0 <= g.store.nodes[g.grounds[j]].rot < 4
    requires var t := Tagged(g.store.nodes, g.grounds, |g.nodes| + 5);
      m.nodes == NodeMementos(t, g.nodes) && m.grounds == NodeMementos(t, g.grounds)
    requires ListsIn(h) && Kinded(h) && h.nodes == [] && h.grounds == []
    ensures var r := LoadSpec(h, m).0;
      |r.grounds| == |g.grounds| &&
      (forall j :: 0 <= j < |g.grounds| ==>
        r.grounds[j] < |r.store.nodes| && MementoOf(r.store.nodes[r.grounds[j]]) == MementoOf(g.store.nodes[g.grounds[j]]))
  {
    var t := Tagged(g.store.nodes, g.grounds, |g.nodes| + 5);
    TaggedEffect(g.store.nodes, g.grounds, |g.nodes| + 5);
    LoadRestores(h, m);
    var r := LoadSpec(h, m).0;
    GroundsBack(g.store.nodes, g.grounds, t, m.grounds, r.store.nodes, r.grounds);
  }

  /** Grounds saved with a temporary index and loaded back read back as they were, at index 0. */
  lemma GroundsBack(recs: seq<NodeRec>, gs: seq<nat>, t: seq<NodeRec>, ms: seq<NodeMemento>, rs: seq<NodeRec>, rg: seq<nat>)
    requires |t| == |recs| && |rg| == |gs| && forall j :: 0 <= j < |gs| ==> gs[j] < |recs|
    requires forall h :: 0 <= h < |recs| ==> t[h] == recs[h].(idx := t[h].idx)
    requires forall j :: 0 <= j < |gs| ==> recs[gs[j]].idx == 0 && OnGrid(recs[gs[j]].pos) && 0 <= recs[gs[j]].rot < 4
    requires ms == NodeMementos(t, gs)
    requires forall j :: 0 <= j < |gs| ==> rg[j] < |rs| && rs[rg[j]] == Loaded(ms[j], true)
    ensures forall j :: 0 <= j < |gs| ==> MementoOf(rs[rg[j]]) == MementoOf(recs[gs[j]])
  {
    forall j | 0 <= j < |gs|
      ensures MementoOf(rs[rg[j]]) == MementoOf(recs[gs[j]])
    {
      assert t[gs[j]] == recs[gs[j]].(idx := t[gs[j]].idx);
      LoadedRoundTrip(ms[j]);
    }
  }

  /** `load` on a circuit: record the saved indices, then `_load_nodes` and `_load_grounds`. */
  method Load(circ: Circuit, m: CircuitMemento) returns (nis: seq<int>, gis: seq<int>)
    requires circ.Valid()
    modifies circ, circ.heap
    ensures circ.Valid() && (circ.State(), nis, gis) == LoadSpec(old(circ.State()), m)
  {
    nis := [];
    var i := 0;
    while i < |m.nodes|
      invariant 0 <= i <= |m.nodes| && nis == SavedIdxs(m.nodes[..i])
    {
      nis := nis + [m.nodes[i].idx];
      i := i + 1;
    }
    assert m.nodes[..i] == m.nodes;
    gis := [];
    i := 0;
    while i < |m.grounds|
      invariant 0 <= i <= |m.grounds| && gis == SavedIdxs(m.grounds[..i])
    {
      gis := gis + [m.grounds[i].idx];
      i := i + 1;
    }
    assert m.grounds[..i] == m.grounds;
    LoadNodesM(circ, m.nodes);
    LoadGroundsM(circ, m.grounds);
  }

  /** `_load_nodes`: each node created at the saved location, then given the saved index. */
  method LoadNodesM(circ: Circuit, ms: seq<NodeMemento>)
    requires circ.Valid()
    modifies circ, circ.heap
    ensures circ.Valid() && circ.State() == LoadNodes(old(circ.State()), ms)
  {
    ghost var g := circ.State();
    var i := 0;
    assert ms[..0] == [];
    while i < |ms|
      invariant 0 <= i <= |ms| && circ.Valid() && circ.State() == LoadNodes(g, ms[..i])
    {
      assert ms[..i + 1][..i] == ms[..i];
      var n := NewNode(circ, ms[i].loc);
      circ.heap.nodes := circ.heap.nodes[n := circ.heap.nodes[n].(idx := ms[i].idx)];
      i := i + 1;
    }
    assert ms[..i] == ms;
  }

  /** `_load_grounds`: each ground created at the saved location, then rotated the saved number of times. */
  method LoadGroundsM(circ: Circuit, ms: seq<NodeMemento>)
    requires circ.Valid()
    modifies circ, circ.heap
    ensures circ.Valid() && circ.State() == LoadGrounds(old(circ.State()), ms)
  {
    ghost var g := circ.State();
    var i := 0;
    assert ms[..0] == [];
    while i < |ms|
      invariant 0 <= i <= |ms| && circ.Valid() && circ.State() == LoadGrounds(g, ms[..i])
    {
      assert ms[..i + 1][..i] == ms[..i];
      var n := NewGround(circ, ms[i].loc);
      RotateTimes(circ, n, ms[i].rot);
      i := i + 1;
    }
    assert ms[..i] == ms;
  }

  /** `for i in range(k): record.rotate()` on record n: its counter advances k times. */
  method RotateTimes(circ: Circuit, n: nat, k: int)
    requires circ.Valid() && n < |circ.heap.nodes|
    modifies circ.heap
    ensures circ.Valid()
    ensures var g := old(circ.State());
      circ.State() == g.(store := g.store.(nodes := g.store.nodes[n := g.store.nodes[n].(rot := Rotations(g.store.nodes[n].rot, Turns(k)))]))
  {
    ghost var g := circ.State();
    var j := 0;
    while j < k
      invariant 0 <= j <= Turns(k) && circ.Valid()
      invariant circ.State() == g.(store := g.store.(nodes := g.store.nodes[n := g.store.nodes[n].(rot := Rotations(g.store.nodes[n].rot, j))]))
    {
      circ.heap.nodes := circ.heap.nodes[n := circ.heap.nodes[n].(rot := NextRot(circ.heap.nodes[n].rot))];
      j := j + 1;
    }
  }

  /** `restore`: `clear`, then `load`. */
  method Restore(circ: Circuit, m: CircuitMemento) returns (nis: seq<int>, gis: seq<int>)
    requires circ.Valid()
    modifies circ, circ.heap
    ensures circ.Valid() && (circ.State(), nis, gis) == LoadSpec(old(circ.State()).(elements := [], nodes := [], grounds := [], connections := [], anchors := []), m)
  {
    circ.Clear();
    nis, gis := Load(circ, m);
  }
}
