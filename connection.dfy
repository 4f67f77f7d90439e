/**
 * `Connection`, `Wire`, `Link` and `Anchor` of the current engine
 * (sccircuitbuilder/connection.py).
 *
 * A connection leads from its origin element to its destination node along
 * a chain of wires through its anchors. The model states that shape as
 * `Chain`: some ordering of the wires forms a path whose intermediate stops
 * are exactly the connection's anchors, each once. A fresh connection has
 * it, pressing on a wire keeps it, removing an anchor keeps it, rerouting
 * keeps it; `change_dest` as written redirects the last wire of the list,
 * which after some presses is not the last wire of the path
 * (`RedirectAfterPressBreaksChain`); `ChangeDestOnPath` redirects the wire
 * that ends at the destination and keeps the chain.
 */
module Connections {
  import opened Geometry
  import opened Routing
  import opened Lists
  import opened Records
  import opened Paths
  import opened Circuits

  /** Connection c exists, and its ends, anchors and wires name records of the store. */
  predicate ConnIn(st: Store, c: nat)
  {
    c < |st.conns| && st.conns[c].origin < |st.elems| && st.conns[c].dest < |st.nodes| &&
    (forall a :: a in st.conns[c].anchors ==> a < |st.anchors|) && WiresIn(st, c)
  }

  // ---------------------------------------------------------------------
  // The path of a connection

  /** The ends of the wires taken in the order ord. */
  function PathEnds(ws: seq<Wire>, ord: seq<nat>): (r: seq<Hop>)
    requires forall i :: 0 <= i < |ord| ==> ord[i] < |ws|
    ensures |r| == |ord|
    ensures forall i :: 0 <= i < |ord| ==> r[i] == (ws[ord[i]].origin, ws[ord[i]].dest)
  {
    seq(|ord|, i requires 0 <= i < |ord| => (ws[ord[i]].origin, ws[ord[i]].dest))
  }

  /** ord visits each of the n wires once and starts with wire 0, the one `Connection.__init__` creates. */
  predicate Order(ord: seq<nat>, n: nat)
  {
    |ord| == n && n >= 1 && ord[0] == 0 && Distinct(ord) &&
    (forall i :: 0 <= i < n ==> ord[i] < n) && (forall j :: 0 <= j < n ==> j in ord)
  }

  /** Taken in the order ord, the wires run from the origin element through every anchor once to the destination node. */
  predicate PathThrough(c: ConnRec, ord: seq<nat>)
  {
    Order(ord, |c.wires|) &&
    var hs := PathEnds(c.wires, ord);
    Chained(hs, c.origin, c.dest) && Distinct(Stops(hs)) && multiset(Stops(hs)) == multiset(c.anchors)
  }

  /** The shape every connection is meant to keep. */
  ghost predicate Chain(c: ConnRec)
  {
    exists ord :: PathThrough(c, ord)
  }

  /** A chained connection has one wire more than it has anchors. */
  lemma ChainCounts(c: ConnRec)
    requires Chain(c)
    ensures |c.wires| == |c.anchors| + 1
  {
    var ord: seq<nat> :| PathThrough(c, ord);
    var st := Stops(PathEnds(c.wires, ord));
    assert |multiset(st)| == |st|;
    assert |multiset(c.anchors)| == |c.anchors|;
  }

  /** On a path, the wires ending and starting at stop q are exactly the q-th and (q+1)-th wires of the path. */
  lemma StopNeighbours(c: ConnRec, ord: seq<nat>, q: nat)
    requires PathThrough(c, ord) && q + 1 < |ord|
    ensures var e := AnchorEnd(Stops(PathEnds(c.wires, ord))[q]);
      c.wires[ord[q]].dest == e && c.wires[ord[q + 1]].origin == e &&
      (forall j :: 0 <= j < |c.wires| && c.wires[j].dest == e ==> j == ord[q]) &&
      (forall j :: 0 <= j < |c.wires| && c.wires[j].origin == e ==> j == ord[q + 1])
  {
    var hs := PathEnds(c.wires, ord);
    var st := Stops(hs);
    var e := AnchorEnd(st[q]);
    assert hs[q].1 == e;
    forall j | 0 <= j < |c.wires| && c.wires[j].dest == e
      ensures j == ord[q]
    {
      assert j in ord;
      var k := IndexOf(ord, j);
      assert hs[k].1 == e;
      if k + 1 < |ord| {
        assert st[k] == Handle(hs[k].1);
      }
    }
    forall j | 0 <= j < |c.wires| && c.wires[j].origin == e
      ensures j == ord[q + 1]
    {
      assert j in ord;
      var k := IndexOf(ord, j);
      assert hs[k].0 == e;
      if k > 0 {
        assert hs[k - 1].1 == hs[k].0;
        assert st[k - 1] == Handle(hs[k - 1].1);
      }
    }
  }

  /** The path of a chained connection is unique: it must follow, from wire 0, the one wire starting where the previous one ends. */
  lemma {:induction false} PathUnique(c: ConnRec, o1: seq<nat>, o2: seq<nat>)
    requires PathThrough(c, o1) && PathThrough(c, o2)
    ensures o1 == o2
  {
    var hs1, hs2 := PathEnds(c.wires, o1), PathEnds(c.wires, o2);
    var i := 0;
    while i + 1 < |o1|
      invariant 0 <= i < |o1| && o1[..i + 1] == o2[..i + 1]
    {
      assert o1[i] == o2[i] by { assert o1[..i + 1][i] == o2[..i + 1][i]; }
      StopNeighbours(c, o2, i);
      assert c.wires[o1[i + 1]].origin == hs1[i + 1].0 == hs1[i].1;
      assert o1[i + 1] == o2[i + 1];
      assert o1[..i + 2] == o1[..i + 1] + [o1[i + 1]];
      assert o2[..i + 2] == o2[..i + 1] + [o2[i + 1]];
      i := i + 1;
    }
    assert o1 == o1[..i + 1] && o2 == o2[..i + 1];
  }

  /** The wires of a chained connection end at its destination node or at one of its anchors. */
  lemma ChainDestsClosed(c: ConnRec, j: nat)
    requires Chain(c) && j < |c.wires|
    ensures c.wires[j].dest == NodeEnd(c.dest) || (c.wires[j].dest.AnchorEnd? && c.wires[j].dest.a in c.anchors)
  {
    var ord: seq<nat> :| PathThrough(c, ord);
    var hs := PathEnds(c.wires, ord);
    assert j in ord;
    var k := IndexOf(ord, j);
    HopEnds(hs, c.origin, c.dest, k);
    if hs[k].1 != NodeEnd(c.dest) {
      assert hs[k].1.a in multiset(Stops(hs));
    }
  }

  // ---------------------------------------------------------------------
  // Operations on a connection record

  /** `Connection.__init__`: no anchors, one wire from the origin element to the destination node. */
  function NewConn(st: Store, e: nat, n: nat, d: Point): (r: ConnRec)
    requires e < |st.elems| && n < |st.nodes|
  {
    ConnRec(e, n, d, [], [Rewired(st, Wire(ElementEnd(e), NodeEnd(n), d, [], 0))])
  }

  /** A new connection is a chain of its single wire. */
  lemma NewConnChained(st: Store, e: nat, n: nat, d: Point)
    requires e < |st.elems| && n < |st.nodes|
    ensures PathThrough(NewConn(st, e, n, d), [0])
  {
    var c := NewConn(st, e, n, d);
    assert Stops(PathEnds(c.wires, [0])) == [];
  }

  /** `Connection.rewire` on the wires: every wire routed again from its endpoints' current positions. */
  function RewireAll(st: Store, ws: seq<Wire>): (r: seq<Wire>)
    requires forall i :: 0 <= i < |ws| ==> WireIn(st, ws[i])
    ensures |r| == |ws|
    ensures forall i :: 0 <= i < |ws| ==>
      r[i].origin == ws[i].origin && r[i].dest == ws[i].dest && r[i].d == ws[i].d
  {
    seq(|ws|, i requires 0 <= i < |ws| && WireIn(st, ws[i]) => Rewired(st, ws[i]))
  }

  /** Rerouting changes no wire's ends, so the path stays a path. */
  lemma RewireKeepsPath(st: Store, c: ConnRec, ord: seq<nat>)
    requires PathThrough(c, ord)
    requires forall i :: 0 <= i < |c.wires| ==> WireIn(st, c.wires[i])
    ensures PathThrough(c.(wires := RewireAll(st, c.wires)), ord)
  {
    assert PathEnds(RewireAll(st, c.wires), ord) == PathEnds(c.wires, ord);
  }

  /** `press` on the wires, before the rewire: wire s now ends at anchor a, and a new wire with d = (0, 0) leads from a to where s ended. */
  function PressWires(ws: seq<Wire>, s: nat, a: nat): (r: seq<Wire>)
    requires s < |ws|
    ensures |r| == |ws| + 1 && r[s] == ws[s].(dest := AnchorEnd(a)) && r[|ws|] == Wire(AnchorEnd(a), ws[s].dest, Point(0, 0), [], 0)
    ensures forall j :: 0 <= j < |ws| && j != s ==> r[j] == ws[j]
  {
    ws[s := ws[s].(dest := AnchorEnd(a))] + [Wire(AnchorEnd(a), ws[s].dest, Point(0, 0), [], 0)]
  }

  /** `press` on the record: anchor a appended to the anchors, wire s split at it. */
  function PressConn(c: ConnRec, s: nat, a: nat): ConnRec
    requires s < |c.wires|
  {
    c.(anchors := c.anchors + [a], wires := PressWires(c.wires, s, a))
  }

  /** Inserting the new wire n right after wire s keeps an order of all wires. */
  lemma PressOrder(ord: seq<nat>, n: nat, p: nat)
    requires Order(ord, n) && p < n
    ensures Order(Inserted(ord, p + 1, n), n + 1)
  {
    InsertedFacts(ord, p + 1, n);
    assert n !in ord;
  }

  /** In the new order, the wires' ends are the old path with hop p split at a. */
  lemma PressEnds(c: ConnRec, ord: seq<nat>, s: nat, a: nat)
    requires Order(ord, |c.wires|) && s in ord
    ensures Order(Inserted(ord, IndexOf(ord, s) + 1, |c.wires|), |c.wires| + 1)
    ensures PathEnds(PressConn(c, s, a).wires, Inserted(ord, IndexOf(ord, s) + 1, |c.wires|))
      == SplitHop(PathEnds(c.wires, ord), IndexOf(ord, s), a)
  {
    var ws, n := c.wires, |c.wires|;
    var p := IndexOf(ord, s);
    var ord' := Inserted(ord, p + 1, n);
    PressOrder(ord, n, p);
    var ws' := PressConn(c, s, a).wires;
    var hs := PathEnds(ws, ord);
    var hs' := PathEnds(ws', ord');
    forall i | 0 <= i < |hs'|
      ensures hs'[i] == SplitHop(hs, p, a)[i]
    {
      if i < p {
        assert ord'[i] == ord[i] != s;
      } else if i == p {
      } else if i == p + 1 {
      } else {
        assert ord'[i] == ord[i - 1] != s;
      }
    }
  }

  /** Splitting a wire at a new anchor keeps the path, with the new wire right after the split one and the anchor as a new stop. */
  lemma PressKeepsPath(c: ConnRec, ord: seq<nat>, s: nat, a: nat)
    requires PathThrough(c, ord) && s < |c.wires| && a !in c.anchors
    ensures s in ord
    ensures PathThrough(PressConn(c, s, a), Inserted(ord, IndexOf(ord, s) + 1, |c.wires|))
  {
    assert s in ord;
    var p := IndexOf(ord, s);
    var hs := PathEnds(c.wires, ord);
    PressEnds(c, ord, s, a);
    SplitHopChained(hs, c.origin, c.dest, p, a);
    var st := Stops(hs);
    assert a !in st by { assert a !in multiset(c.anchors); }
    InsertedFacts(st, p, a);
  }

  /** The destination becomes node n, and so does the end of wire j. */
  function Redirect(c: ConnRec, j: nat, n: nat): ConnRec
    requires j < |c.wires|
  {
    c.(dest := n, wires := c.wires[j := c.wires[j].(dest := NodeEnd(n))])
  }

  /** Redirecting keeps the path exactly when the redirected wire is the last wire of the path. */
  lemma RedirectKeepsPath(c: ConnRec, ord: seq<nat>, j: nat, n: nat)
    requires PathThrough(c, ord) && j < |c.wires|
    ensures PathThrough(Redirect(c, j, n), ord) <==> j == ord[|ord| - 1]
  {
    var c' := Redirect(c, j, n);
    var hs, hs' := PathEnds(c.wires, ord), PathEnds(c'.wires, ord);
    if j == ord[|ord| - 1] {
      forall i | 0 <= i < |ord| - 1
        ensures hs'[i] == hs[i]
      {
        assert ord[i] != ord[|ord| - 1];
      }
      assert Stops(hs') == Stops(hs);
    } else {
      assert j in ord;
      var k := IndexOf(ord, j);
      assert k < |ord| - 1 && hs'[k].1 == NodeEnd(n);
    }
  }

  /** `change_dest` as written: the destination node and the end of the last wire in the list become n. */
  function ChangeDestConn(c: ConnRec, n: nat): ConnRec
    requires |c.wires| >= 1
  {
    Redirect(c, |c.wires| - 1, n)
  }

  /** `change_dest` as intended: the wire that ends at the destination node is the one redirected. */
  function ChangeDestOnPath(c: ConnRec, n: nat): ConnRec
  {
    var k := LastEndingAt(c.wires, NodeEnd(c.dest));
    if k >= 0 then Redirect(c, k, n) else c.(dest := n)
  }

  /** On a path only its last wire ends at the destination node. */
  lemma OnlyLastEndsAtDest(c: ConnRec, ord: seq<nat>)
    requires PathThrough(c, ord)
    ensures LastEndingAt(c.wires, NodeEnd(c.dest)) == ord[|ord| - 1]
  {
    var hs := PathEnds(c.wires, ord);
    forall j | 0 <= j < |c.wires| && c.wires[j].dest == NodeEnd(c.dest)
      ensures j == ord[|ord| - 1]
    {
      assert j in ord;
      var k := IndexOf(ord, j);
      assert hs[k].1 == NodeEnd(c.dest);
    }
  }

  /** The intended redirect keeps every chained connection chained, now ending at n. */
  lemma ChangeDestOnPathKeepsChain(c: ConnRec, n: nat)
    requires Chain(c)
    ensures Chain(ChangeDestOnPath(c, n)) && ChangeDestOnPath(c, n).dest == n
    ensures ChangeDestOnPath(c, n).anchors == c.anchors && |ChangeDestOnPath(c, n).wires| == |c.wires|
  {
    var ord: seq<nat> :| PathThrough(c, ord);
    OnlyLastEndsAtDest(c, ord);
    RedirectKeepsPath(c, ord, ord[|ord| - 1], n);
  }

  /** The as-written redirect keeps the path exactly when the last wire of the list is the last wire of the path. */
  lemma ChangeDestKeepsPath(c: ConnRec, ord: seq<nat>, n: nat)
    requires PathThrough(c, ord)
    ensures PathThrough(ChangeDestConn(c, n), ord) <==> ord[|ord| - 1] == |c.wires| - 1
  {
    RedirectKeepsPath(c, ord, |c.wires| - 1, n);
  }

  /**
   * The last wire of the list is not always the last wire of the path: a
   * fresh connection pressed twice on its first wire and then redirected
   * has no path, since wire 1 still ends at the old destination node.
   */
  lemma RedirectAfterPressBreaksChain(st: Store)
    requires |st.elems| >= 1 && |st.nodes| >= 2
    ensures var c := NewConn(st, 0, 0, Point(1, 0));
      Chain(c) && !Chain(ChangeDestConn(PressConn(PressConn(c, 0, 0), 0, 1), 1))
  {
    var c := NewConn(st, 0, 0, Point(1, 0));
    NewConnChained(st, 0, 0, Point(1, 0));
    var c' := ChangeDestConn(PressConn(PressConn(c, 0, 0), 0, 1), 1);
    assert c'.wires[1].dest == NodeEnd(0) && c'.anchors == [0, 1];
    if Chain(c') {
      ChainDestsClosed(c', 1);
      assert false;
    }
  }

  /** `reorient` on the record: the first wire's departure vector turned a quarter and that wire rerouted. */
  function ReorientConn(st: Store, c: ConnRec): (r: ConnRec)
    requires |c.wires| >= 1 && WireIn(st, c.wires[0])
  {
    c.(wires := c.wires[0 := Rewired(st, c.wires[0].(d := QuarterTurn(c.wires[0].d)))])
  }

  /** Reorienting keeps the path, and four reorients bring the first wire's departure vector back. */
  lemma ReorientKeepsPath(st: Store, c: ConnRec, ord: seq<nat>)
    requires PathThrough(c, ord) && WireIn(st, c.wires[0])
    ensures PathThrough(ReorientConn(st, c), ord)
    ensures ReorientConn(st, ReorientConn(st, ReorientConn(st, ReorientConn(st, c)))).wires[0].d == c.wires[0].d
  {
    assert PathEnds(ReorientConn(st, c).wires, ord) == PathEnds(c.wires, ord);
    FourTurnsAfter(c.wires[0].d, 0);
  }

  /** `remove_anchor`'s first search: the last wire whose destination is e, or -1. */
  function LastEndingAt(ws: seq<Wire>, e: Endpoint): (r: int)
    ensures -1 <= r < |ws|
    ensures r >= 0 ==> ws[r].dest == e && forall j :: r < j < |ws| ==> ws[j].dest != e
    ensures r == -1 ==> forall j :: 0 <= j < |ws| ==> ws[j].dest != e
  {
    if ws == [] then -1
    else if ws[|ws| - 1].dest == e then |ws| - 1
    else LastEndingAt(ws[..|ws| - 1], e)
  }

  /** `remove_anchor`'s second search: the last wire whose origin is e, or -1. */
  function LastStartingAt(ws: seq<Wire>, e: Endpoint): (r: int)
    ensures -1 <= r < |ws|
    ensures r >= 0 ==> ws[r].origin == e && forall j :: r < j < |ws| ==> ws[j].origin != e
    ensures r == -1 ==> forall j :: 0 <= j < |ws| ==> ws[j].origin != e
  {
    if ws == [] then -1
    else if ws[|ws| - 1].origin == e then |ws| - 1
    else LastStartingAt(ws[..|ws| - 1], e)
  }

  /** `remove_anchor` on the record: a leaves the anchors; the wire into a takes over the end of the wire out of a, which is dropped. */
  function RemoveAnchorConn(c: ConnRec, a: nat): ConnRec
    requires a in c.anchors
    requires LastEndingAt(c.wires, AnchorEnd(a)) >= 0 && LastStartingAt(c.wires, AnchorEnd(a)) >= 0
  {
    var h, t := LastEndingAt(c.wires, AnchorEnd(a)), LastStartingAt(c.wires, AnchorEnd(a));
    c.(anchors := RemoveFirst(c.anchors, a),
       wires := RemovedAt(c.wires[h := c.wires[h].(dest := c.wires[t].dest)], t))
  }

  /** A handle's new position once the entry at position t is dropped. */
  function Down(j: nat, t: nat): nat
  {
    if j > t then j - 1 else j
  }

  /** The path order once wire t, the wire at path position q+1, is dropped. */
  function DroppedOrder(ord: seq<nat>, q: nat, t: nat): (r: seq<nat>)
    requires q + 1 < |ord|
    ensures |r| == |ord| - 1
    ensures forall i :: 0 <= i < |r| ==> r[i] == Down(RemovedAt(ord, q + 1)[i], t)
  {
    var ro := RemovedAt(ord, q + 1);
    seq(|ro|, i requires 0 <= i < |ro| => Down(ro[i], t))
  }

  /** Dropping the wire at path position q+1 leaves an order of the remaining wires. */
  lemma DroppedOrderIsOrder(ord: seq<nat>, n: nat, q: nat)
    requires Order(ord, n) && q + 1 < n
    ensures Order(DroppedOrder(ord, q, ord[q + 1]), n - 1)
  {
    var t := ord[q + 1];
    var ro := RemovedAt(ord, q + 1);
    var r := DroppedOrder(ord, q, t);
    RemovedAtFacts(ord, q + 1);
    forall i | 0 <= i < |ro|
      ensures ro[i] != t && ro[i] < n
    {
      assert ro[i] in ro;
    }
    assert ro[0] == ord[0];
    forall i, j | 0 <= i < j < |r|
      ensures r[i] != r[j]
    {
      assert ro[i] != ro[j];
    }
    forall j | 0 <= j < n - 1
      ensures j in r
    {
      var j0 := if j < t then j else j + 1;
      assert j0 in ord;
      assert j0 in ro;
      var i :| 0 <= i < |ro| && ro[i] == j0;
      assert r[i] == j;
    }
  }

  /** Dropping entry t moves every other entry to position Down(j, t). */
  lemma RemovedAtDown<T>(s: seq<T>, t: nat, j: nat)
    requires t < |s| && j < |s| && j != t
    ensures Down(j, t) < |s| - 1 && RemovedAt(s, t)[Down(j, t)] == s[j]
  {
  }

  /** Letting wire ord[q] take over the end of wire ord[q + 1] and dropping the latter merges hops q and q + 1 of the path. */
  lemma MergedEnds(ws: seq<Wire>, ord: seq<nat>, q: nat)
    requires Order(ord, |ws|) && q + 1 < |ord|
    ensures var h, t := ord[q], ord[q + 1];
      var ord' := DroppedOrder(ord, q, t);
      var ws' := RemovedAt(ws[h := ws[h].(dest := ws[t].dest)], t);
      (forall i :: 0 <= i < |ord'| ==> ord'[i] < |ws'|) &&
      PathEnds(ws', ord') == MergeHops(PathEnds(ws, ord), q)
  {
    var h, t := ord[q], ord[q + 1];
    var upd := ws[h := ws[h].(dest := ws[t].dest)];
    var ord' := DroppedOrder(ord, q, t);
    DroppedOrderIsOrder(ord, |ws|, q);
    var ro := RemovedAt(ord, q + 1);
    var hs, hs' := PathEnds(ws, ord), PathEnds(RemovedAt(upd, t), ord');
    forall i | 0 <= i < |hs'|
      ensures hs'[i] == MergeHops(hs, q)[i]
    {
      var j := if i <= q then ord[i] else ord[i + 1];
      assert ro[i] == j && j != t;
      RemovedAtDown(upd, t, j);
      if i < q || i > q {
        assert j != h;
      }
    }
  }

  /** Removing an anchor merges the two wires around it: the path stays a path, without that stop. */
  lemma RemoveAnchorKeepsPath(c: ConnRec, ord: seq<nat>, a: nat)
    requires PathThrough(c, ord) && a in c.anchors
    ensures LastEndingAt(c.wires, AnchorEnd(a)) >= 0 && LastStartingAt(c.wires, AnchorEnd(a)) >= 0
    ensures a in Stops(PathEnds(c.wires, ord))
    ensures var q := IndexOf(Stops(PathEnds(c.wires, ord)), a);
      PathThrough(RemoveAnchorConn(c, a), DroppedOrder(ord, q, ord[q + 1]))
  {
    var ws, hs := c.wires, PathEnds(c.wires, ord);
    var st := Stops(hs);
    assert a in st by { assert a in multiset(c.anchors); }
    var q := IndexOf(st, a);
    StopNeighbours(c, ord, q);
    var h, t := ord[q], ord[q + 1];
    assert LastEndingAt(ws, AnchorEnd(a)) == h;
    assert LastStartingAt(ws, AnchorEnd(a)) == t;
    var c' := RemoveAnchorConn(c, a);
    var upd := ws[h := ws[h].(dest := ws[t].dest)];
    assert c'.wires == RemovedAt(upd, t);
    var ord' := DroppedOrder(ord, q, t);
    DroppedOrderIsOrder(ord, |ws|, q);
    MergedEnds(ws, ord, q);
    var hs' := PathEnds(c'.wires, ord');
    MergeHopsChained(hs, c.origin, c.dest, q);
    RemovedAtFacts(st, q);
    assert Stops(hs') == RemovedAt(st, q);
    RemoveFirstKeepsOthers(c.anchors, a);
  }

  // ---------------------------------------------------------------------
  // The operations on the circuit

  /** Rerouting reads only the positions of elements, nodes and anchors. */
  lemma RewireAllPlaces(st1: Store, st2: Store, ws: seq<Wire>)
    requires st1.elems == st2.elems && st1.nodes == st2.nodes && st1.anchors == st2.anchors
    requires forall i :: 0 <= i < |ws| ==> WireIn(st1, ws[i])
    ensures forall i :: 0 <= i < |ws| ==> WireIn(st2, ws[i])
    ensures RewireAll(st1, ws) == RewireAll(st2, ws)
  {
  }

  /** Routing a wire twice gives what routing it once gives: `rewire` starts from empty links. */
  lemma RewiredTwice(st: Store, w: Wire)
    requires WireIn(st, w)
    ensures Rewired(st, Rewired(st, w)) == Rewired(st, w)
  {
  }

  /** `Connection.__init__` on the circuit: the new record is registered through `add_connection`. */
  function NewConnectionSpec(g: Graph, e: nat, n: nat, d: Point): (r: Graph)
    requires e < |g.store.elems| && n < |g.store.nodes|
  {
    g.(connections := g.connections + [|g.store.conns|],
       store := g.store.(conns := g.store.conns + [NewConn(g.store, e, n, d)]))
  }

  /** The new connection is listed, in the store and chained, and nothing else changes. */
  lemma NewConnectionOk(g: Graph, e: nat, n: nat, d: Point)
    requires ListsIn(g) && e < |g.store.elems| && n < |g.store.nodes|
    ensures var r := NewConnectionSpec(g, e, n, d); var c := |g.store.conns|;
      ListsIn(r) && ConnIn(r.store, c) && Chain(r.store.conns[c]) &&
      r.store.conns[..c] == g.store.conns && c in r.connections
  {
    var r := NewConnectionSpec(g, e, n, d);
    NewConnChained(g.store, e, n, d);
    assert PathThrough(r.store.conns[|g.store.conns|], [0]);
  }

  /** `press` on the circuit: a new anchor at the snapped cursor, registered with the circuit; wire s split at it; the connection rerouted. */
  function PressSpec(g: Graph, c: nat, s: nat, p: Point): (r: Graph)
    requires ConnIn(g.store, c) && s < |g.store.conns[c].wires|
  {
    var a := |g.store.anchors|;
    var st := g.store.(anchors := g.store.anchors + [AnchorRec(SnapPoint(p), c)]);
    var pc := PressConn(g.store.conns[c], s, a);
    assert forall i :: 0 <= i < |pc.wires| ==> WireIn(st, pc.wires[i]) by {
      assert forall i :: 0 <= i < |g.store.conns[c].wires| ==> WireIn(g.store, g.store.conns[c].wires[i]);
    }
    g.(anchors := g.anchors + [a], store := st.(conns := st.conns[c := pc.(wires := RewireAll(st, pc.wires))]))
  }

  /** A press keeps the circuit closed, with one anchor and one wire more for connection c, at the snapped cursor, and no other connection changed. */
  lemma PressSpecOk(g: Graph, c: nat, s: nat, p: Point)
    requires ListsIn(g) && ConnIn(g.store, c) && s < |g.store.conns[c].wires|
    ensures var r := PressSpec(g, c, s, p); var a := |g.store.anchors|;
      ListsIn(r) && ConnIn(r.store, c) &&
      |r.store.conns[c].wires| == |g.store.conns[c].wires| + 1 &&
      r.store.conns[c].anchors == g.store.conns[c].anchors + [a] &&
      r.store.anchors[a] == AnchorRec(SnapPoint(p), c) && a in r.anchors &&
      forall k :: 0 <= k < |g.store.conns| && k != c ==> r.store.conns[k] == g.store.conns[k]
  {
    PressSpecIn(g, c, s, p);
    PressSpecShape(g, c, s, p);
  }

  /** The closure half of `PressSpecOk`. */
  lemma PressSpecIn(g: Graph, c: nat, s: nat, p: Point)
    requires ListsIn(g) && ConnIn(g.store, c) && s < |g.store.conns[c].wires|
    ensures var r := PressSpec(g, c, s, p); ListsIn(r) && ConnIn(r.store, c)
  {
    PressListsIn(g, c, s, p);
    PressConnIn(g, c, s, p);
  }

  lemma PressListsIn(g: Graph, c: nat, s: nat, p: Point)
    requires ListsIn(g) && ConnIn(g.store, c) && s < |g.store.conns[c].wires|
    ensures ListsIn(PressSpec(g, c, s, p))
  {
  }

  lemma PressConnIn(g: Graph, c: nat, s: nat, p: Point)
    requires ConnIn(g.store, c) && s < |g.store.conns[c].wires|
    ensures ConnIn(PressSpec(g, c, s, p).store, c)
  {
    var rec := AnchorRec(SnapPoint(p), c);
    PressStoreIn(g.store, c, s, rec);
    var r := PressSpec(g, c, s, p);
    var st := g.store.(anchors := g.store.anchors + [rec]);
    var pc := PressConn(g.store.conns[c], s, |g.store.anchors|);
    RewireAllPlaces(st, r.store, pc.wires);
  }

  /** The shape half of `PressSpecOk`. */
  lemma PressSpecShape(g: Graph, c: nat, s: nat, p: Point)
    requires ConnIn(g.store, c) && s < |g.store.conns[c].wires|
    ensures var r := PressSpec(g, c, s, p); var a := |g.store.anchors|;
      |r.store.conns[c].wires| == |g.store.conns[c].wires| + 1 &&
      r.store.conns[c].anchors == g.store.conns[c].anchors + [a] &&
      r.store.anchors[a] == AnchorRec(SnapPoint(p), c) && a in r.anchors &&
      forall k :: 0 <= k < |g.store.conns| && k != c ==> r.store.conns[k] == g.store.conns[k]
  {
  }

  /** A press keeps a chained connection chained. */
  lemma PressSpecChained(g: Graph, c: nat, s: nat, p: Point)
    requires ConnIn(g.store, c) && s < |g.store.conns[c].wires| && Chain(g.store.conns[c])
    ensures Chain(PressSpec(g, c, s, p).store.conns[c])
  {
    var C := g.store.conns[c];
    var a := |g.store.anchors|;
    var rec := AnchorRec(SnapPoint(p), c);
    var st := g.store.(anchors := g.store.anchors + [rec]);
    var ord: seq<nat> :| PathThrough(C, ord);
    assert a !in C.anchors;
    PressKeepsPath(C, ord, s, a);
    PressStoreIn(g.store, c, s, rec);
    var pc := PressConn(C, s, a);
    var ord' := Inserted(ord, IndexOf(ord, s) + 1, |C.wires|);
    RewireKeepsPath(st, pc, ord');
    assert PathThrough(PressSpec(g, c, s, p).store.conns[c], ord');
  }

  /** `Connection.__init__`: the record is created, registered, and given its first wire. */
  method NewConnection(circ: Circuit, e: nat, n: nat, d: Point) returns (c: nat)
    requires circ.Valid() && e < |circ.heap.elems| && n < |circ.heap.nodes|
    modifies circ, circ.heap
    ensures c == old(|circ.heap.conns|)
    ensures circ.Valid() && circ.State() == NewConnectionSpec(old(circ.State()), e, n, d)
  {
    var st := circ.heap.Contents();
    c := |circ.heap.conns|;
    circ.heap.conns := circ.heap.conns + [ConnRec(e, n, d, [], [])];
    circ.AddConnection(c);
    var w := NewWire(st, ElementEnd(e), NodeEnd(n), d);
    circ.heap.conns := circ.heap.conns[c := circ.heap.conns[c].(wires := [w])];
  }

  /** `Connection.rewire`: every wire of connection c rerouted in turn. */
  method RewireConnection(heap: Heap, c: nat)
    requires WiresIn(heap.Contents(), c)
    modifies heap
    ensures heap.Contents() == old(heap.Contents()).(conns := old(heap.conns)[c :=
      old(heap.conns[c]).(wires := RewireAll(old(heap.Contents()), old(heap.conns[c].wires)))])
  {
    var st := heap.Contents();
    var ws0 := heap.conns[c].wires;
    var ws := ws0;
    var i := 0;
    while i < |ws|
      invariant 0 <= i <= |ws| == |ws0| && heap.Contents() == st
      invariant forall j :: 0 <= j < i ==> WireIn(st, ws0[j]) && ws[j] == Rewired(st, ws0[j])
      invariant forall j :: i <= j < |ws| ==> ws[j] == ws0[j]
    {
      assert WireIn(st, ws0[i]);
      var w := RewireWire(st, ws[i]);
      ws := ws[i := w];
      i := i + 1;
    }
    assert ws == RewireAll(st, ws0);
    heap.conns := heap.conns[c := heap.conns[c].(wires := ws)];
  }

  /** Which object of a connection the cursor is over: an anchor, or a wire together with the link hit. */
  datatype Selection = Miss | AnchorSel(a: nat) | WireSel(w: nat, link: nat)

  /** The default box of an anchor contains p strictly. */
  predicate AnchorHit(st: Store, a: nat, p: Point)
    requires a < |st.anchors|
  {
    StrictlyWithin(st.anchors[a].pos, DefaultBbox.width, DefaultBbox.height, p)
  }

  /**
   * `Connection.in_bbox`: the first anchor hit, in list order; failing that
   * the first wire one of whose links after the first is hit; failing that
   * nothing. The selection is returned rather than stored.
   */
  method InBbox(st: Store, c: ConnRec, p: Point) returns (hit: bool, sel: Selection)
    requires forall j :: 0 <= j < |c.anchors| ==> c.anchors[j] < |st.anchors|
    ensures hit <==> !sel.Miss?
    ensures sel.AnchorSel? ==>
      exists k :: 0 <= k < |c.anchors| && c.anchors[k] == sel.a && AnchorHit(st, sel.a, p) &&
        forall j :: 0 <= j < k ==> !AnchorHit(st, c.anchors[j], p)
    ensures !sel.AnchorSel? ==> forall j :: 0 <= j < |c.anchors| ==> !AnchorHit(st, c.anchors[j], p)
    ensures sel.WireSel? ==> (sel.w < |c.wires| && 1 <= sel.link < |c.wires[sel.w].links| &&
      LinkHit(c.wires[sel.w].links[sel.link], LinkHalf, p) &&
      (forall j :: 1 <= j < sel.link ==> !LinkHit(c.wires[sel.w].links[j], LinkHalf, p)) &&
      forall i :: 0 <= i < sel.w ==> FirstHit(c.wires[i].links, LinkHalf, p) == -1)
    ensures sel.Miss? ==> forall i, j :: 0 <= i < |c.wires| && 1 <= j < |c.wires[i].links| ==>
      !LinkHit(c.wires[i].links[j], LinkHalf, p)
  {
    var k := 0;
    while k < |c.anchors|
      invariant 0 <= k <= |c.anchors|
      invariant forall j :: 0 <= j < k ==> !AnchorHit(st, c.anchors[j], p)
    {
      if AnchorHit(st, c.anchors[k], p) {
        return true, AnchorSel(c.anchors[k]);
      }
      k := k + 1;
    }
    var i := 0;
    while i < |c.wires|
      invariant 0 <= i <= |c.wires|
      invariant forall j :: 0 <= j < i ==> FirstHit(c.wires[j].links, LinkHalf, p) == -1
    {
      var l := FirstHit(c.wires[i].links, LinkHalf, p);
      if l != -1 {
        return true, WireSel(i, l);
      }
      i := i + 1;
    }
    return false, Miss;
  }

  /**
   * `press`: with an anchor selected, nothing happens; with a wire selected,
   * a new anchor splits it (see `PressSpec`) and becomes the selection.
   * Pressing with nothing selected fails in the source, so it is excluded.
   */
  method Press(circ: Circuit, c: nat, sel: Selection, p: Point) returns (sel': Selection)
    requires circ.Valid() && ConnIn(circ.heap.Contents(), c) && !sel.Miss?
    requires sel.WireSel? ==> sel.w < |circ.heap.conns[c].wires|
    modifies circ, circ.heap
    ensures sel.AnchorSel? ==> circ.State() == old(circ.State()) && sel' == sel
    ensures sel.WireSel? ==> (circ.State() == PressSpec(old(circ.State()), c, sel.w, p) &&
      sel' == AnchorSel(old(|circ.heap.anchors|)))
  {
    if sel.AnchorSel? {
      return sel;
    }
    ghost var g := circ.State();
    var s := sel.w;
    var a := |circ.heap.anchors|;
    var rec := AnchorRec(SnapPoint(p), c);
    circ.heap.anchors := circ.heap.anchors + [rec];
    circ.AddAnchor(a);
    PressStoreIn(g.store, c, s, rec);
    SplitWire(circ.heap, c, s, g.store, rec);
    sel' := AnchorSel(a);
  }

  /** The wire half of a press, once anchor a is in the store: wire s of connection c is cut at it and every wire rerouted. */
  method SplitWire(heap: Heap, c: nat, s: nat, ghost st0: Store, ghost rec: AnchorRec)
    requires ConnIn(st0, c) && s < |st0.conns[c].wires|
    requires heap.Contents() == st0.(anchors := st0.anchors + [rec])
    requires var pc := PressConn(st0.conns[c], s, |st0.anchors|);
      (forall i :: 0 <= i < |pc.wires| ==> WireIn(heap.Contents(), pc.wires[i])) &&
      WireIn(heap.Contents(), Wire(AnchorEnd(|st0.anchors|), st0.conns[c].wires[s].dest, Point(0, 0), [], 0))
    modifies heap
    ensures var st := old(heap.Contents()); var pc := PressConn(st0.conns[c], s, |st0.anchors|);
      heap.Contents() == st.(conns := st.conns[c := pc.(wires := RewireAll(st, pc.wires))])
  {
    var a := |heap.anchors| - 1;
    var st := heap.Contents();
    var C := heap.conns[c];
    var w := NewWire(st, AnchorEnd(a), C.wires[s].dest, Point(0, 0));
    C := C.(anchors := C.anchors + [a], wires := C.wires[s := C.wires[s].(dest := AnchorEnd(a))] + [w]);
    PressRouted(st, st0.conns[c], s, a, w);
    heap.conns := heap.conns[c := C];
    ghost var st2 := heap.Contents();
    RewireAllPlaces(st, st2, C.wires);
    ghost var pc := PressConn(st0.conns[c], s, a);
    assert C.(wires := RewireAll(st2, C.wires)) == pc.(wires := RewireAll(st, pc.wires));
    RewireConnection(heap, c);
  }

  /** After the anchor is added, the split wires of connection c all have their ends in the store. */
  lemma PressStoreIn(st: Store, c: nat, s: nat, rec: AnchorRec)
    requires ConnIn(st, c) && s < |st.conns[c].wires|
    ensures var st1 := st.(anchors := st.anchors + [rec]); var pc := PressConn(st.conns[c], s, |st.anchors|);
      (forall i :: 0 <= i < |pc.wires| ==> WireIn(st1, pc.wires[i])) &&
      WireIn(st1, Wire(AnchorEnd(|st.anchors|), st.conns[c].wires[s].dest, Point(0, 0), [], 0))
  {
    assert forall i :: 0 <= i < |st.conns[c].wires| ==> WireIn(st, st.conns[c].wires[i]);
  }

  /** Building the new wire routed, as the `Wire` constructor does, changes nothing once every wire is rerouted. */
  lemma PressRouted(st: Store, C: ConnRec, s: nat, a: nat, w: Wire)
    requires s < |C.wires|
    requires forall i :: 0 <= i < |PressConn(C, s, a).wires| ==> WireIn(st, PressConn(C, s, a).wires[i])
    requires WireIn(st, Wire(AnchorEnd(a), C.wires[s].dest, Point(0, 0), [], 0))
    requires w == Rewired(st, Wire(AnchorEnd(a), C.wires[s].dest, Point(0, 0), [], 0))
    ensures var ws := C.wires[s := C.wires[s].(dest := AnchorEnd(a))] + [w];
      (forall i :: 0 <= i < |ws| ==> WireIn(st, ws[i])) &&
      RewireAll(st, ws) == RewireAll(st, PressConn(C, s, a).wires)
  {
    var pw := PressConn(C, s, a).wires;
    var ws := C.wires[s := C.wires[s].(dest := AnchorEnd(a))] + [w];
    RewiredTwice(st, pw[|pw| - 1]);
    forall i | 0 <= i < |ws|
      ensures WireIn(st, ws[i]) && Rewired(st, ws[i]) == Rewired(st, pw[i])
    {
      if i < |C.wires| {
        assert ws[i] == pw[i];
      }
    }
  }

  /** `change_dest` on connection c. */
  method ChangeDest(heap: Heap, c: nat, n: nat)
    requires c < |heap.conns| && |heap.conns[c].wires| >= 1
    modifies heap
    ensures heap.Contents() == old(heap.Contents()).(conns := old(heap.conns)[c := ChangeDestConn(old(heap.conns[c]), n)])
  {
    var C := heap.conns[c];
    var k := |C.wires| - 1;
    C := C.(dest := n, wires := C.wires[k := C.wires[k].(dest := NodeEnd(n))]);
    heap.conns := heap.conns[c := C];
  }

  /** The corrected `change_dest` on connection c: the wire ending at the old destination is found and redirected. */
  method ChangeDestFixed(heap: Heap, c: nat, n: nat)
    requires c < |heap.conns|
    modifies heap
    ensures heap.Contents() == old(heap.Contents()).(conns := old(heap.conns)[c := ChangeDestOnPath(old(heap.conns[c]), n)])
  {
    var C := heap.conns[c];
    var k := |C.wires|;
    while k > 0 && C.wires[k - 1].dest != NodeEnd(C.dest)
      invariant 0 <= k <= |C.wires|
      invariant forall j :: k <= j < |C.wires| ==> C.wires[j].dest != NodeEnd(C.dest)
    {
      k := k - 1;
    }
    assert k - 1 == LastEndingAt(C.wires, NodeEnd(C.dest)) by {
      var r := LastEndingAt(C.wires, NodeEnd(C.dest));
      if k > 0 {
        assert r >= k - 1;
      }
    }
    if k > 0 {
      C := C.(wires := C.wires[k - 1 := C.wires[k - 1].(dest := NodeEnd(n))]);
    }
    heap.conns := heap.conns[c := C.(dest := n)];
  }

  /** `reorient` on connection c. */
  method Reorient(heap: Heap, c: nat)
    requires WiresIn(heap.Contents(), c) && |heap.conns[c].wires| >= 1
    modifies heap
    ensures heap.Contents() == old(heap.Contents()).(conns := old(heap.conns)[c := ReorientConn(old(heap.Contents()), old(heap.conns[c]))])
  {
    var st := heap.Contents();
    var C := heap.conns[c];
    assert WireIn(st, C.wires[0]);
    var w := C.wires[0].(d := QuarterTurn(C.wires[0].d));
    w := RewireWire(st, w);
    heap.conns := heap.conns[c := C.(wires := C.wires[0 := w])];
  }

  /** The two searches of `remove_anchor`: the last wire ending at e and the last wire starting at e. */
  method FindHeadTail(ws: seq<Wire>, e: Endpoint) returns (head: int, tail: int)
    ensures head == LastEndingAt(ws, e) && tail == LastStartingAt(ws, e)
  {
    head, tail := -1, -1;
    var i := 0;
    while i < |ws|
      invariant 0 <= i <= |ws|
      invariant head == LastEndingAt(ws[..i], e) && tail == LastStartingAt(ws[..i], e)
    {
      assert ws[..i + 1][..i] == ws[..i];
      if ws[i].dest == e {
        head := i;
      }
      if ws[i].origin == e {
        tail := i;
      }
      i := i + 1;
    }
    assert ws[..i] == ws;
  }

  /** `remove_anchor` on the circuit: the connection's record changes as `RemoveAnchorConn` says and the circuit drops a. */
  function RemoveAnchorSpec(g: Graph, c: nat, a: nat): (r: Graph)
    requires c < |g.store.conns| && a in g.anchors && a in g.store.conns[c].anchors
    requires LastEndingAt(g.store.conns[c].wires, AnchorEnd(a)) >= 0
    requires LastStartingAt(g.store.conns[c].wires, AnchorEnd(a)) >= 0
  {
    g.(anchors := RemoveFirst(g.anchors, a),
       store := g.store.(conns := g.store.conns[c := RemoveAnchorConn(g.store.conns[c], a)]))
  }

  /** Removing an anchor of a chained connection keeps the circuit closed and the connection chained, with one anchor and one wire fewer. */
  lemma RemoveAnchorSpecOk(g: Graph, c: nat, a: nat)
    requires ListsIn(g) && ConnIn(g.store, c) && Chain(g.store.conns[c])
    requires a in g.anchors && a in g.store.conns[c].anchors
    ensures LastEndingAt(g.store.conns[c].wires, AnchorEnd(a)) >= 0
    ensures LastStartingAt(g.store.conns[c].wires, AnchorEnd(a)) >= 0
    ensures var r := RemoveAnchorSpec(g, c, a);
      ListsIn(r) && ConnIn(r.store, c) && Chain(r.store.conns[c]) &&
      |r.store.conns[c].wires| == |g.store.conns[c].wires| - 1 &&
      multiset(r.store.conns[c].anchors) == multiset(g.store.conns[c].anchors) - multiset{a} &&
      multiset(r.anchors) == multiset(g.anchors) - multiset{a}
  {
    var C := g.store.conns[c];
    RemoveAnchorChain(C, a);
    RemoveAnchorConnIn(g.store, c, a);
    RemoveFirstKeepsOthers(g.anchors, a);
  }

  /** Removing an anchor of a chained connection leaves it chained, with one wire and that anchor fewer. */
  lemma RemoveAnchorChain(C: ConnRec, a: nat)
    requires Chain(C) && a in C.anchors
    ensures LastEndingAt(C.wires, AnchorEnd(a)) >= 0 && LastStartingAt(C.wires, AnchorEnd(a)) >= 0
    ensures Chain(RemoveAnchorConn(C, a)) && |RemoveAnchorConn(C, a).wires| == |C.wires| - 1
    ensures multiset(RemoveAnchorConn(C, a).anchors) == multiset(C.anchors) - multiset{a}
  {
    var ord: seq<nat> :| PathThrough(C, ord);
    RemoveAnchorKeepsPath(C, ord, a);
    var q := IndexOf(Stops(PathEnds(C.wires, ord)), a);
    assert PathThrough(RemoveAnchorConn(C, a), DroppedOrder(ord, q, ord[q + 1]));
    RemoveFirstKeepsOthers(C.anchors, a);
  }

  /** The merged wires and the remaining anchors of connection c still name records of the store. */
  lemma RemoveAnchorConnIn(st: Store, c: nat, a: nat)
    requires ConnIn(st, c) && a in st.conns[c].anchors
    requires LastEndingAt(st.conns[c].wires, AnchorEnd(a)) >= 0
    requires LastStartingAt(st.conns[c].wires, AnchorEnd(a)) >= 0
    ensures ConnIn(st.(conns := st.conns[c := RemoveAnchorConn(st.conns[c], a)]), c)
  {
    var C := st.conns[c];
    var h, t := LastEndingAt(C.wires, AnchorEnd(a)), LastStartingAt(C.wires, AnchorEnd(a));
    var upd := C.wires[h := C.wires[h].(dest := C.wires[t].dest)];
    assert forall i :: 0 <= i < |C.wires| ==> WireIn(st, C.wires[i]);
    assert forall i :: 0 <= i < |upd| ==> WireIn(st, upd[i]);
  }

  /** `remove_anchor`: find the wires into and out of a, drop a from the connection and the circuit, drop the outgoing wire and let the incoming one take over its end. */
  method RemoveAnchor(circ: Circuit, c: nat, a: nat)
    requires circ.Valid() && c < |circ.heap.conns| && a in circ.anchors && a in circ.heap.conns[c].anchors
    requires LastEndingAt(circ.heap.conns[c].wires, AnchorEnd(a)) >= 0
    requires LastStartingAt(circ.heap.conns[c].wires, AnchorEnd(a)) >= 0
    modifies circ, circ.heap
    ensures circ.State() == RemoveAnchorSpec(old(circ.State()), c, a)
  {
    var C := circ.heap.conns[c];
    var ws := C.wires;
    var head, tail := FindHeadTail(ws, AnchorEnd(a));
    circ.heap.conns := circ.heap.conns[c := C.(anchors := RemoveFirst(C.anchors, a))];
    circ.RemoveAnchor(a);
    var tw := ws[tail];
    ws := RemovedAt(ws, tail);
    if head != tail {
      var hi := Down(head, tail);
      ws := ws[hi := ws[hi].(dest := tw.dest)];
    }
    circ.heap.conns := circ.heap.conns[c := circ.heap.conns[c].(wires := ws)];
    assert ws == RemoveAnchorConn(C, a).wires;
  }

  /** `Anchor.delete`: the anchor's own connection removes it. */
  method AnchorDelete(circ: Circuit, a: nat)
    requires circ.Valid() && a < |circ.heap.anchors| && a in circ.anchors
    requires circ.heap.anchors[a].connection < |circ.heap.conns|
    requires a in circ.heap.conns[circ.heap.anchors[a].connection].anchors
    requires LastEndingAt(circ.heap.conns[circ.heap.anchors[a].connection].wires, AnchorEnd(a)) >= 0
    requires LastStartingAt(circ.heap.conns[circ.heap.anchors[a].connection].wires, AnchorEnd(a)) >= 0
    modifies circ, circ.heap
    ensures circ.State() == RemoveAnchorSpec(old(circ.State()), old(circ.heap.anchors[a].connection), a)
  {
    RemoveAnchor(circ, circ.heap.anchors[a].connection, a);
  }

  // ---------------------------------------------------------------------
  // ConnectionMomento

  /** `ConnectionMomento`: the destination node's index, the anchor positions in path order and the first wire's departure vector. */
  datatype ConnMemento = ConnMemento(dest: int, anchors: seq<Point>, d: Point)

  /** The positions of the anchors in stops, in order. */
  function StopPositions(st: Store, stops: seq<nat>): (r: seq<Point>)
    requires forall a :: a in stops ==> a < |st.anchors|
    ensures |r| == |stops|
    ensures forall i :: 0 <= i < |stops| ==> stops[i] in stops && r[i] == st.anchors[stops[i]].pos
  {
    assert forall i :: 0 <= i < |stops| ==> stops[i] in stops;
    seq(|stops|, i requires 0 <= i < |stops| && stops[i] < |st.anchors| => st.anchors[stops[i]].pos)
  }

  /** The search inside the walk: the first wire whose origin is e, or -1. */
  method FirstStartingAt(ws: seq<Wire>, e: Endpoint) returns (k: int)
    ensures -1 <= k < |ws|
    ensures k >= 0 ==> ws[k].origin == e && forall j :: 0 <= j < k ==> ws[j].origin != e
    ensures k == -1 ==> forall j :: 0 <= j < |ws| ==> ws[j].origin != e
  {
    k := 0;
    while k < |ws|
      invariant 0 <= k <= |ws|
      invariant forall j :: 0 <= j < k ==> ws[j].origin != e
    {
      if ws[k].origin == e {
        return;
      }
      k := k + 1;
    }
    k := -1;
  }

  /** One step of the walk along a path: from the i-th wire of the path, the next wire is the only one starting where it ends, and the last wire ends where no wire starts. */
  lemma WalkStep(c: ConnRec, ord: seq<nat>, i: nat)
    requires PathThrough(c, ord) && i < |ord|
    ensures var e := c.wires[ord[i]].dest; var stops := Stops(PathEnds(c.wires, ord));
      if i + 1 < |ord| then
        e == AnchorEnd(stops[i]) && stops[i] in c.anchors && c.wires[ord[i + 1]].origin == e &&
        forall j :: 0 <= j < |c.wires| && c.wires[j].origin == e ==> j == ord[i + 1]
      else
        e == NodeEnd(c.dest) && forall j :: 0 <= j < |c.wires| ==> c.wires[j].origin != e
  {
    var hs := PathEnds(c.wires, ord);
    var stops := Stops(hs);
    if i + 1 < |ord| {
      StopNeighbours(c, ord, i);
      assert stops[i] in multiset(c.anchors) by { assert stops[i] in multiset(stops); }
    } else {
      forall j | 0 <= j < |c.wires|
        ensures c.wires[j].origin != NodeEnd(c.dest)
      {
        assert j in ord;
        HopStarts(hs, c.origin, c.dest, IndexOf(ord, j));
      }
    }
  }

  /** Every stop of a path is one of the connection's anchors. */
  lemma StopsAreAnchors(c: ConnRec, ord: seq<nat>)
    requires PathThrough(c, ord)
    ensures forall a :: a in Stops(PathEnds(c.wires, ord)) ==> a in c.anchors
  {
    var stops := Stops(PathEnds(c.wires, ord));
    forall a | a in stops
      ensures a in c.anchors
    {
      assert a in multiset(stops);
    }
  }

  /** Recording one more stop appends its position. */
  lemma StopPositionsSnoc(st: Store, stops: seq<nat>, i: nat, p: seq<nat>, q: seq<nat>)
    requires i < |stops| && forall a :: a in stops ==> a < |st.anchors|
    requires p == stops[..i] && q == stops[..i + 1]
    ensures stops[i] in stops && (forall a :: a in p ==> a in stops) && (forall a :: a in q ==> a in stops)
    ensures StopPositions(st, q) == StopPositions(st, p) + [st.anchors[stops[i]].pos]
  {
    assert q == p + [stops[i]];
  }

  /**
   * `ConnectionMomento.__init__`: walk from the first wire, each time
   * recording the end if it is one of the connection's anchors and moving
   * to the first wire that starts there, until no wire does.
   */
  method CaptureConnection(st: Store, c: ConnRec) returns (m: ConnMemento)
    requires Chain(c) && c.dest < |st.nodes| && forall a :: a in c.anchors ==> a < |st.anchors|
    ensures m.dest == st.nodes[c.dest].idx && m.d == c.wires[0].d
    ensures forall ord :: PathThrough(c, ord) ==>
      (StopsAreAnchors(c, ord); m.anchors == StopPositions(st, Stops(PathEnds(c.wires, ord))))
  {
    ghost var ord: seq<nat> :| PathThrough(c, ord);
    ghost var stops := Stops(PathEnds(c.wires, ord));
    StopsAreAnchors(c, ord);
    var ws := c.wires;
    var w := 0;
    ghost var i := 0;
    var out: seq<Point> := [];
    var go := true;
    assert stops[..0] == [];
    while go
      invariant 0 <= i < |ord| && w == ord[i]
      invariant forall a :: a in stops[..i] ==> a in stops
      invariant go ==> out == StopPositions(st, stops[..i])
      invariant !go ==> out == StopPositions(st, stops)
      decreases |ord| - i, go
    {
      var e := ws[w].dest;
      WalkStep(c, ord, i);
      if e.AnchorEnd? && e.a in c.anchors {
        StopPositionsSnoc(st, stops, i, stops[..i], stops[..i + 1]);
        out := out + [st.anchors[e.a].pos];
      }
      var k := FirstStartingAt(ws, e);
      if k < 0 {
        assert stops[..i] == stops;
        go := false;
      } else {
        w := k;
        i := i + 1;
      }
    }
    m := ConnMemento(st.nodes[c.dest].idx, out, ws[0].d);
    forall ord' | PathThrough(c, ord')
      ensures ord' == ord
    {
      PathUnique(c, ord', ord);
    }
  }
}
