/**
 * The legacy engine's objects as they are updated in place. A `Scene` holds
 * the four tables of live records and the canvas's top layer and active
 * object; every method performs one operation of connection.py, node.py or
 * branch_element.py step by step, loops included, and is proved to leave the
 * scene in the state the corresponding function of LegacyBoard or
 * LegacyElements describes. What those functions guarantee is proved there.
 */
module LegacyScenes {
  import opened Geometry
  import opened Options
  import opened Lists
  import opened Routing
  import opened LegacyRouting
  import opened LegacyBoard
  import opened LegacyElements

  class Scene {
    var elems: seq<Element>
    var nodes: seq<Node>
    var conns: seq<Connection>
    var anchors: seq<Anchor>
    var toplayer: seq<Obj>
    var active: Option<Obj>

    /** The scene as a board value. */
    function Contents(): Board
      reads this
    {
      Board(elems, nodes, conns, anchors, toplayer, active)
    }

    /** An empty canvas. */
    constructor ()
      ensures Contents() == Board([], [], [], [], [], None)
    {
      elems, nodes, conns, anchors, toplayer, active := [], [], [], [], [], None;
    }

    /** The world positions of the anchors ks, read one by one. */
    method AnchorPositions(ks: seq<nat>) returns (ps: seq<Point>)
      requires forall a :: a in ks ==> a < |anchors|
      ensures ps == AnchorSpots(Contents(), ks)
    {
      BelowAt(ks, |anchors|);
      ps := [];
      var i := 0;
      while i < |ks|
        invariant 0 <= i <= |ks|
        invariant |ps| == i
        invariant forall j :: 0 <= j < i ==> ps[j] == anchors[ks[j]].pos
      {
        assert ks[i] in ks;
        ps := ps + [anchors[ks[i]].pos];
        i := i + 1;
      }
    }

    /** `Connection.rewire()` on connection c. */
    method Rewire(c: nat)
      requires Closed(Contents()) && c < |conns|
      modifies this
      ensures Contents() == Rewired(old(Contents()), c)
    {
      var k := conns[c];
      var spots := AnchorPositions(k.anchors);
      var links := LegacyRewire(elems[k.origin].pos, nodes[k.dest].pos, k.d, spots);
      conns := conns[c := k.(links := links)];
    }

    /** The loop `for conn in cs: conn.rewire()`. */
    method RewireAll(cs: seq<nat>)
      requires Closed(Contents()) && forall c :: c in cs ==> c < |conns|
      modifies this
      ensures Contents() == RewireEach(old(Contents()), cs)
    {
      ghost var m := Contents();
      var i := 0;
      assert cs[..0] == [];
      while i < |cs|
        invariant 0 <= i <= |cs|
        invariant forall c :: c in cs[..i] ==> c in cs
        invariant Contents() == RewireEach(m, cs[..i])
      {
        assert cs[i] in cs;
        assert cs[..i + 1][..i] == cs[..i];
        assert forall c :: c in cs[..i + 1] ==> c in cs;
        LinksOnlyRoutes(m, Contents());
        Rewire(cs[i]);
        i := i + 1;
      }
      assert cs[..i] == cs;
    }

    /** `Node.drag(x, y)` on node n: snap it to the grid, then rewire each of its connections in turn. */
    method NodeDrag(n: nat, p: Point)
      requires Closed(Contents()) && n < |nodes|
      modifies this
      ensures Contents() == NodeDragSpec(old(Contents()), n, p)
    {
      ghost var b := Contents();
      nodes := nodes[n := nodes[n].(pos := SnapPoint(p))];
      SameWiringKeeps(b, Contents());
      RewireAll(nodes[n].connections);
    }

    /**
     * `Node.merge(other)` for self = s and other = o: extend s's lists, then
     * redirect o's connections to s, then repoint o's slot in each of o's
     * elements to s.
     */
    method NodeMerge(s: nat, o: nat)
      requires Closed(Contents()) && s < |nodes| && o < |nodes| && s != o
      modifies this
      ensures Contents() == NodeMergeSpec(old(Contents()), s, o)
    {
      ghost var b := Contents();
      var so, oo := nodes[s], nodes[o];
      nodes := nodes[s := so.(connections := so.connections + oo.connections, elements := so.elements + oo.elements)];
      ghost var m := Contents();
      var i := 0;
      while i < |oo.connections|
        invariant 0 <= i <= |oo.connections|
        invariant Contents() == m.(conns := conns)
        invariant |conns| == |b.conns|
        invariant forall c :: 0 <= c < |conns| ==>
                    conns[c] == if c in oo.connections[..i] then b.conns[c].(dest := s) else b.conns[c]
      {
        var c := oo.connections[i];
        assert c in oo.connections;
        assert oo.connections[..i + 1] == oo.connections[..i] + [c];
        conns := conns[c := conns[c].(dest := s)];
        i := i + 1;
      }
      assert oo.connections[..i] == oo.connections;
      i := 0;
      ghost var t := Contents();
      while i < |oo.elements|
        invariant 0 <= i <= |oo.elements|
        invariant Contents() == t.(elems := elems)
        invariant |elems| == |b.elems|
        invariant forall e :: 0 <= e < |elems| ==>
                    elems[e] == if e in oo.elements[..i] then b.elems[e].(nodes := Replaced(b.elems[e].nodes, o, s))
                                else b.elems[e]
      {
        var e := oo.elements[i];
        assert e in oo.elements;
        assert oo.elements[..i + 1] == oo.elements[..i] + [e];
        assert Replaced(Replaced(b.elems[e].nodes, o, s), o, s) == Replaced(b.elems[e].nodes, o, s);
        var ns := ReplaceSlots(elems[e].nodes, o, s);
        elems := elems[e := elems[e].(nodes := ns)];
        i := i + 1;
      }
      assert oo.elements[..i] == oo.elements;
    }

    /**
     * `Connection.in_bbox(x, y)` on connection c: scan the links after the
     * first; at the first one p hits, select it and append a new anchor at its
     * position, which becomes the active object.
     */
    method ConnectionInBbox(c: nat, p: Point) returns (hit: bool)
      requires Closed(Contents()) && c < |conns|
      modifies this
      ensures (Contents(), hit) == ConnectionInBboxSpec(old(Contents()), c, p)
    {
      var links := conns[c].links;
      var k := -1;
      var i := 1;
      while i < |links|
        invariant 1 <= i
        invariant k == -1 || (k == FirstHit(links, LegacyLinkHalf, p) && k == i)
        invariant k == -1 ==> forall j :: 1 <= j < i && j < |links| ==> !LinkHit(links[j], LegacyLinkHalf, p)
      {
        if LinkHit(links[i], LegacyLinkHalf, p) {
          k := i;
          break;
        }
        i := i + 1;
      }
      if k == -1 {
        hit := false;
      } else {
        var l := links[k];
        var a := |anchors|;
        anchors := anchors + [Anchor(LinkSpot(l), c)];
        active := Some(AnchorObj(a));
        conns := conns[c := conns[c].(anchors := conns[c].anchors + [a], selected := Some(l))];
        hit := true;
      }
    }

    /** `Anchor.merge(other)` for self = a and other = o. */
    method AnchorMerge(a: nat, o: nat)
      requires Closed(Contents()) && a < |anchors| && o < |anchors|
      requires AnchorObj(o) in toplayer && o in conns[anchors[o].connection].anchors
      modifies this
      ensures Contents() == AnchorMergeSpec(old(Contents()), a, o)
    {
      toplayer := RemoveFirst(toplayer, AnchorObj(o));
      var c := anchors[o].connection;
      var ks := conns[c].anchors;
      var idx := IndexOf(ks, o);
      conns := conns[c := conns[c].(anchors := ks[idx := a])];
    }

    /** `Anchor.delete()` on anchor a. */
    method AnchorDelete(a: nat)
      requires Closed(Contents()) && a < |anchors|
      requires AnchorObj(a) in toplayer && a in conns[anchors[a].connection].anchors
      modifies this
      ensures Contents() == AnchorDeleteSpec(old(Contents()), a)
    {
      toplayer := RemoveFirst(toplayer, AnchorObj(a));
      var c := anchors[a].connection;
      conns := conns[c := conns[c].(anchors := RemoveFirst(conns[c].anchors, a))];
    }

    /**
     * `BranchElement.__init__` with the kind's constructor: two nodes beside
     * the element, two connections routed at once and put on the top layer
     * in the order they are made, the zip loop that hands
     * each node its connection (two passes, written out), each node told of
     * the element, and the kind's properties; e is the new element. The new
     * records are filled in before they are stored in their tables, and the
     * two routes, which read only the element's and the nodes' positions, are
     * computed first.
     */
    method NewElement(k: Kind, x: int, y: int) returns (e: nat)
      modifies this
      ensures e == old(|elems|)
      ensures Contents() == NewElementSpec(old(Contents()), k, x, y)
    {
      var pos := Point(x * SPACING, y * SPACING);
      var p0, p1 := Point(x * SPACING + SPACING * 2, y * SPACING), Point(x * SPACING - SPACING * 2, y * SPACING);
      var d0, d1 := Point(Lead(k), 0), Point(-Lead(k), 0);
      var l0 := LegacyRewire(pos, p0, d0, []);
      var l1 := LegacyRewire(pos, p1, d1, []);
      e := |elems|;
      var n0, c0 := |nodes|, |conns|;
      var node0, node1 := Node(p0, 0, [], []), Node(p1, 0, [], []);
      conns := conns + [Connection(e, n0, d0, [], l0, None), Connection(e, n0 + 1, d1, [], l1, None)];
      toplayer := toplayer + [ConnectionObj(c0), ConnectionObj(c0 + 1)];
      node0 := node0.(connections := node0.connections + [c0]);
      node1 := node1.(connections := node1.connections + [c0 + 1]);
      node0 := node0.(elements := node0.elements + [e]);
      node1 := node1.(elements := node1.elements + [e]);
      nodes := nodes + [node0, node1];
      elems := elems + [Element(k, pos, 0, [n0, n0 + 1], [c0, c0 + 1], [], Defaults(k))];
      assert node0 == Node(p0, 0, [e], [c0]) && node1 == Node(p1, 0, [e], [c0 + 1]);
    }

    /** `BranchElement.in_bbox(x, y)` on element e: record each node's offset, then the default box test. */
    method ElementInBbox(e: nat, p: Point) returns (hit: bool)
      requires Closed(Contents()) && e < |elems|
      modifies this
      ensures (Contents(), hit) == ElementInBboxSpec(old(Contents()), e, p)
    {
      var E := elems[e];
      BelowAt(E.nodes, |nodes|);
      var ds: seq<Point> := [];
      var i := 0;
      while i < |E.nodes|
        invariant 0 <= i <= |E.nodes|
        invariant |ds| == i
        invariant forall j :: 0 <= j < i ==> ds[j] == nodes[E.nodes[j]].pos.Minus(E.pos)
      {
        ds := ds + [nodes[E.nodes[i]].pos.Minus(E.pos)];
        i := i + 1;
      }
      assert ds == Offsets(Contents(), e);
      elems := elems[e := E.(disps := ds)];
      hit := StrictlyWithin(E.pos, DefaultBbox.width, DefaultBbox.height, p);
    }

    /**
     * `BranchElement.drag(x, y)` on element e: snap the element, then drag
     * each exclusive node, pairing nodes with recorded offsets.
     */
    method ElementDrag(e: nat, p: Point)
      requires Closed(Contents()) && e < |elems|
      modifies this
      ensures Contents() == ElementDragSpec(old(Contents()), e, p)
    {
      ghost var b := Contents();
      elems := elems[e := elems[e].(pos := SnapPoint(p))];
      ghost var m := Contents();
      SameWiringKeeps(b, m);
      var E := elems[e];
      var k := if |E.nodes| < |E.disps| then |E.nodes| else |E.disps|;
      DragLoop(e, k);
    }

    /** The drag loop over the first k (node, offset) pairs of element e. */
    method DragLoop(e: nat, k: nat)
      requires Closed(Contents()) && e < |elems| && k <= |elems[e].nodes| && k <= |elems[e].disps|
      modifies this
      ensures Contents() == DragNodes(old(Contents()), e, k)
    {
      ghost var m := Contents();
      var i := 0;
      while i < k
        invariant 0 <= i <= k
        invariant Contents() == DragNodes(m, e, i)
      {
        ghost var before := Contents();
        DragStep(e, i);
        assert DragNodes(m, e, i + 1) == DragOne(before, e, i);
        i := i + 1;
      }
    }

    /** One pass of the drag loop: the i-th node of element e is dragged to its offset when it is exclusive. */
    method DragStep(e: nat, i: nat)
      requires Closed(Contents()) && e < |elems| && i < |elems[e].nodes| && i < |elems[e].disps|
      modifies this
      ensures Contents() == DragOne(old(Contents()), e, i)
    {
      var E := elems[e];
      var n := E.nodes[i];
      assert n in E.nodes;
      if Exclusive(Contents(), n) {
        NodeDrag(n, E.disps[i].Plus(E.pos));
      }
    }

    /**
     * `BranchElement.rotate()` on element e: advance its counter; turn and
     * rewire each connection; turn each exclusive node about the element.
     */
    method ElementRotate(e: nat)
      requires Closed(Contents()) && e < |elems|
      modifies this
      ensures Contents() == ElementRotateSpec(old(Contents()), e)
    {
      ghost var b := Contents();
      var E := elems[e];
      elems := elems[e := E.(rot := NextRot(E.rot))];
      ghost var m := Contents();
      SameWiringKeeps(b, m);
      TurnConnsLoop(e, |E.connections|);
      TurnNodesLoop(e, |E.nodes|);
    }

    /** The first loop of `rotate` over the first k connections of element e. */
    method TurnConnsLoop(e: nat, k: nat)
      requires Closed(Contents()) && e < |elems| && k <= |elems[e].connections|
      modifies this
      ensures Contents() == TurnConns(old(Contents()), e, k)
    {
      ghost var m := Contents();
      var cs := elems[e].connections;
      var i := 0;
      while i < k
        invariant 0 <= i <= k
        invariant Contents() == TurnConns(m, e, i)
      {
        var c := cs[i];
        assert c in cs;
        ghost var before := Contents();
        TurnConnection(c);
        assert TurnConns(m, e, i + 1) == TurnOne(before, c);
        i := i + 1;
      }
    }

    /** The second loop of `rotate` over the first k nodes of element e. */
    method TurnNodesLoop(e: nat, k: nat)
      requires Closed(Contents()) && e < |elems| && k <= |elems[e].nodes|
      modifies this
      ensures Contents() == TurnNodes(old(Contents()), e, k)
    {
      ghost var t := Contents();
      var E := elems[e];
      var i := 0;
      while i < k
        invariant 0 <= i <= k
        invariant Contents() == TurnNodes(t, e, i)
      {
        var n := E.nodes[i];
        assert n in E.nodes;
        ghost var before := Contents();
        TurnNode(n, E.pos);
        assert TurnNodes(t, e, i + 1) == TurnNodeOne(before, n, E.pos);
        i := i + 1;
      }
    }

    /** One pass of the first loop of `rotate`: turn connection c's departure a quarter, then rewire it. */
    method TurnConnection(c: nat)
      requires Closed(Contents()) && c < |conns|
      modifies this
      ensures Contents() == TurnOne(old(Contents()), c)
    {
      ghost var b := Contents();
      conns := conns[c := conns[c].(d := QuarterTurn(conns[c].d))];
      SameWiringKeeps(b, Contents());
      Rewire(c);
    }

    /** One pass of the second loop of `rotate`: an exclusive node n is turned about the centre and its counter advances. */
    method TurnNode(n: nat, centre: Point)
      requires Closed(Contents()) && n < |nodes|
      modifies this
      ensures Contents() == TurnNodeOne(old(Contents()), n, centre)
    {
      if Exclusive(Contents(), n) {
        nodes := nodes[n := TurnedNode(nodes[n], centre)];
      }
    }
  }
}
