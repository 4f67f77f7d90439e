/**
 * The live objects of the legacy engine (connection.py, node.py,
 * branch_element.py) as an arena: every element, node, connection and anchor
 * is a record addressed by its position in its table, and the references
 * between them are those positions. The canvas contributes the `toplayer`
 * list and the `active_object` slot that the anchor operations touch.
 *
 * This module holds the records, the invariants that the references stay in
 * range and agree with each other, and the effect of `rewire`, `Node.merge`,
 * `Node.drag`, `Connection.in_bbox`, `Anchor.merge` and `Anchor.delete` as
 * functions from the old board to the new one, with what they guarantee.
 */
module LegacyBoard {
  import opened Geometry
  import opened Options
  import opened Lists
  import opened Routing
  import opened LegacyRouting
  import opened CanvasElements

  /** The three concrete element classes. */
  datatype Kind = Capacitor | JosephsonJunction | Inductor

  /** One entry of an element's `properties` dict; the value is kept as the text `str` gives it. */
  datatype Property = Property(key: string, value: string)

  datatype Element = Element(kind: Kind, pos: Point, rot: int, nodes: seq<nat>, connections: seq<nat>,
                             disps: seq<Point>, properties: seq<Property>)

  datatype Node = Node(pos: Point, rot: int, elements: seq<nat>, connections: seq<nat>)

  /** A connection from element `origin` to node `dest`, through `anchors`, with its routed `links`. */
  datatype Connection = Connection(origin: nat, dest: nat, d: Point, anchors: seq<nat>, links: seq<Link>,
                                   selected: Option<Link>)

  datatype Anchor = Anchor(pos: Point, connection: nat)

  /** A canvas entry: which table, and the handle in it. */
  datatype Obj = ElementObj(h: nat) | NodeObj(h: nat) | ConnectionObj(h: nat) | AnchorObj(h: nat)

  datatype Board = Board(elems: seq<Element>, nodes: seq<Node>, conns: seq<Connection>, anchors: seq<Anchor>,
                         toplayer: seq<Obj>, active: Option<Obj>)

  /** The handle of a canvas entry exists in its table. */
  predicate Within(b: Board, o: Obj)
  {
    match o
    case ElementObj(h) => h < |b.elems|
    case NodeObj(h) => h < |b.nodes|
    case ConnectionObj(h) => h < |b.conns|
    case AnchorObj(h) => h < |b.anchors|
  }

  predicate ElementsClosed(b: Board)
  {
    forall e :: 0 <= e < |b.elems| ==>
      (forall n :: n in b.elems[e].nodes ==> n < |b.nodes|) &&
      (forall c :: c in b.elems[e].connections ==> c < |b.conns|)
  }

  predicate NodesClosed(b: Board)
  {
    forall n :: 0 <= n < |b.nodes| ==>
      (forall e :: e in b.nodes[n].elements ==> e < |b.elems|) &&
      (forall c :: c in b.nodes[n].connections ==> c < |b.conns|)
  }

  predicate ConnectionsClosed(b: Board)
  {
    forall c :: 0 <= c < |b.conns| ==>
      b.conns[c].origin < |b.elems| && b.conns[c].dest < |b.nodes| &&
      forall a :: a in b.conns[c].anchors ==> a < |b.anchors|
  }

  predicate AnchorsClosed(b: Board)
  {
    forall a :: 0 <= a < |b.anchors| ==> b.anchors[a].connection < |b.conns|
  }

  predicate CanvasClosed(b: Board)
  {
    (forall o :: o in b.toplayer ==> Within(b, o)) &&
    (b.active.Some? ==> Within(b, b.active.value))
  }

  /** Every reference held anywhere on the board names an existing record. */
  predicate Closed(b: Board)
  {
    ElementsClosed(b) && NodesClosed(b) && ConnectionsClosed(b) && AnchorsClosed(b) && CanvasClosed(b)
  }

  /**
   * The back references agree: a connection is listed by its destination node,
   * and a node an element attaches to lists that element.
   */
  predicate Consistent(b: Board)
    requires Closed(b)
  {
    (forall c :: 0 <= c < |b.conns| ==> c in b.nodes[b.conns[c].dest].connections) &&
    (forall e :: 0 <= e < |b.elems| ==> forall n :: n in b.elems[e].nodes ==> e in b.nodes[n].elements)
  }

  /**
   * The test `BranchElement.drag` and `rotate` apply before moving a node: it
   * belongs to one element only and none of its connections has an anchor.
   */
  predicate Exclusive(b: Board, n: nat)
    requires Closed(b) && n < |b.nodes|
  {
    |b.nodes[n].elements| == 1 && forall c :: c in b.nodes[n].connections ==> |b.conns[c].anchors| == 0
  }

  /**
   * A node that fills more than one slot of element e is not exclusive, so
   * the loops of `drag` and `rotate` leave it alone. `Node.merge` of one slot's
   * node into the other's makes such a node, and its element list then names
   * the element twice.
   */
  predicate RepeatsShared(b: Board, e: nat)
    requires Closed(b) && e < |b.elems|
  {
    var E := b.elems[e];
    forall j :: 0 <= j < |E.nodes| && E.nodes[j] in E.nodes[..j] ==>
      E.nodes[j] < |b.nodes| && !Exclusive(b, E.nodes[j])
  }

  /**
   * r differs from b at most in positions, rotations, departures, links,
   * offsets, properties and selections: every reference and the anchor table
   * are the same.
   */
  predicate SameWiring(b: Board, r: Board)
  {
    |r.elems| == |b.elems| && |r.nodes| == |b.nodes| && |r.conns| == |b.conns| &&
    r.anchors == b.anchors && r.toplayer == b.toplayer && r.active == b.active &&
    (forall e :: 0 <= e < |b.elems| ==>
      r.elems[e].nodes == b.elems[e].nodes && r.elems[e].connections == b.elems[e].connections) &&
    (forall n :: 0 <= n < |b.nodes| ==>
      r.nodes[n].elements == b.nodes[n].elements && r.nodes[n].connections == b.nodes[n].connections) &&
    (forall c :: 0 <= c < |b.conns| ==>
      r.conns[c].origin == b.conns[c].origin && r.conns[c].dest == b.conns[c].dest &&
      r.conns[c].anchors == b.conns[c].anchors)
  }

  /** The same wiring keeps the board closed and consistent, and keeps which nodes are exclusive. */
  lemma SameWiringKeeps(b: Board, r: Board)
    requires SameWiring(b, r) && Closed(b)
    ensures Closed(r)
    ensures Consistent(b) ==> Consistent(r)
    ensures forall n :: 0 <= n < |b.nodes| ==> (Exclusive(r, n) <==> Exclusive(b, n))
  {
    assert CanvasClosed(r) by {
      forall o | o in r.toplayer
        ensures Within(r, o)
      {
        assert Within(b, o);
      }
    }
  }

  /** The same wiring keeps the nodes that repeat in an element's slots shared. */
  lemma RepeatsSharedKeeps(b: Board, r: Board, e: nat)
    requires Closed(b) && SameWiring(b, r) && e < |b.elems| && RepeatsShared(b, e)
    ensures Closed(r) && RepeatsShared(r, e)
  {
    SameWiringKeeps(b, r);
  }

  lemma SameWiringTrans(a: Board, b: Board, c: Board)
    requires SameWiring(a, b) && SameWiring(b, c)
    ensures SameWiring(a, c)
  {
  }

  /** Only the links of connections differ. */
  predicate LinksOnly(b: Board, r: Board)
  {
    SameWiring(b, r) && r.elems == b.elems && r.nodes == b.nodes &&
    forall c :: 0 <= c < |b.conns| ==> r.conns[c].d == b.conns[c].d
  }

  lemma LinksOnlyTrans(a: Board, b: Board, c: Board)
    requires LinksOnly(a, b) && LinksOnly(b, c)
    ensures LinksOnly(a, c)
  {
  }

  /** The world positions of a list of anchors, in list order. */
  function AnchorSpots(b: Board, ks: seq<nat>): (r: seq<Point>)
    requires forall a :: a in ks ==> a < |b.anchors|
    ensures |r| == |ks|
    ensures (BelowAt(ks, |b.anchors|); forall i :: 0 <= i < |ks| ==> r[i] == b.anchors[ks[i]].pos)
  {
    seq(|ks|, i requires 0 <= i < |ks| => (assert ks[i] in ks; b.anchors[ks[i]].pos))
  }

  /** What `rewire` computes for connection c from the current positions, departure and anchors. */
  function RouteOf(b: Board, c: nat): seq<Link>
    requires Closed(b) && c < |b.conns|
  {
    var k := b.conns[c];
    LegacyRoute(b.elems[k.origin].pos, b.nodes[k.dest].pos, k.d, AnchorSpots(b, k.anchors))
  }

  /** Connection c's links are those of a `rewire` on the current board. */
  predicate Routed(b: Board, c: nat)
    requires Closed(b) && c < |b.conns|
  {
    b.conns[c].links == RouteOf(b, c)
  }

  /** Changing links alone changes no connection's route. */
  lemma LinksOnlyRoutes(b: Board, r: Board)
    requires LinksOnly(b, r) && Closed(b)
    ensures Closed(r)
    ensures forall c :: 0 <= c < |b.conns| ==> RouteOf(r, c) == RouteOf(b, c)
  {
    SameWiringKeeps(b, r);
  }

  /** `rewire` on connection c: its links are replaced by its route; nothing else changes. */
  function Rewired(b: Board, c: nat): (r: Board)
    requires Closed(b) && c < |b.conns|
    ensures LinksOnly(b, r) && |r.conns| == |b.conns|
    ensures r.conns[c].links == RouteOf(b, c)
    ensures forall k :: 0 <= k < |b.conns| && k != c ==> r.conns[k] == b.conns[k]
  {
    b.(conns := b.conns[c := b.conns[c].(links := RouteOf(b, c))])
  }

  /**
   * `for conn in cs: conn.rewire()`: the connections listed are routed afresh,
   * every other one keeps its links, and nothing but links changes.
   */
  function RewireEach(b: Board, cs: seq<nat>): (r: Board)
    requires Closed(b) && forall c :: c in cs ==> c < |b.conns|
    ensures LinksOnly(b, r)
    ensures forall c :: 0 <= c < |b.conns| ==>
              r.conns[c].links == if c in cs then RouteOf(b, c) else b.conns[c].links
    decreases |cs|
  {
    if cs == [] then b
    else
      var ks := cs[..|cs| - 1];
      assert cs[|cs| - 1] in cs && forall c :: c in ks ==> c in cs;
      var m := RewireEach(b, ks);
      RewireLast(b, m, cs);
      Rewired(m, cs[|cs| - 1])
  }

  /** Rewiring one more connection after those of ks routes it afresh and keeps every other connection's links. */
  lemma RewireLast(b: Board, m: Board, cs: seq<nat>)
    requires Closed(b) && LinksOnly(b, m) && cs != [] && cs[|cs| - 1] < |b.conns|
    requires forall c :: 0 <= c < |b.conns| ==> m.conns[c].links == if c in cs[..|cs| - 1] then RouteOf(b, c) else b.conns[c].links
    ensures Closed(m) && LinksOnly(b, Rewired(m, cs[|cs| - 1]))
    ensures forall c :: 0 <= c < |b.conns| ==>
              Rewired(m, cs[|cs| - 1]).conns[c].links == if c in cs then RouteOf(b, c) else b.conns[c].links
  {
    var ks, last := cs[..|cs| - 1], cs[|cs| - 1];
    assert cs == ks + [last];
    LinksOnlyRoutes(b, m);
    var r := Rewired(m, last);
    LinksOnlyTrans(b, m, r);
    forall c | 0 <= c < |b.conns|
      ensures r.conns[c].links == if c in cs then RouteOf(b, c) else b.conns[c].links
    {
      assert c in cs <==> c in ks || c == last;
    }
  }

  // ---------------------------------------------------------------------
  // Node.drag and Node.merge (node.py)
  // ---------------------------------------------------------------------

  /** `Node.drag(x, y)`: snap the node to the grid point nearest p, then rewire each of its connections. */
  function NodeDragSpec(b: Board, n: nat, p: Point): Board
    requires Closed(b) && n < |b.nodes|
  {
    var m := b.(nodes := b.nodes[n := b.nodes[n].(pos := SnapPoint(p))]);
    SameWiringKeeps(b, m);
    RewireEach(m, b.nodes[n].connections)
  }

  /**
   * After a node drag the node sits on the grid point nearest p and every one
   * of its connections is routed for the new geometry; other nodes, the
   * elements, departures and the links of all other connections are untouched.
   */
  lemma NodeDragEffect(b: Board, n: nat, p: Point)
    requires Closed(b) && n < |b.nodes|
    ensures SameWiring(b, NodeDragSpec(b, n, p)) && Closed(NodeDragSpec(b, n, p))
    ensures Consistent(b) ==> Consistent(NodeDragSpec(b, n, p))
    ensures NodeDragSpec(b, n, p).nodes == b.nodes[n := b.nodes[n].(pos := SnapPoint(p))]
    ensures NodeDragSpec(b, n, p).elems == b.elems
    ensures forall c :: c in b.nodes[n].connections ==> c < |b.conns| && Routed(NodeDragSpec(b, n, p), c)
    ensures forall c :: 0 <= c < |b.conns| ==> NodeDragSpec(b, n, p).conns[c].d == b.conns[c].d
    ensures forall c :: 0 <= c < |b.conns| && c !in b.nodes[n].connections ==>
              NodeDragSpec(b, n, p).conns[c].links == b.conns[c].links
  {
    var m := b.(nodes := b.nodes[n := b.nodes[n].(pos := SnapPoint(p))]);
    SameWiringKeeps(b, m);
    var r := NodeDragSpec(b, n, p);
    LinksOnlyRoutes(m, r);
    SameWiringTrans(b, m, r);
    SameWiringKeeps(b, r);
  }

  /**
   * `self.merge(other)` for self = s and other = o: s's lists are extended by
   * o's, every connection of o now ends at s, and in every element of o each
   * slot holding o holds s.
   */
  function NodeMergeSpec(b: Board, s: nat, o: nat): Board
    requires Closed(b) && s < |b.nodes| && o < |b.nodes| && s != o
  {
    var so, oo := b.nodes[s], b.nodes[o];
    b.(nodes := b.nodes[s := so.(connections := so.connections + oo.connections,
                                 elements := so.elements + oo.elements)],
       conns := seq(|b.conns|, c requires 0 <= c < |b.conns| =>
                      if c in oo.connections then b.conns[c].(dest := s) else b.conns[c]),
       elems := seq(|b.elems|, e requires 0 <= e < |b.elems| =>
                      if e in oo.elements then b.elems[e].(nodes := Replaced(b.elems[e].nodes, o, s))
                      else b.elems[e]))
  }

  /**
   * The effect of a merge, slot by slot: s's lists grow by o's, o's own lists
   * are unchanged, o's connections end at s, and exactly the element slots
   * that held o in o's elements now hold s. The board stays closed.
   */
  lemma NodeMergeEffect(b: Board, s: nat, o: nat)
    requires Closed(b) && s < |b.nodes| && o < |b.nodes| && s != o
    ensures Closed(NodeMergeSpec(b, s, o))
    ensures NodeMergeSpec(b, s, o).nodes[s].connections == b.nodes[s].connections + b.nodes[o].connections
    ensures NodeMergeSpec(b, s, o).nodes[s].elements == b.nodes[s].elements + b.nodes[o].elements
    ensures NodeMergeSpec(b, s, o).nodes[o] == b.nodes[o]
    ensures forall m :: 0 <= m < |b.nodes| && m != s ==> NodeMergeSpec(b, s, o).nodes[m] == b.nodes[m]
    ensures forall c :: c in b.nodes[o].connections ==>
              c < |b.conns| && NodeMergeSpec(b, s, o).conns[c] == b.conns[c].(dest := s)
    ensures forall c :: 0 <= c < |b.conns| && c !in b.nodes[o].connections ==>
              NodeMergeSpec(b, s, o).conns[c] == b.conns[c]
    ensures forall e, i :: 0 <= e < |b.elems| && 0 <= i < |b.elems[e].nodes| ==>
              NodeMergeSpec(b, s, o).elems[e].nodes[i] ==
                (if e in b.nodes[o].elements && b.elems[e].nodes[i] == o then s else b.elems[e].nodes[i])
    ensures forall e :: 0 <= e < |b.elems| ==>
              NodeMergeSpec(b, s, o).elems[e] == b.elems[e].(nodes := NodeMergeSpec(b, s, o).elems[e].nodes)
    ensures NodeMergeSpec(b, s, o).anchors == b.anchors
  {
    var r := NodeMergeSpec(b, s, o);
    assert ElementsClosed(r) by {
      forall e, n | 0 <= e < |r.elems| && n in r.elems[e].nodes
        ensures n < |r.nodes|
      {
        if e in b.nodes[o].elements {
          var i :| 0 <= i < |r.elems[e].nodes| && r.elems[e].nodes[i] == n;
          var old_ := b.elems[e].nodes;
          assert old_[i] in old_;
        }
      }
    }
    assert NodesClosed(r);
    assert CanvasClosed(r) by {
      forall x | x in r.toplayer
        ensures Within(r, x)
      {
        assert Within(b, x);
      }
    }
  }

  /**
   * On a consistent board a merge leaves nothing pointing at o: no connection
   * ends at o and no element slot holds o, and the board stays consistent.
   */
  lemma NodeMergeDetaches(b: Board, s: nat, o: nat)
    requires Closed(b) && Consistent(b) && s < |b.nodes| && o < |b.nodes| && s != o
    ensures Closed(NodeMergeSpec(b, s, o)) && Consistent(NodeMergeSpec(b, s, o))
    ensures forall c :: 0 <= c < |b.conns| ==> NodeMergeSpec(b, s, o).conns[c].dest != o
    ensures forall e :: 0 <= e < |b.elems| ==> o !in NodeMergeSpec(b, s, o).elems[e].nodes
  {
    var r := NodeMergeSpec(b, s, o);
    NodeMergeEffect(b, s, o);
    forall c | 0 <= c < |b.conns|
      ensures r.conns[c].dest != o && c in r.nodes[r.conns[c].dest].connections
    {
      var dc := b.conns[c].dest;
      assert c in b.nodes[dc].connections;
      if c in b.nodes[o].connections {
        assert r.nodes[s].connections == b.nodes[s].connections + b.nodes[o].connections;
      } else {
        assert dc != o;
        if dc == s {
          assert r.nodes[s].connections == b.nodes[s].connections + b.nodes[o].connections;
        }
      }
    }
    forall e, n | 0 <= e < |b.elems| && n in r.elems[e].nodes
      ensures n != o && e in r.nodes[n].elements
    {
      var i :| 0 <= i < |r.elems[e].nodes| && r.elems[e].nodes[i] == n;
      var old_ := b.elems[e].nodes;
      assert old_[i] in old_;
      assert e in b.nodes[old_[i]].elements;
      if old_[i] == o {
        assert n == s;
        assert r.nodes[s].elements == b.nodes[s].elements + b.nodes[o].elements;
      } else if n == s {
        assert r.nodes[s].elements == b.nodes[s].elements + b.nodes[o].elements;
      }
    }
  }

  // ---------------------------------------------------------------------
  // Connection.in_bbox, Anchor.merge and Anchor.delete (connection.py)
  // ---------------------------------------------------------------------

  /** The world position of a link cell. */
  function LinkSpot(l: Link): Point
  {
    Point(l.x * SPACING, l.y * SPACING)
  }

  /**
   * `Connection.in_bbox(x, y)`: test every link but the first; at the first
   * one hit, remember it as selected, append a new anchor at its position
   * (which becomes the canvas's active object) and answer true; otherwise
   * change nothing and answer false.
   */
  function ConnectionInBboxSpec(b: Board, c: nat, p: Point): (Board, bool)
    requires Closed(b) && c < |b.conns|
  {
    var k := FirstHit(b.conns[c].links, LegacyLinkHalf, p);
    if k == -1 then (b, false)
    else
      var l := b.conns[c].links[k];
      var a := |b.anchors|;
      (b.(anchors := b.anchors + [Anchor(LinkSpot(l), c)],
          conns := b.conns[c := b.conns[c].(anchors := b.conns[c].anchors + [a], selected := Some(l))],
          active := Some(AnchorObj(a))),
       true)
  }

  /** A click on a connection keeps the board closed. */
  lemma ConnectionInBboxClosed(b: Board, c: nat, p: Point)
    requires Closed(b) && c < |b.conns|
    ensures Closed(ConnectionInBboxSpec(b, c, p).0)
  {
    var r := ConnectionInBboxSpec(b, c, p).0;
    assert CanvasClosed(r) by {
      forall x | x in r.toplayer
        ensures Within(r, x)
      {
        assert Within(b, x);
      }
    }
  }

  /**
   * `in_bbox` answers true exactly when a link after the first is hit. Then a
   * new anchor is appended at the end of the connection's anchor list, it lies
   * on the grid exactly where p snaps to, at the first link hit, and it is the
   * active object; nothing else but the selection changes. Otherwise the
   * board is unchanged.
   */
  lemma ConnectionInBboxEffect(b: Board, c: nat, p: Point)
    requires Closed(b) && c < |b.conns|
    ensures Closed(ConnectionInBboxSpec(b, c, p).0)
    ensures ConnectionInBboxSpec(b, c, p).1 <==>
              exists i :: 1 <= i < |b.conns[c].links| && LinkHit(b.conns[c].links[i], LegacyLinkHalf, p)
    ensures !ConnectionInBboxSpec(b, c, p).1 ==> ConnectionInBboxSpec(b, c, p).0 == b
    ensures ConnectionInBboxSpec(b, c, p).1 ==>
              var r, a := ConnectionInBboxSpec(b, c, p).0, |b.anchors|;
              var k := FirstHit(b.conns[c].links, LegacyLinkHalf, p);
              1 <= k < |b.conns[c].links| &&
              r.anchors == b.anchors + [Anchor(SnapPoint(p), c)] &&
              SnapPoint(p) == LinkSpot(b.conns[c].links[k]) &&
              r.conns[c].anchors == b.conns[c].anchors + [a] && a !in b.conns[c].anchors &&
              r.conns[c] == b.conns[c].(anchors := r.conns[c].anchors, selected := r.conns[c].selected) &&
              (forall j :: 0 <= j < |b.conns| && j != c ==> r.conns[j] == b.conns[j]) &&
              r.elems == b.elems && r.nodes == b.nodes && r.toplayer == b.toplayer &&
              r.active == Some(AnchorObj(a))
  {
    var k := FirstHit(b.conns[c].links, LegacyLinkHalf, p);
    if k != -1 {
      var l := b.conns[c].links[k];
      SnapsToNearbyGridLine(p.x, l.x);
      SnapsToNearbyGridLine(p.y, l.y);
      ConnectionInBboxClosed(b, c, p);
    } else {
      assert forall i :: 1 <= i < |b.conns[c].links| ==> !LinkHit(b.conns[c].links[i], LegacyLinkHalf, p);
    }
  }

  /**
   * `Anchor.merge(other)` for self = a and other = o: o leaves the top layer,
   * and a takes o's first slot in the anchor list of o's connection. a's own
   * `connection` attribute is left as it was.
   */
  function AnchorMergeSpec(b: Board, a: nat, o: nat): Board
    requires Closed(b) && a < |b.anchors| && o < |b.anchors|
    requires AnchorObj(o) in b.toplayer && o in b.conns[b.anchors[o].connection].anchors
  {
    var c := b.anchors[o].connection;
    var ks := b.conns[c].anchors;
    b.(toplayer := RemoveFirst(b.toplayer, AnchorObj(o)),
       conns := b.conns[c := b.conns[c].(anchors := ks[IndexOf(ks, o) := a])])
  }

  /**
   * After an anchor merge the connection of o keeps the length of its anchor
   * list and routes through a's position where it went through o's: exactly
   * the first slot of o changes. A list without repeats no longer holds o,
   * and one occurrence of o has left the top layer.
   */
  lemma AnchorMergeEffect(b: Board, a: nat, o: nat)
    requires Closed(b) && a < |b.anchors| && o < |b.anchors|
    requires AnchorObj(o) in b.toplayer && o in b.conns[b.anchors[o].connection].anchors
    ensures Closed(AnchorMergeSpec(b, a, o))
    ensures var c, r := b.anchors[o].connection, AnchorMergeSpec(b, a, o);
            var ks := b.conns[c].anchors;
            |r.conns[c].anchors| == |ks| &&
            r.conns[c].anchors[IndexOf(ks, o)] == a &&
            (forall i :: 0 <= i < |ks| && i != IndexOf(ks, o) ==> r.conns[c].anchors[i] == ks[i]) &&
            (Distinct(ks) && a != o ==> o !in r.conns[c].anchors) &&
            AnchorSpots(r, r.conns[c].anchors) == AnchorSpots(b, ks)[IndexOf(ks, o) := b.anchors[a].pos] &&
            multiset(r.toplayer) == multiset(b.toplayer) - multiset{AnchorObj(o)} &&
            (forall j :: 0 <= j < |b.conns| && j != c ==> r.conns[j] == b.conns[j]) &&
            r.anchors == b.anchors && r.elems == b.elems && r.nodes == b.nodes
  {
    var c, r := b.anchors[o].connection, AnchorMergeSpec(b, a, o);
    var ks := b.conns[c].anchors;
    var k := IndexOf(ks, o);
    assert ConnectionsClosed(r) by {
      forall j, x | 0 <= j < |r.conns| && x in r.conns[j].anchors
        ensures x < |r.anchors|
      {
        if j == c && x != a {
          var i :| 0 <= i < |r.conns[c].anchors| && r.conns[c].anchors[i] == x;
          assert ks[i] in ks;
        }
      }
    }
    assert CanvasClosed(r) by {
      forall x | x in r.toplayer
        ensures Within(r, x)
      {
        assert x in b.toplayer;
        assert Within(b, x);
      }
    }
    if Distinct(ks) && a != o {
      forall i | 0 <= i < |ks|
        ensures r.conns[c].anchors[i] != o
      {
        if i != k {
          assert ks[i] != ks[k];
        }
      }
    }
  }

  /**
   * `Anchor.delete()`: the anchor leaves the top layer and the anchor list of
   * its own connection (first occurrence each); its record stays in the table.
   */
  function AnchorDeleteSpec(b: Board, a: nat): Board
    requires Closed(b) && a < |b.anchors|
    requires AnchorObj(a) in b.toplayer && a in b.conns[b.anchors[a].connection].anchors
  {
    var c := b.anchors[a].connection;
    b.(toplayer := RemoveFirst(b.toplayer, AnchorObj(a)),
       conns := b.conns[c := b.conns[c].(anchors := RemoveFirst(b.conns[c].anchors, a))])
  }

  /**
   * Deleting the anchor that `in_bbox` has just created gives back the
   * connection's anchor list and the top layer as they were before the click.
   * `Anchor.delete` removes the anchor from the top layer, but no modelled
   * code puts it there: `in_bbox` only makes it the active object. The lemma
   * therefore assumes that the anchor has been appended to the top layer;
   * without that, `toplayer.remove` fails in the source.
   */
  lemma InBboxThenDelete(b: Board, c: nat, p: Point)
    requires Closed(b) && c < |b.conns| && ConnectionInBboxSpec(b, c, p).1
    ensures var r0 := ConnectionInBboxSpec(b, c, p).0;
            var a := |b.anchors|;
            var r := r0.(toplayer := r0.toplayer + [AnchorObj(a)]);
            Closed(r) && a < |r.anchors| && AnchorObj(a) in r.toplayer &&
            r.anchors[a].connection == c && a in r.conns[c].anchors &&
            AnchorDeleteSpec(r, a).conns[c].anchors == b.conns[c].anchors &&
            AnchorDeleteSpec(r, a).toplayer == b.toplayer
  {
    var r0 := ConnectionInBboxSpec(b, c, p).0;
    var a := |b.anchors|;
    InBboxAppends(b, c, p);
    OnTopKeepsClosed(r0, AnchorObj(a));
    var r := r0.(toplayer := r0.toplayer + [AnchorObj(a)]);
    assert a !in b.conns[c].anchors;
    RemoveFirstOfNewLast(b.conns[c].anchors, a);
    assert AnchorObj(a) !in b.toplayer;
    RemoveFirstOfNewLast(b.toplayer, AnchorObj(a));
  }

  /** What a successful click leaves for the new anchor: it is the last of its connection's anchors. */
  lemma InBboxAppends(b: Board, c: nat, p: Point)
    requires Closed(b) && c < |b.conns| && ConnectionInBboxSpec(b, c, p).1
    ensures var r0, a := ConnectionInBboxSpec(b, c, p).0, |b.anchors|;
            Closed(r0) && |r0.anchors| == a + 1 && r0.anchors[a].connection == c &&
            |r0.conns| == |b.conns| && r0.conns[c].anchors == b.conns[c].anchors + [a] &&
            r0.toplayer == b.toplayer
  {
    ConnectionInBboxClosed(b, c, p);
  }

  /** Putting an existing object on the top layer keeps the board closed. */
  lemma OnTopKeepsClosed(b: Board, x: Obj)
    requires Closed(b) && Within(b, x)
    ensures Closed(b.(toplayer := b.toplayer + [x]))
  {
    var r := b.(toplayer := b.toplayer + [x]);
    assert CanvasClosed(r) by {
      forall y | y in r.toplayer
        ensures Within(r, y)
      {
        if y != x {
          assert y in b.toplayer;
        }
      }
    }
  }

  /** Removing a value that was only appended at the end gives back the list before the append. */
  lemma RemoveFirstOfNewLast<T>(s: seq<T>, x: T)
    requires x !in s
    ensures RemoveFirst(s + [x], x) == s
  {
    var t := s + [x];
    assert t[|s|] == x;
    assert forall j :: 0 <= j < |s| ==> t[j] != x;
    assert IndexOf(t, x) == |s|;
    assert t[..|s|] == s;
  }
}
