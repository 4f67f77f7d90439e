/**
 * Two-terminal elements of the legacy engine (branch_element.py): how one is
 * built with its two nodes and two connections, the per-kind defaults of
 * `Capacitor`, `JosephsonJunction` and `Inductor`, the export line, and what
 * `in_bbox`, `drag` and `rotate` do to the element, its nodes and its
 * connections.
 */
module LegacyElements {
  import opened Geometry
  import opened Options
  import opened Lists
  import opened Routing
  import opened LegacyRouting
  import opened LegacyExport
  import opened LegacyBoard
  import opened CanvasElements

  /** The class attribute `name` of each kind: the tag of its export line. */
  function Name(k: Kind): string
  {
    match k
    case Capacitor => "C"
    case JosephsonJunction => "JJ"
    case Inductor => "L"
  }

  /** The `s` each kind hands to the base constructor: the length of its connections' departure. */
  function Lead(k: Kind): int
  {
    if k.Inductor? then 2 else 1
  }

  /** The `properties` each kind's constructor fills, in insertion order, with the text `str` gives each value. */
  function Defaults(k: Kind): seq<Property>
  {
    match k
    case Capacitor => [Property("C", "0.02")]
    case JosephsonJunction => [Property("EC", "1.2"), Property("EJ", "21")]
    case Inductor => [Property("L", "1.2")]
  }

  /** The values of a property list, in order. */
  function Values(ps: seq<Property>): (r: seq<string>)
    ensures |r| == |ps|
  {
    seq(|ps|, i requires 0 <= i < |ps| => ps[i].value)
  }

  /**
   * `BranchElement.__init__(x, y, canvas, s)` and the kind's constructor: the
   * element at (x*SPACING, y*SPACING); node 0 two grid steps to its right and
   * node 1 two to its left; connection i from the element to node i with
   * departure (s, 0) and (-s, 0), routed at once, each added to the
   * canvas's top layer as it is made (`add_object` with its default layer);
   * each node lists its connection and the element.
   */
  function NewElementSpec(b: Board, k: Kind, x: int, y: int): Board
  {
    var e, n0, c0 := |b.elems|, |b.nodes|, |b.conns|;
    var pos := Point(x * SPACING, y * SPACING);
    var p0, p1 := Point(x * SPACING + SPACING * 2, y * SPACING), Point(x * SPACING - SPACING * 2, y * SPACING);
    var d0, d1 := Point(Lead(k), 0), Point(-Lead(k), 0);
    b.(elems := b.elems + [Element(k, pos, 0, [n0, n0 + 1], [c0, c0 + 1], [], Defaults(k))],
       nodes := b.nodes + [Node(p0, 0, [e], [c0]), Node(p1, 0, [e], [c0 + 1])],
       conns := b.conns + [Connection(e, n0, d0, [], LegacyRoute(pos, p0, d0, []), None),
                           Connection(e, n0 + 1, d1, [], LegacyRoute(pos, p1, d1, []), None)],
       toplayer := b.toplayer + [ConnectionObj(c0), ConnectionObj(c0 + 1)])
  }

  /** The records a new element appends, one by one. */
  lemma NewElementRecords(b: Board, k: Kind, x: int, y: int)
    ensures var r, e, n0, c0 := NewElementSpec(b, k, x, y), |b.elems|, |b.nodes|, |b.conns|;
            var pos := Point(x * SPACING, y * SPACING);
            |r.elems| == e + 1 && |r.nodes| == n0 + 2 && |r.conns| == c0 + 2 &&
            r.elems[..e] == b.elems && r.nodes[..n0] == b.nodes && r.conns[..c0] == b.conns &&
            (forall i :: 0 <= i < e ==> r.elems[i] == b.elems[i]) &&
            (forall i :: 0 <= i < n0 ==> r.nodes[i] == b.nodes[i]) &&
            (forall i :: 0 <= i < c0 ==> r.conns[i] == b.conns[i]) &&
            r.anchors == b.anchors && r.toplayer == b.toplayer + [ConnectionObj(c0), ConnectionObj(c0 + 1)] && r.active == b.active &&
            r.elems[e] == Element(k, pos, 0, [n0, n0 + 1], [c0, c0 + 1], [], Defaults(k)) &&
            r.nodes[n0] == Node(Point((x + 2) * SPACING, y * SPACING), 0, [e], [c0]) &&
            r.nodes[n0 + 1] == Node(Point((x - 2) * SPACING, y * SPACING), 0, [e], [c0 + 1]) &&
            r.conns[c0] == Connection(e, n0, Point(Lead(k), 0), [], r.conns[c0].links, None) &&
            r.conns[c0 + 1] == Connection(e, n0 + 1, Point(-Lead(k), 0), [], r.conns[c0 + 1].links, None) &&
            r.conns[c0].links == LegacyRoute(pos, r.nodes[n0].pos, Point(Lead(k), 0), []) &&
            r.conns[c0 + 1].links == LegacyRoute(pos, r.nodes[n0 + 1].pos, Point(-Lead(k), 0), [])
  {
  }

  lemma NewElementElementsClosed(b: Board, k: Kind, x: int, y: int)
    requires ElementsClosed(b)
    ensures ElementsClosed(NewElementSpec(b, k, x, y))
  {
    var r, e := NewElementSpec(b, k, x, y), |b.elems|;
    NewElementRecords(b, k, x, y);
    forall i | 0 <= i < |r.elems|
      ensures (forall n :: n in r.elems[i].nodes ==> n < |r.nodes|) &&
              (forall c :: c in r.elems[i].connections ==> c < |r.conns|)
    {
      if i < e {
        assert r.elems[i] == b.elems[i];
      }
    }
  }

  lemma NewElementNodesClosed(b: Board, k: Kind, x: int, y: int)
    requires NodesClosed(b)
    ensures NodesClosed(NewElementSpec(b, k, x, y))
  {
    var r, n0 := NewElementSpec(b, k, x, y), |b.nodes|;
    NewElementRecords(b, k, x, y);
    forall i | 0 <= i < |r.nodes|
      ensures (forall x :: x in r.nodes[i].elements ==> x < |r.elems|) &&
              (forall c :: c in r.nodes[i].connections ==> c < |r.conns|)
    {
      if i < n0 {
        assert r.nodes[i] == b.nodes[i];
      }
    }
  }

  lemma NewElementConnectionsClosed(b: Board, k: Kind, x: int, y: int)
    requires ConnectionsClosed(b)
    ensures ConnectionsClosed(NewElementSpec(b, k, x, y))
  {
    var r, c0 := NewElementSpec(b, k, x, y), |b.conns|;
    NewElementRecords(b, k, x, y);
    forall i | 0 <= i < |r.conns|
      ensures r.conns[i].origin < |r.elems| && r.conns[i].dest < |r.nodes| &&
              forall a :: a in r.conns[i].anchors ==> a < |r.anchors|
    {
      if i < c0 {
        assert r.conns[i] == b.conns[i];
      }
    }
  }

  lemma NewElementCanvasClosed(b: Board, k: Kind, x: int, y: int)
    requires CanvasClosed(b) && AnchorsClosed(b)
    ensures CanvasClosed(NewElementSpec(b, k, x, y)) && AnchorsClosed(NewElementSpec(b, k, x, y))
  {
    var r := NewElementSpec(b, k, x, y);
    NewElementRecords(b, k, x, y);
    forall o | o in r.toplayer
      ensures Within(r, o)
    {
      if o in b.toplayer {
        assert Within(b, o);
      } else {
        assert o == ConnectionObj(|b.conns|) || o == ConnectionObj(|b.conns| + 1);
      }
    }
    if r.active.Some? {
      assert Within(b, b.active.value);
    }
  }

  /** A new element keeps the board closed. */
  lemma NewElementClosed(b: Board, k: Kind, x: int, y: int)
    requires Closed(b)
    ensures Closed(NewElementSpec(b, k, x, y))
  {
    NewElementElementsClosed(b, k, x, y);
    NewElementNodesClosed(b, k, x, y);
    NewElementConnectionsClosed(b, k, x, y);
    NewElementCanvasClosed(b, k, x, y);
  }

  /** A new element keeps the back references consistent. */
  lemma NewElementConsistent(b: Board, k: Kind, x: int, y: int)
    requires Closed(b) && Consistent(b)
    ensures Closed(NewElementSpec(b, k, x, y)) && Consistent(NewElementSpec(b, k, x, y))
  {
    NewElementClosed(b, k, x, y);
    NewElementRecords(b, k, x, y);
    NewRecordsConsistent(b, NewElementSpec(b, k, x, y));
  }

  /**
   * `Node.merge` of a new element's first node into its second, as a click on
   * one end and then on the other makes it: the element then fills both slots
   * with one node, which lists the element twice and so is not exclusive.
   * The slots are no longer distinct, yet every repeated one is shared.
   */
  lemma MergedSlotsShared(b: Board, k: Kind, x: int, y: int)
    requires Closed(b)
    ensures var r, n0, e := NewElementSpec(b, k, x, y), |b.nodes|, |b.elems|;
            Closed(r) && n0 + 1 < |r.nodes| && e < |r.elems| &&
            var m := NodeMergeSpec(r, n0 + 1, n0);
            Closed(m) && e < |m.elems| && n0 + 1 < |m.nodes| &&
            m.elems[e].nodes == [n0 + 1, n0 + 1] && m.nodes[n0 + 1].elements == [e, e] &&
            !Distinct(m.elems[e].nodes) && !Exclusive(m, n0 + 1) && RepeatsShared(m, e)
  {
    var r, n0, e := NewElementSpec(b, k, x, y), |b.nodes|, |b.elems|;
    NewElementClosed(b, k, x, y);
    NewElementRecords(b, k, x, y);
    NodeMergeEffect(r, n0 + 1, n0);
    var m := NodeMergeSpec(r, n0 + 1, n0);
    assert e in r.nodes[n0].elements;
    assert m.elems[e].nodes[0] == n0 + 1 && m.elems[e].nodes[1] == n0 + 1;
    assert m.elems[e].nodes == [n0 + 1, n0 + 1];
    assert m.nodes[n0 + 1].elements == [e] + [e];
    assert m.elems[e].nodes[1] in m.elems[e].nodes[..1];
  }

  /** Distinct slots repeat no node, so every repeated one is shared. */
  lemma DistinctRepeatsShared(b: Board, e: nat)
    requires Closed(b) && e < |b.elems| && Distinct(b.elems[e].nodes)
    ensures RepeatsShared(b, e)
  {
    var ns := b.elems[e].nodes;
    forall j | 0 <= j < |ns|
      ensures ns[j] !in ns[..j]
    {
      assert forall i :: 0 <= i < j ==> ns[..j][i] == ns[i] != ns[j];
    }
  }

  /**
   * Appending one element, two nodes and two connections that refer to each
   * other (element to both nodes, node i to the element and connection i,
   * connection i to node i) keeps the back references consistent.
   */
  lemma NewRecordsConsistent(b: Board, r: Board)
    requires Closed(b) && Consistent(b) && Closed(r)
    requires |r.elems| == |b.elems| + 1 && |r.nodes| == |b.nodes| + 2 && |r.conns| == |b.conns| + 2
    requires forall i :: 0 <= i < |b.elems| ==> r.elems[i] == b.elems[i]
    requires forall i :: 0 <= i < |b.nodes| ==> r.nodes[i] == b.nodes[i]
    requires forall i :: 0 <= i < |b.conns| ==> r.conns[i] == b.conns[i]
    requires var e, n0, c0 := |b.elems|, |b.nodes|, |b.conns|;
      r.elems[e].nodes == [n0, n0 + 1] && r.nodes[n0].elements == [e] && r.nodes[n0 + 1].elements == [e] &&
      r.nodes[n0].connections == [c0] && r.nodes[n0 + 1].connections == [c0 + 1] &&
      r.conns[c0].dest == n0 && r.conns[c0 + 1].dest == n0 + 1
    ensures Consistent(r)
  {
    var e, c0 := |b.elems|, |b.conns|;
    forall c | 0 <= c < |r.conns|
      ensures c in r.nodes[r.conns[c].dest].connections
    {
      if c < c0 {
        assert c in b.nodes[b.conns[c].dest].connections;
      }
    }
    forall i | 0 <= i < |r.elems|
      ensures forall n :: n in r.elems[i].nodes ==> i in r.nodes[n].elements
    {
      if i < e {
        forall n | n in r.elems[i].nodes
          ensures i in r.nodes[n].elements
        {
          assert i in b.nodes[n].elements;
        }
      }
    }
  }

  /**
   * A new element keeps the board closed and consistent and leaves every
   * existing record alone. Node i lies 2*SPACING to the right (i = 0) or left
   * (i = 1) of the element, holds exactly connection i and the element, and is
   * exclusive; connection i ends at node i with departure (+-s, 0) and is routed.
   */
  lemma NewElementShape(b: Board, k: Kind, x: int, y: int)
    requires Closed(b)
    ensures var r, e, n0, c0 := NewElementSpec(b, k, x, y), |b.elems|, |b.nodes|, |b.conns|;
            Closed(r) && (Consistent(b) ==> Consistent(r)) &&
            r.elems[..e] == b.elems && r.nodes[..n0] == b.nodes && r.conns[..c0] == b.conns &&
            r.anchors == b.anchors && r.toplayer == b.toplayer + [ConnectionObj(c0), ConnectionObj(c0 + 1)] &&
            r.active == b.active &&
            r.elems[e].pos == Point(x * SPACING, y * SPACING) && r.elems[e].rot == 0 &&
            r.elems[e].nodes == [n0, n0 + 1] && r.elems[e].connections == [c0, c0 + 1] &&
            r.nodes[n0].pos == Point((x + 2) * SPACING, y * SPACING) &&
            r.nodes[n0 + 1].pos == Point((x - 2) * SPACING, y * SPACING) &&
            r.nodes[n0].connections == [c0] && r.nodes[n0 + 1].connections == [c0 + 1] &&
            r.nodes[n0].elements == [e] && r.nodes[n0 + 1].elements == [e] &&
            r.conns[c0].origin == e && r.conns[c0].dest == n0 && r.conns[c0].d == Point(Lead(k), 0) &&
            r.conns[c0 + 1].origin == e && r.conns[c0 + 1].dest == n0 + 1 &&
            r.conns[c0 + 1].d == Point(-Lead(k), 0) &&
            Exclusive(r, n0) && Exclusive(r, n0 + 1) && Routed(r, c0) && Routed(r, c0 + 1)
  {
    var r, e, n0, c0 := NewElementSpec(b, k, x, y), |b.elems|, |b.nodes|, |b.conns|;
    NewElementRecords(b, k, x, y);
    NewElementClosed(b, k, x, y);
    if Consistent(b) {
      NewElementConsistent(b, k, x, y);
    }
    assert AnchorSpots(r, []) == [];
    assert Routed(r, c0);
    assert Routed(r, c0 + 1);
  }

  /**
   * The leads a new element starts with: a capacitor's or a junction's
   * connection runs one link, from the cell next to the element to the cell
   * before its node; an inductor's departure already reaches the node's cell,
   * so its connections start with no links at all.
   */
  lemma NewElementLeads(b: Board, k: Kind, x: int, y: int)
    ensures var r, c0 := NewElementSpec(b, k, x, y), |b.conns|;
            r.conns[c0].links == (if k.Inductor? then [] else [Link(x + 1, y)]) &&
            r.conns[c0 + 1].links == (if k.Inductor? then [] else [Link(x - 1, y)])
  {
    NewElementRecords(b, k, x, y);
    LeadRoute(x, y, Lead(k), 1);
    LeadRoute(x, y, -Lead(k), -1);
  }

  /** The route of one lead: from the element's cell moved by (dv, 0) to the cell two steps to the given side. */
  lemma LeadRoute(x: int, y: int, dv: int, side: int)
    requires side == 1 || side == -1
    requires dv == side || dv == 2 * side
    ensures LegacyRoute(Point(x * SPACING, y * SPACING), Point((x + 2 * side) * SPACING, y * SPACING), Point(dv, 0), [])
            == (if dv == 2 * side then [] else [Link(x + side, y)])
  {
    var pos := Point(x * SPACING, y * SPACING);
    var t := Point((x + 2 * side) * SPACING, y * SPACING);
    var d := Point(dv, 0);
    GridIndexOfMultiple(x);
    GridIndexOfMultiple(y);
    GridIndexOfMultiple(x + 2 * side);
    assert GridOf(t) == Point(x + 2 * side, y);
    assert StartCell(pos, d) == Point(x + dv, y);
    RouteWithoutAnchors(pos, t, d);
    var o := Point(x + dv, y);
    assert !VerticalFirst(d, o, GridOf(t));
    assert LegacyYRun(x + 2 * side, y, y, pos, d) == [];
    if dv == side {
      assert !Hit(x + dv, y, pos, d);
      assert XRunPrefix(x + dv, x + 2 * side, y, pos, d, 1) ==
             XRunPrefix(x + dv, x + 2 * side, y, pos, d, 0) + [Link(x + dv, y)];
    }
  }

  /** `__str__` with the given index of every node (`node.idx`, numbered by the canvas). */
  function ElementExport(b: Board, e: nat, idx: seq<int>): string
    requires e < |b.elems| && |b.elems[e].nodes| >= 2
    requires b.elems[e].nodes[0] < |idx| && b.elems[e].nodes[1] < |idx|
  {
    var E := b.elems[e];
    ExportLine(Name(E.kind), idx[E.nodes[0]], idx[E.nodes[1]], Values(E.properties))
  }

  /**
   * The export line of a newly built element reads back as its kind's tag, the
   * two node indices and its kind's default values: "C" with 0.02, "JJ" with
   * 1.2 then 21, "L" with 1.2.
   */
  lemma NewElementExport(b: Board, k: Kind, x: int, y: int, idx: seq<int>)
    requires |idx| == |b.nodes| + 2
    ensures var r, e, n0 := NewElementSpec(b, k, x, y), |b.elems|, |b.nodes|;
            var line := ElementExport(r, e, idx);
            |line| >= 4 &&
            Fields(line) == [Name(k), IntStr(idx[n0]), IntStr(idx[n0 + 1])] + Values(Defaults(k)) &&
            Values(Defaults(k)) == (match k
                                    case Capacitor => ["0.02"]
                                    case JosephsonJunction => ["1.2", "21"]
                                    case Inductor => ["1.2"]) &&
            ParseInt(Fields(line)[1]) == idx[n0] && ParseInt(Fields(line)[2]) == idx[n0 + 1]
  {
    var r, e, n0 := NewElementSpec(b, k, x, y), |b.elems|, |b.nodes|;
    NewElementRecords(b, k, x, y);
    var vals := Values(Defaults(k));
    DefaultValues(k);
    assert ElementExport(r, e, idx) == ExportLine(Name(k), idx[n0], idx[n0 + 1], vals);
    ExportRoundTrip(Name(k), idx[n0], idx[n0 + 1], vals);
  }

  /** The default values of each kind, as text; neither they nor the tag hold a comma. */
  lemma DefaultValues(k: Kind)
    ensures Values(Defaults(k)) == (match k
                                    case Capacitor => ["0.02"]
                                    case JosephsonJunction => ["1.2", "21"]
                                    case Inductor => ["1.2"])
    ensures CommaFree(Values(Defaults(k))) && ',' !in Name(k)
  {
  }

  // ---------------------------------------------------------------------
  // in_bbox, drag and rotate
  // ---------------------------------------------------------------------

  /** Each node's position relative to the element, in the order of the element's nodes. */
  function Offsets(b: Board, e: nat): (r: seq<Point>)
    requires Closed(b) && e < |b.elems|
    ensures |r| == |b.elems[e].nodes|
  {
    var E := b.elems[e];
    seq(|E.nodes|, i requires 0 <= i < |E.nodes| => (assert E.nodes[i] in E.nodes; b.nodes[E.nodes[i]].pos.Minus(E.pos)))
  }

  /**
   * `BranchElement.in_bbox(x, y)`: record each node's offset from the element
   * in `disps`, then the base test with the default box.
   */
  function ElementInBboxSpec(b: Board, e: nat, p: Point): (Board, bool)
    requires Closed(b) && e < |b.elems|
  {
    (b.(elems := b.elems[e := b.elems[e].(disps := Offsets(b, e))]),
     StrictlyWithin(b.elems[e].pos, DefaultBbox.width, DefaultBbox.height, p))
  }

  /**
   * The hit test answers whether p lies strictly within SPACING/2 of the
   * element's centre on both axes, and then p snaps to the centre when the
   * centre is on the grid. Afterwards `disps[i]` is the vector from the
   * element to its i-th node; nothing else changes.
   */
  lemma ElementInBboxEffect(b: Board, e: nat, p: Point)
    requires Closed(b) && e < |b.elems|
    ensures var r, E := ElementInBboxSpec(b, e, p).0, b.elems[e];
            SameWiring(b, r) && Closed(r) && r.nodes == b.nodes && r.conns == b.conns &&
            r.elems == b.elems[e := E.(disps := r.elems[e].disps)] &&
            |r.elems[e].disps| == |E.nodes| &&
            (BelowAt(E.nodes, |b.nodes|);
             forall i :: 0 <= i < |E.nodes| ==> b.nodes[E.nodes[i]].pos == E.pos.Plus(r.elems[e].disps[i]))
    ensures ElementInBboxSpec(b, e, p).1 <==>
              Abs(p.x - b.elems[e].pos.x) < SPACING / 2 && Abs(p.y - b.elems[e].pos.y) < SPACING / 2
    ensures ElementInBboxSpec(b, e, p).1 && b.elems[e].pos.x % SPACING == 0 && b.elems[e].pos.y % SPACING == 0 ==>
              SnapPoint(p) == b.elems[e].pos
  {
    var r := ElementInBboxSpec(b, e, p).0;
    SameWiringKeeps(b, r);
    var c := b.elems[e].pos;
    if ElementInBboxSpec(b, e, p).1 && c.x % SPACING == 0 && c.y % SPACING == 0 {
      SnapsToNearbyGridLine(p.x, c.x / SPACING);
      SnapsToNearbyGridLine(p.y, c.y / SPACING);
    }
  }

  /**
   * Where the drag loop puts the j-th node of element e: an exclusive node is
   * dragged to its recorded offset from the centre, snapped; any other node stays.
   */
  function DragTarget(b: Board, e: nat, j: nat): Node
    requires Closed(b) && e < |b.elems| && j < |b.elems[e].nodes| && j < |b.elems[e].disps|
  {
    var E := b.elems[e];
    var n := E.nodes[j];
    assert n in E.nodes;
    if Exclusive(b, n) then b.nodes[n].(pos := SnapPoint(E.disps[j].Plus(E.pos))) else b.nodes[n]
  }

  /** One step of the drag loop: the j-th node of element e is dragged when it is exclusive. */
  function DragOne(b: Board, e: nat, j: nat): (r: Board)
    requires Closed(b) && e < |b.elems| && j < |b.elems[e].nodes| && j < |b.elems[e].disps|
    ensures SameWiring(b, r) && Closed(r) && r.elems == b.elems
    ensures (BelowAt(b.elems[e].nodes, |b.nodes|); r.nodes == b.nodes[b.elems[e].nodes[j] := DragTarget(b, e, j)])
  {
    var E := b.elems[e];
    var n := E.nodes[j];
    assert n in E.nodes;
    if Exclusive(b, n) then
      NodeDragEffect(b, n, E.disps[j].Plus(E.pos));
      NodeDragSpec(b, n, E.disps[j].Plus(E.pos))
    else
      assert b.nodes[n := b.nodes[n]] == b.nodes;
      b
  }

  /** The first i nodes of element e are at their drag targets and every other node is as in b. */
  predicate NodesDragged(b: Board, r: Board, e: nat, i: nat)
    requires Closed(b) && e < |b.elems| && i <= |b.elems[e].nodes| && i <= |b.elems[e].disps|
  {
    var E := b.elems[e];
    |r.nodes| == |b.nodes| &&
    (BelowAt(E.nodes, |b.nodes|); forall j :: 0 <= j < i ==> r.nodes[E.nodes[j]] == DragTarget(b, e, j)) &&
    (forall n :: 0 <= n < |b.nodes| && n !in E.nodes[..i] ==> r.nodes[n] == b.nodes[n])
  }

  /**
   * A drag step extends the nodes dragged by one: a node not yet met is moved
   * to its target, and a node met in an earlier slot is shared and stays.
   */
  lemma NodesDraggedStep(b: Board, m: Board, e: nat, i: nat)
    requires Closed(b) && e < |b.elems| && RepeatsShared(b, e)
    requires 0 < i <= |b.elems[e].nodes| && i <= |b.elems[e].disps|
    requires SameWiring(b, m) && Closed(m) && m.elems == b.elems && NodesDragged(b, m, e, i - 1)
    ensures NodesDragged(b, DragOne(m, e, i - 1), e, i)
  {
    var E := b.elems[e];
    var n := E.nodes[i - 1];
    BelowAt(E.nodes, |b.nodes|);
    if n in E.nodes[..i - 1] {
      NodesDraggedRepeat(b, m, e, i);
    } else {
      DragTargetSame(b, m, e, i - 1);
      NodesDraggedExtend(b, m, DragOne(m, e, i - 1), e, i);
    }
  }

  /** A drag step on a node met in an earlier slot changes nothing, and the first i nodes are dragged. */
  lemma NodesDraggedRepeat(b: Board, m: Board, e: nat, i: nat)
    requires Closed(b) && e < |b.elems| && RepeatsShared(b, e)
    requires 0 < i <= |b.elems[e].nodes| && i <= |b.elems[e].disps|
    requires SameWiring(b, m) && Closed(m) && m.elems == b.elems && NodesDragged(b, m, e, i - 1)
    requires b.elems[e].nodes[i - 1] in b.elems[e].nodes[..i - 1]
    ensures DragOne(m, e, i - 1) == m && NodesDragged(b, m, e, i)
  {
    var E := b.elems[e];
    var n := E.nodes[i - 1];
    BelowAt(E.nodes, |b.nodes|);
    SameWiringKeeps(b, m);
    DragOneShared(m, e, i - 1);
    var j0 :| 0 <= j0 < i - 1 && E.nodes[j0] == n;
    assert m.nodes[n] == DragTarget(b, e, j0);
    assert DragTarget(b, e, i - 1) == b.nodes[n] == DragTarget(b, e, j0);
    NodesDraggedAgain(b, m, e, i);
  }

  /** When the i-th node of e was met before and already sits at its own target, the first i nodes are dragged. */
  lemma NodesDraggedAgain(b: Board, m: Board, e: nat, i: nat)
    requires Closed(b) && e < |b.elems| && 0 < i <= |b.elems[e].nodes| && i <= |b.elems[e].disps|
    requires NodesDragged(b, m, e, i - 1)
    requires (BelowAt(b.elems[e].nodes, |b.nodes|); b.elems[e].nodes[i - 1] in b.elems[e].nodes[..i - 1] &&
              m.nodes[b.elems[e].nodes[i - 1]] == DragTarget(b, e, i - 1))
    ensures NodesDragged(b, m, e, i)
  {
    var E := b.elems[e];
    var n := E.nodes[i - 1];
    BelowAt(E.nodes, |b.nodes|);
    assert E.nodes[..i] == E.nodes[..i - 1] + [n];
    forall k | 0 <= k < |b.nodes| && k !in E.nodes[..i]
      ensures m.nodes[k] == b.nodes[k]
    {
      assert k !in E.nodes[..i - 1];
    }
  }

  /** A drag step on a node that is not exclusive leaves the board as it is. */
  lemma DragOneShared(m: Board, e: nat, j: nat)
    requires Closed(m) && e < |m.elems| && j < |m.elems[e].nodes| && j < |m.elems[e].disps|
    requires m.elems[e].nodes[j] < |m.nodes| && !Exclusive(m, m.elems[e].nodes[j])
    ensures DragOne(m, e, j) == m
  {
  }

  /** A node not moved yet drags to the same target on b and on a board with b's wiring and elements. */
  lemma DragTargetSame(b: Board, m: Board, e: nat, j: nat)
    requires Closed(b) && e < |b.elems| && j < |b.elems[e].nodes| && j < |b.elems[e].disps|
    requires SameWiring(b, m) && Closed(m) && m.elems == b.elems
    requires (BelowAt(b.elems[e].nodes, |b.nodes|); m.nodes[b.elems[e].nodes[j]] == b.nodes[b.elems[e].nodes[j]])
    ensures DragTarget(m, e, j) == DragTarget(b, e, j)
  {
    var n := b.elems[e].nodes[j];
    BelowAt(b.elems[e].nodes, |b.nodes|);
    SameWiringKeeps(b, m);
    assert Exclusive(m, n) <==> Exclusive(b, n);
  }

  /** Setting the i-th node of e (not among the first i - 1) to its drag target extends the nodes dragged by one. */
  lemma NodesDraggedExtend(b: Board, m: Board, r: Board, e: nat, i: nat)
    requires Closed(b) && e < |b.elems| && 0 < i <= |b.elems[e].nodes| && i <= |b.elems[e].disps|
    requires NodesDragged(b, m, e, i - 1)
    requires (BelowAt(b.elems[e].nodes, |b.nodes|); b.elems[e].nodes[i - 1] !in b.elems[e].nodes[..i - 1] &&
              r.nodes == m.nodes[b.elems[e].nodes[i - 1] := DragTarget(b, e, i - 1)])
    ensures NodesDragged(b, r, e, i)
  {
    var E := b.elems[e];
    var n := E.nodes[i - 1];
    BelowAt(E.nodes, |b.nodes|);
    forall j | 0 <= j < i
      ensures r.nodes[E.nodes[j]] == DragTarget(b, e, j)
    {
      if j < i - 1 {
        assert E.nodes[j] in E.nodes[..i - 1];
      }
    }
    forall k | 0 <= k < |b.nodes| && k !in E.nodes[..i]
      ensures r.nodes[k] == b.nodes[k]
    {
      assert E.nodes[..i] == E.nodes[..i - 1] + [n];
    }
  }

  /**
   * The loop of `BranchElement.drag` over its first i (node, offset) pairs.
   * When every node repeated in the element's slots is shared, those i nodes
   * end at their drag targets and no other node moves.
   */
  function DragNodes(b: Board, e: nat, i: nat): (r: Board)
    requires Closed(b) && e < |b.elems|
    requires i <= |b.elems[e].nodes| && i <= |b.elems[e].disps|
    ensures SameWiring(b, r) && Closed(r) && r.elems == b.elems
    ensures RepeatsShared(b, e) ==> NodesDragged(b, r, e, i)
  {
    if i == 0 then
      assert b.elems[e].nodes[..0] == [];
      b
    else
      var m := DragNodes(b, e, i - 1);
      var r := DragOne(m, e, i - 1);
      SameWiringTrans(b, m, r);
      if RepeatsShared(b, e) then
        NodesDraggedStep(b, m, e, i);
        r
      else r
  }

  /**
   * `BranchElement.drag(x, y)`: snap the element to the grid point nearest p,
   * then drag every exclusive node to its recorded offset from the new centre.
   */
  function ElementDragSpec(b: Board, e: nat, p: Point): Board
    requires Closed(b) && e < |b.elems|
  {
    var E := b.elems[e];
    var m := b.(elems := b.elems[e := E.(pos := SnapPoint(p))]);
    SameWiringKeeps(b, m);
    var k := if |E.nodes| < |E.disps| then |E.nodes| else |E.disps|;
    DragNodes(m, e, k)
  }

  /** An element drag keeps the wiring, and so keeps the board closed and consistent. */
  lemma ElementDragKeeps(b: Board, e: nat, p: Point)
    requires Closed(b) && e < |b.elems|
    ensures var r, E := ElementDragSpec(b, e, p), b.elems[e];
            SameWiring(b, r) && Closed(r) && (Consistent(b) ==> Consistent(r)) &&
            r.elems == b.elems[e := E.(pos := SnapPoint(p))]
  {
    var E := b.elems[e];
    var m := b.(elems := b.elems[e := E.(pos := SnapPoint(p))]);
    SameWiringKeeps(b, m);
    var k := if |E.nodes| < |E.disps| then |E.nodes| else |E.disps|;
    var r := DragNodes(m, e, k);
    SameWiringTrans(b, m, r);
    SameWiringKeeps(b, r);
  }

  /**
   * The effect of an element drag: the element moves to the grid point
   * nearest p; each exclusive node among those with a recorded offset is
   * dragged to that offset from the new centre, snapped, and every other node
   * stays where it was.
   */
  lemma ElementDragEffect(b: Board, e: nat, p: Point)
    requires Closed(b) && e < |b.elems| && RepeatsShared(b, e)
    ensures var r, E := ElementDragSpec(b, e, p), b.elems[e];
            var k := if |E.nodes| < |E.disps| then |E.nodes| else |E.disps|;
            SameWiring(b, r) && Closed(r) && (Consistent(b) ==> Consistent(r)) &&
            r.elems == b.elems[e := E.(pos := SnapPoint(p))] &&
            (BelowAt(E.nodes, |b.nodes|);
             forall j :: 0 <= j < k ==>
               r.nodes[E.nodes[j]] ==
                 if Exclusive(b, E.nodes[j]) then b.nodes[E.nodes[j]].(pos := SnapPoint(E.disps[j].Plus(SnapPoint(p))))
                 else b.nodes[E.nodes[j]]) &&
            (forall n :: 0 <= n < |b.nodes| && n !in E.nodes[..k] ==> r.nodes[n] == b.nodes[n])
  {
    var E := b.elems[e];
    ElementDragKeeps(b, e, p);
    var m := b.(elems := b.elems[e := E.(pos := SnapPoint(p))]);
    SameWiringKeeps(b, m);
    RepeatsSharedKeeps(b, m, e);
    var k := if |E.nodes| < |E.disps| then |E.nodes| else |E.disps|;
    var r := DragNodes(m, e, k);
    assert NodesDragged(m, r, e, k);
    BelowAt(E.nodes, |b.nodes|);
    forall j | 0 <= j < k
      ensures DragTarget(m, e, j) ==
                if Exclusive(b, E.nodes[j]) then b.nodes[E.nodes[j]].(pos := SnapPoint(E.disps[j].Plus(SnapPoint(p))))
                else b.nodes[E.nodes[j]]
    {
    }
  }

  /** A point whose coordinates are multiples of SPACING. */
  predicate OnGrid(p: Point)
  {
    p.x % SPACING == 0 && p.y % SPACING == 0
  }

  /** Snapping a grid point leaves it in place. */
  lemma SnapOnGrid(p: Point)
    requires OnGrid(p)
    ensures SnapPoint(p) == p
  {
    GridIndexOfMultiple(p.x / SPACING);
    GridIndexOfMultiple(p.y / SPACING);
  }

  /** A grid point's offset from a grid point, carried to another grid point and snapped, is kept. */
  lemma OffsetKept(np: Point, ep: Point, c: Point)
    requires OnGrid(np) && OnGrid(ep) && OnGrid(c)
    ensures SnapPoint(np.Minus(ep).Plus(c)).Minus(c) == np.Minus(ep)
  {
    var w := np.Minus(ep).Plus(c);
    assert OnGrid(w);
    SnapOnGrid(w);
  }

  /** The grid point nearest any point is on the grid. */
  lemma SnapPointOnGrid(p: Point)
    ensures OnGrid(SnapPoint(p))
  {
    SnapIsNearest(p.x, 0);
    SnapIsNearest(p.y, 0);
  }

  /**
   * A click on an element followed by a drag keeps the shape: on a grid-aligned
   * board, every exclusive node keeps its offset from the element, and every
   * other node of the element stays where it was.
   */
  lemma ClickDragKeepsOffsets(b: Board, e: nat, q: Point, p: Point)
    requires Closed(b) && e < |b.elems| && RepeatsShared(b, e)
    requires OnGrid(b.elems[e].pos) && forall n :: n in b.elems[e].nodes ==> n < |b.nodes| && OnGrid(b.nodes[n].pos)
    ensures var r1 := ElementInBboxSpec(b, e, q).0;
            var r2 := ElementDragSpec(r1, e, p);
            var E := b.elems[e];
            forall j :: 0 <= j < |E.nodes| ==>
              (Exclusive(b, E.nodes[j]) ==> r2.nodes[E.nodes[j]].pos.Minus(r2.elems[e].pos) ==
                                            b.nodes[E.nodes[j]].pos.Minus(E.pos)) &&
              (!Exclusive(b, E.nodes[j]) ==> r2.nodes[E.nodes[j]].pos == b.nodes[E.nodes[j]].pos)
  {
    var E := b.elems[e];
    ElementInBboxEffect(b, e, q);
    var r1 := ElementInBboxSpec(b, e, q).0;
    RepeatsSharedKeeps(b, r1, e);
    ElementDragEffect(r1, e, p);
    var r2 := ElementDragSpec(r1, e, p);
    SnapPointOnGrid(p);
    DragKeepsOffsets(b, r1, r2, e, SnapPoint(p));
  }

  /**
   * The drag step of `ClickDragKeepsOffsets`, given what the click recorded
   * (r1) and what the drag did (r2) to the element's nodes.
   */
  lemma DragKeepsOffsets(b: Board, r1: Board, r2: Board, e: nat, c: Point)
    requires Closed(b) && SameWiring(b, r1) && r1.nodes == b.nodes && e < |b.elems| && e < |r2.elems|
    requires |r2.nodes| == |b.nodes| && OnGrid(b.elems[e].pos) && OnGrid(c) && r2.elems[e].pos == c
    requires forall n :: n in b.elems[e].nodes ==> n < |b.nodes| && OnGrid(b.nodes[n].pos)
    requires |r1.elems[e].disps| == |b.elems[e].nodes|
    requires (BelowAt(b.elems[e].nodes, |b.nodes|);
              forall i :: 0 <= i < |b.elems[e].nodes| ==>
                b.nodes[b.elems[e].nodes[i]].pos == b.elems[e].pos.Plus(r1.elems[e].disps[i]))
    requires Closed(r1) &&
             var E1 := r1.elems[e];
             var k := if |E1.nodes| < |E1.disps| then |E1.nodes| else |E1.disps|;
             (BelowAt(E1.nodes, |r1.nodes|);
              forall j :: 0 <= j < k ==>
                r2.nodes[E1.nodes[j]] ==
                  if Exclusive(r1, E1.nodes[j]) then r1.nodes[E1.nodes[j]].(pos := SnapPoint(E1.disps[j].Plus(c)))
                  else r1.nodes[E1.nodes[j]])
    ensures var E := b.elems[e];
            forall j :: 0 <= j < |E.nodes| ==>
              (Exclusive(b, E.nodes[j]) ==> r2.nodes[E.nodes[j]].pos.Minus(r2.elems[e].pos) ==
                                            b.nodes[E.nodes[j]].pos.Minus(E.pos)) &&
              (!Exclusive(b, E.nodes[j]) ==> r2.nodes[E.nodes[j]].pos == b.nodes[E.nodes[j]].pos)
  {
    var E := b.elems[e];
    SameWiringKeeps(b, r1);
    BelowAt(E.nodes, |b.nodes|);
    forall j | 0 <= j < |E.nodes|
      ensures (Exclusive(b, E.nodes[j]) ==> r2.nodes[E.nodes[j]].pos.Minus(r2.elems[e].pos) ==
                                            b.nodes[E.nodes[j]].pos.Minus(E.pos)) &&
              (!Exclusive(b, E.nodes[j]) ==> r2.nodes[E.nodes[j]].pos == b.nodes[E.nodes[j]].pos)
    {
      var n := E.nodes[j];
      assert n in E.nodes;
      var v := r1.elems[e].disps[j];
      assert v == b.nodes[n].pos.Minus(E.pos);
      if Exclusive(b, n) {
        OffsetKept(b.nodes[n].pos, E.pos, c);
      }
    }
  }


  /** r is b with the departures of the connections in ks turned a quarter, links aside. */
  predicate DepartsTurned(b: Board, r: Board, ks: seq<nat>)
  {
    |r.conns| == |b.conns| &&
    forall c :: 0 <= c < |b.conns| ==>
      r.conns[c] == b.conns[c].(d := if c in ks then QuarterTurn(b.conns[c].d) else b.conns[c].d,
                                links := r.conns[c].links)
  }

  /** Turning ks and then a further connection c turns ks + [c]. */
  lemma DepartsTurnedStep(b: Board, m: Board, r: Board, ks: seq<nat>, c: nat)
    requires DepartsTurned(b, m, ks) && DepartsTurned(m, r, [c]) && c !in ks
    ensures DepartsTurned(b, r, ks + [c])
  {
    forall k | 0 <= k < |b.conns|
      ensures r.conns[k] == b.conns[k].(d := if k in ks + [c] then QuarterTurn(b.conns[k].d) else b.conns[k].d,
                                        links := r.conns[k].links)
    {
      assert k in ks + [c] <==> k in ks || k == c;
    }
  }

  /** One step of the first loop of `rotate`: connection c's departure turns a quarter and c is rewired. */
  function TurnOne(b: Board, c: nat): (r: Board)
    requires Closed(b) && c < |b.conns|
    ensures SameWiring(b, r) && Closed(r) && r.elems == b.elems && r.nodes == b.nodes
    ensures DepartsTurned(b, r, [c])
  {
    var t := b.(conns := b.conns[c := b.conns[c].(d := QuarterTurn(b.conns[c].d))]);
    SameWiringKeeps(b, t);
    var r := Rewired(t, c);
    SameWiringTrans(b, t, r);
    SameWiringKeeps(b, r);
    r
  }

  /** The first loop of `rotate`: each of the first i connections gets its departure turned and is rewired. */
  function TurnConns(b: Board, e: nat, i: nat): (r: Board)
    requires Closed(b) && e < |b.elems| && i <= |b.elems[e].connections|
    ensures SameWiring(b, r) && Closed(r) && r.elems == b.elems && r.nodes == b.nodes
  {
    if i == 0 then b
    else
      var m := TurnConns(b, e, i - 1);
      var c := b.elems[e].connections[i - 1];
      assert c in m.elems[e].connections;
      var r := TurnOne(m, c);
      SameWiringTrans(b, m, r);
      r
  }

  /** A node turned a quarter about the centre c, its counter advanced. */
  function TurnedNode(N: Node, c: Point): Node
  {
    N.(pos := TurnedAbout(N.pos, c), rot := NextRot(N.rot))
  }

  /** r is b with those nodes of ns that are exclusive in b turned about c; all other nodes are as in b. */
  predicate NodesTurned(b: Board, r: Board, ns: seq<nat>, c: Point)
    requires Closed(b)
  {
    |r.nodes| == |b.nodes| &&
    forall n :: 0 <= n < |b.nodes| ==>
      r.nodes[n] == if n in ns && Exclusive(b, n) then TurnedNode(b.nodes[n], c) else b.nodes[n]
  }

  /** One step of the second loop of `rotate`: node n is turned about c when it is exclusive. */
  function TurnNodeOne(b: Board, n: nat, c: Point): (r: Board)
    requires Closed(b) && n < |b.nodes|
    ensures SameWiring(b, r) && Closed(r) && r.elems == b.elems && r.conns == b.conns
    ensures NodesTurned(b, r, [n], c)
  {
    if Exclusive(b, n) then
      var r := b.(nodes := b.nodes[n := TurnedNode(b.nodes[n], c)]);
      SameWiringKeeps(b, r);
      r
    else b
  }

  /** Turning the nodes of ns and then a further node turns those of ns + [n]. */
  lemma NodesTurnedStep(b: Board, m: Board, r: Board, ns: seq<nat>, n: nat, c: Point)
    requires Closed(b) && SameWiring(b, m) && NodesTurned(b, m, ns, c) && n !in ns
    requires Closed(m) && NodesTurned(m, r, [n], c)
    ensures NodesTurned(b, r, ns + [n], c)
  {
    SameWiringKeeps(b, m);
    forall k | 0 <= k < |b.nodes|
      ensures r.nodes[k] == if k in ns + [n] && Exclusive(b, k) then TurnedNode(b.nodes[k], c) else b.nodes[k]
    {
      assert k in ns + [n] <==> k in ns || k == n;
    }
  }

  /** The second loop of `rotate`: each of the first i nodes that is exclusive is turned about the centre. */
  function TurnNodes(b: Board, e: nat, i: nat): (r: Board)
    requires Closed(b) && e < |b.elems| && i <= |b.elems[e].nodes|
    ensures SameWiring(b, r) && Closed(r) && r.elems == b.elems && r.conns == b.conns
  {
    if i == 0 then b
    else
      var m := TurnNodes(b, e, i - 1);
      var n := b.elems[e].nodes[i - 1];
      assert n in m.elems[e].nodes;
      var r := TurnNodeOne(m, n, b.elems[e].pos);
      SameWiringTrans(b, m, r);
      r
  }

  /**
   * `BranchElement.rotate()`: advance the element's counter; turn every
   * connection's departure by a quarter and rewire it; then turn every
   * exclusive node a quarter about the element's centre and advance its
   * counter. The rewiring happens before the nodes move, so the links are
   * those for the nodes' old places until they are next rewired.
   */
  function ElementRotateSpec(b: Board, e: nat): (r: Board)
    requires Closed(b) && e < |b.elems|
    ensures Closed(r) && r.elems == b.elems[e := b.elems[e].(rot := NextRot(b.elems[e].rot))]
  {
    var E := b.elems[e];
    var m := b.(elems := b.elems[e := E.(rot := NextRot(E.rot))]);
    SameWiringKeeps(b, m);
    var t := TurnConns(m, e, |E.connections|);
    TurnNodes(t, e, |E.nodes|)
  }

  /** With distinct connections, the first i of them have their departure turned; nothing but links changes elsewhere. */
  lemma {:induction false} TurnConnsEffect(b: Board, e: nat, i: nat)
    requires Closed(b) && e < |b.elems| && i <= |b.elems[e].connections| && Distinct(b.elems[e].connections)
    ensures DepartsTurned(b, TurnConns(b, e, i), b.elems[e].connections[..i])
  {
    var E := b.elems[e];
    if i == 0 {
      assert E.connections[..0] == [];
    } else {
      TurnConnsEffect(b, e, i - 1);
      var m := TurnConns(b, e, i - 1);
      var c := E.connections[i - 1];
      assert c in m.elems[e].connections;
      DistinctPrefixStep(E.connections, i);
      DepartsTurnedStep(b, m, TurnOne(m, c), E.connections[..i - 1], c);
    }
  }

  /**
   * When every node repeated in the element's slots is shared, the first i
   * nodes are turned exactly when exclusive; all else is unchanged.
   */
  lemma {:induction false} TurnNodesEffect(b: Board, e: nat, i: nat)
    requires Closed(b) && e < |b.elems| && i <= |b.elems[e].nodes| && RepeatsShared(b, e)
    ensures NodesTurned(b, TurnNodes(b, e, i), b.elems[e].nodes[..i], b.elems[e].pos)
  {
    var E := b.elems[e];
    if i == 0 {
      assert E.nodes[..0] == [];
    } else {
      TurnNodesEffect(b, e, i - 1);
      TurnNodesStep(b, TurnNodes(b, e, i - 1), e, i);
    }
  }

  /**
   * Step i of the node loop: turning node i - 1 after the first i - 1 turns
   * the first i. A node met in an earlier slot is shared and stays.
   */
  lemma TurnNodesStep(b: Board, m: Board, e: nat, i: nat)
    requires Closed(b) && e < |b.elems| && 0 < i <= |b.elems[e].nodes| && RepeatsShared(b, e)
    requires SameWiring(b, m) && Closed(m) && m.elems == b.elems
    requires NodesTurned(b, m, b.elems[e].nodes[..i - 1], b.elems[e].pos)
    ensures b.elems[e].nodes[i - 1] < |m.nodes|
    ensures NodesTurned(b, TurnNodeOne(m, b.elems[e].nodes[i - 1], b.elems[e].pos), b.elems[e].nodes[..i], b.elems[e].pos)
  {
    var E := b.elems[e];
    var n := E.nodes[i - 1];
    assert n in m.elems[e].nodes;
    assert E.nodes[..i] == E.nodes[..i - 1] + [n];
    if n in E.nodes[..i - 1] {
      SameWiringKeeps(b, m);
      NodesTurnedAgain(b, m, E.nodes[..i - 1], n, E.pos);
    } else {
      NodesTurnedStep(b, m, TurnNodeOne(m, n, E.pos), E.nodes[..i - 1], n, E.pos);
    }
  }

  /** Turning a node of ns again, when it is not exclusive, changes nothing. */
  lemma NodesTurnedAgain(b: Board, m: Board, ns: seq<nat>, n: nat, c: Point)
    requires Closed(b) && Closed(m) && n < |m.nodes| && NodesTurned(b, m, ns, c) && n in ns
    requires !Exclusive(m, n)
    ensures TurnNodeOne(m, n, c) == m && NodesTurned(b, m, ns + [n], c)
  {
    forall k | 0 <= k < |b.nodes|
      ensures k in ns + [n] <==> k in ns
    {
    }
  }

  /**
   * One rotation, record by record: the element's counter advances; each of
   * its connections has its departure (a, b) turned to (b, -a); each of its
   * exclusive nodes is turned about the centre and its counter advances;
   * everything else keeps its value (links aside).
   */
  lemma ElementRotateEffect(b: Board, e: nat)
    requires Closed(b) && e < |b.elems|
    requires Distinct(b.elems[e].connections) && RepeatsShared(b, e)
    ensures var r, E := ElementRotateSpec(b, e), b.elems[e];
            SameWiring(b, r) && Closed(r) && (Consistent(b) ==> Consistent(r)) &&
            r.elems == b.elems[e := E.(rot := NextRot(E.rot))] &&
            DepartsTurned(b, r, E.connections) && NodesTurned(b, r, E.nodes, E.pos)
  {
    ElementRotateKeeps(b, e);
    RotateDepartsEffect(b, e);
    RotateNodesEffect(b, e);
  }

  /** A rotation advances the element's counter and turns the departures of its connections. */
  lemma RotateDepartsEffect(b: Board, e: nat)
    requires Closed(b) && e < |b.elems| && Distinct(b.elems[e].connections)
    ensures var r, E := ElementRotateSpec(b, e), b.elems[e];
            r.elems == b.elems[e := E.(rot := NextRot(E.rot))] && DepartsTurned(b, r, E.connections)
  {
    var E := b.elems[e];
    var m := b.(elems := b.elems[e := E.(rot := NextRot(E.rot))]);
    SameWiringKeeps(b, m);
    TurnConnsAll(m, e);
    var t := TurnConns(m, e, |E.connections|);
    var r := TurnNodes(t, e, |E.nodes|);
    RotateTurnsDeparts(b, m, t, r, E.connections);
  }

  /** A rotation turns the element's exclusive nodes about its centre. */
  lemma RotateNodesEffect(b: Board, e: nat)
    requires Closed(b) && e < |b.elems| && RepeatsShared(b, e)
    ensures NodesTurned(b, ElementRotateSpec(b, e), b.elems[e].nodes, b.elems[e].pos)
  {
    var E := b.elems[e];
    var m := b.(elems := b.elems[e := E.(rot := NextRot(E.rot))]);
    SameWiringKeeps(b, m);
    var t := TurnConns(m, e, |E.connections|);
    SameWiringTrans(b, m, t);
    RepeatsSharedKeeps(b, t, e);
    TurnNodesAll(t, e);
    var r := TurnNodes(t, e, |E.nodes|);
    RotateTurnsNodes(b, t, r, E.nodes, E.pos);
  }

  /** The whole connection loop turns the departures of all the element's connections. */
  lemma TurnConnsAll(b: Board, e: nat)
    requires Closed(b) && e < |b.elems| && Distinct(b.elems[e].connections)
    ensures DepartsTurned(b, TurnConns(b, e, |b.elems[e].connections|), b.elems[e].connections)
  {
    TurnConnsEffect(b, e, |b.elems[e].connections|);
    assert b.elems[e].connections[..|b.elems[e].connections|] == b.elems[e].connections;
  }

  /** The whole node loop turns all the element's exclusive nodes. */
  lemma TurnNodesAll(b: Board, e: nat)
    requires Closed(b) && e < |b.elems| && RepeatsShared(b, e)
    ensures NodesTurned(b, TurnNodes(b, e, |b.elems[e].nodes|), b.elems[e].nodes, b.elems[e].pos)
  {
    TurnNodesEffect(b, e, |b.elems[e].nodes|);
    assert b.elems[e].nodes[..|b.elems[e].nodes|] == b.elems[e].nodes;
  }

  /** A rotation keeps the wiring, and so keeps the board closed and consistent. */
  lemma ElementRotateKeeps(b: Board, e: nat)
    requires Closed(b) && e < |b.elems|
    ensures SameWiring(b, ElementRotateSpec(b, e)) && Closed(ElementRotateSpec(b, e))
    ensures Consistent(b) ==> Consistent(ElementRotateSpec(b, e))
  {
    var E := b.elems[e];
    var m := b.(elems := b.elems[e := E.(rot := NextRot(E.rot))]);
    SameWiringKeeps(b, m);
    var t := TurnConns(m, e, |E.connections|);
    SameWiringTrans(b, m, t);
    var r := TurnNodes(t, e, |E.nodes|);
    SameWiringTrans(b, t, r);
    SameWiringKeeps(b, r);
  }

  /** The node loop leaves the departures the connection loop turned. */
  lemma RotateTurnsDeparts(b: Board, m: Board, t: Board, r: Board, cs: seq<nat>)
    requires m.conns == b.conns && DepartsTurned(m, t, cs) && r.conns == t.conns
    ensures DepartsTurned(b, r, cs)
  {
  }

  /** The element's counter and the connection loop touch no node and no node's exclusivity. */
  lemma RotateTurnsNodes(b: Board, t: Board, r: Board, ns: seq<nat>, c: Point)
    requires Closed(b) && Closed(t) && SameWiring(b, t) && t.nodes == b.nodes && NodesTurned(t, r, ns, c)
    ensures NodesTurned(b, r, ns, c)
  {
    SameWiringKeeps(b, t);
  }

  /** Everything of a board but the connections' links. */
  predicate SameButLinks(b: Board, r: Board)
  {
    r.elems == b.elems && r.nodes == b.nodes && r.anchors == b.anchors &&
    r.toplayer == b.toplayer && r.active == b.active && |r.conns| == |b.conns| &&
    forall c :: 0 <= c < |b.conns| ==> r.conns[c] == b.conns[c].(links := r.conns[c].links)
  }

  /** Four quarter turns of the departures of the same connections give back every departure. */
  lemma DepartsFourTimes(b: Board, r1: Board, r2: Board, r3: Board, r4: Board, cs: seq<nat>)
    requires DepartsTurned(b, r1, cs) && DepartsTurned(r1, r2, cs)
    requires DepartsTurned(r2, r3, cs) && DepartsTurned(r3, r4, cs)
    ensures |r4.conns| == |b.conns|
    ensures forall c :: 0 <= c < |b.conns| ==> r4.conns[c] == b.conns[c].(links := r4.conns[c].links)
  {
  }

  /** A node turned four times about the same centre, its counter kept in 0..3, is back where it was. */
  lemma TurnedNodeFourTimes(N: Node, c: Point)
    requires 0 <= N.rot < 4
    ensures TurnedNode(TurnedNode(TurnedNode(TurnedNode(N, c), c), c), c) == N
  {
    TurnAboutFourTimes(N.pos, c);
  }

  /** Four turns of the same exclusive nodes about the same centre give back every node. */
  lemma NodesFourTimes(b: Board, r1: Board, r2: Board, r3: Board, r4: Board, ns: seq<nat>, c: Point)
    requires Closed(b) && Closed(r1) && Closed(r2) && Closed(r3)
    requires SameWiring(b, r1) && SameWiring(b, r2) && SameWiring(b, r3)
    requires NodesTurned(b, r1, ns, c) && NodesTurned(r1, r2, ns, c)
    requires NodesTurned(r2, r3, ns, c) && NodesTurned(r3, r4, ns, c)
    requires forall n :: n in ns ==> n < |b.nodes| && 0 <= b.nodes[n].rot < 4
    ensures r4.nodes == b.nodes
  {
    SameWiringKeeps(b, r1);
    SameWiringKeeps(b, r2);
    SameWiringKeeps(b, r3);
    forall n | 0 <= n < |b.nodes|
      ensures r4.nodes[n] == b.nodes[n]
    {
      if n in ns && Exclusive(b, n) {
        TurnedNodeFourTimes(b.nodes[n], c);
      }
    }
  }

  /**
   * Four rotations bring everything back but the links: the element's and
   * the turned nodes' counters (kept in 0..3), every departure and every
   * node position.
   */
  lemma FourRotations(b: Board, e: nat)
    requires Closed(b) && e < |b.elems|
    requires Distinct(b.elems[e].connections) && RepeatsShared(b, e)
    requires 0 <= b.elems[e].rot < 4
    requires forall n :: n in b.elems[e].nodes ==> n < |b.nodes| && 0 <= b.nodes[n].rot < 4
    ensures var r1 := ElementRotateSpec(b, e);
            Closed(r1) && var r2 := ElementRotateSpec(r1, e);
            Closed(r2) && var r3 := ElementRotateSpec(r2, e);
            Closed(r3) && SameButLinks(b, ElementRotateSpec(r3, e))
  {
    var E := b.elems[e];
    RotateAgain(b, b, e);
    var r1 := ElementRotateSpec(b, e);
    RotateAgain(b, r1, e);
    var r2 := ElementRotateSpec(r1, e);
    RotateAgain(b, r2, e);
    var r3 := ElementRotateSpec(r2, e);
    RotateAgain(b, r3, e);
    var r4 := ElementRotateSpec(r3, e);
    ElemsFourTimes(b.elems, r1.elems, r2.elems, r3.elems, r4.elems, e);
    DepartsFourTimes(b, r1, r2, r3, r4, E.connections);
    NodesFourTimes(b, r1, r2, r3, r4, E.nodes, E.pos);
  }

  /** Four advances of the same element's counter, kept in 0..3, give back the element list. */
  lemma ElemsFourTimes(es: seq<Element>, e1: seq<Element>, e2: seq<Element>, e3: seq<Element>, e4: seq<Element>, e: nat)
    requires e < |es| && 0 <= es[e].rot < 4
    requires e1 == es[e := es[e].(rot := NextRot(es[e].rot))]
    requires e2 == e1[e := e1[e].(rot := NextRot(e1[e].rot))]
    requires e3 == e2[e := e2[e].(rot := NextRot(e2[e].rot))]
    requires e4 == e3[e := e3[e].(rot := NextRot(e3[e].rot))]
    ensures e4 == es
  {
    var E := es[e];
    assert e4 == es[e := E.(rot := NextRot(NextRot(NextRot(NextRot(E.rot)))))];
    assert NextRot(NextRot(NextRot(NextRot(E.rot)))) == E.rot;
  }

  /** A further rotation of a board wired as b, with the element where b has it, turns b's connections and nodes of the element. */
  lemma RotateAgain(b: Board, s: Board, e: nat)
    requires Closed(b) && Closed(s) && SameWiring(b, s) && e < |b.elems|
    requires Distinct(b.elems[e].connections) && RepeatsShared(b, e)
    requires s.elems[e].pos == b.elems[e].pos
    ensures var r, E := ElementRotateSpec(s, e), b.elems[e];
            Closed(r) && SameWiring(b, r) &&
            r.elems == s.elems[e := s.elems[e].(rot := NextRot(s.elems[e].rot))] &&
            DepartsTurned(s, r, E.connections) && NodesTurned(s, r, E.nodes, E.pos)
  {
    RepeatsSharedKeeps(b, s, e);
    ElementRotateEffect(s, e);
    SameWiringTrans(b, s, ElementRotateSpec(s, e));
  }
}
