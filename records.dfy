/**
 * The objects of the current engine (sccircuitbuilder/) as records in an
 * object store. A Python reference becomes a handle: the index of the record
 * in its table. The five lists of a `Circuit` hold handles, and so do the
 * records themselves (a node's elements and connections, an element's nodes
 * and connections, a connection's anchors, an anchor's connection).
 *
 * A wire belongs to exactly one connection and is never shared, so it is kept
 * as a value inside its connection's record; its endpoints are handles.
 */
module Records {
  import opened Geometry
  import opened Routing

  /** What a wire starts or ends at: the element (a connection's origin), a node or an anchor. */
  datatype Endpoint = ElementEnd(e: nat) | NodeEnd(n: nat) | AnchorEnd(a: nat)

  /** `Wire`: origin, destination, departure vector d and the routed links with their orientation. */
  datatype Wire = Wire(origin: Endpoint, dest: Endpoint, d: Point, links: seq<Link>, orientation: int)

  /** `Node` and `Ground` (ground == true): index, position, quarter turns, incident elements and connections. */
  datatype NodeRec = NodeRec(ground: bool, idx: int, pos: Point, rot: int, elements: seq<nat>, connections: seq<nat>)

  /** A branch element: kind name, icon, position, quarter turns, named property values, its node slots and connections. */
  datatype ElementRec = ElementRec(name: string, icon: string, pos: Point, rot: int,
                                   properties: seq<(string, string)>, nodes: seq<nat>, connections: seq<nat>)

  /** `Connection`: origin element, destination node, displacement, anchors (insertion order) and wires. */
  datatype ConnRec = ConnRec(origin: nat, dest: nat, displacement: Point, anchors: seq<nat>, wires: seq<Wire>)

  /** `Anchor`: a grid point on a connection's path. */
  datatype AnchorRec = AnchorRec(pos: Point, connection: nat)

  /** One thing the canvas can hand to an operation: `drop` receives whatever lies under the cursor. */
  datatype Item = ElementItem(e: nat) | NodeItem(n: nat) | AnchorItem(a: nat) | ConnectionItem(c: nat)

  /** All objects ever created, by kind. */
  datatype Store = Store(elems: seq<ElementRec>, nodes: seq<NodeRec>, conns: seq<ConnRec>, anchors: seq<AnchorRec>)

  /** A circuit's five lists of handles together with the store they point into. */
  datatype Graph = Graph(elements: seq<nat>, nodes: seq<nat>, grounds: seq<nat>,
                         connections: seq<nat>, anchors: seq<nat>, store: Store)

  /** Every handle in the circuit's lists names a record of the right kind. */
  predicate ListsIn(g: Graph)
  {
    (forall h :: h in g.elements ==> h < |g.store.elems|) &&
    (forall h :: h in g.nodes ==> h < |g.store.nodes|) &&
    (forall h :: h in g.grounds ==> h < |g.store.nodes|) &&
    (forall h :: h in g.connections ==> h < |g.store.conns|) &&
    (forall h :: h in g.anchors ==> h < |g.store.anchors|)
  }

  /** `nodes` holds plain nodes and `grounds` holds grounds (`add_node` is called by `Node`, `add_ground` by `Ground`). */
  predicate Kinded(g: Graph)
  {
    (forall h :: h in g.nodes ==> h < |g.store.nodes| && !g.store.nodes[h].ground) &&
    (forall h :: h in g.grounds ==> h < |g.store.nodes| && g.store.nodes[h].ground)
  }

  /** The numbering `remove_node`, `add_node` and `add_circuit` maintain: the node at position i has index i+1. */
  predicate Dense(g: Graph)
  {
    forall i :: 0 <= i < |g.nodes| ==> g.nodes[i] < |g.store.nodes| && g.store.nodes[g.nodes[i]].idx == i + 1
  }

  predicate EndIn(st: Store, e: Endpoint)
  {
    match e
    case ElementEnd(h) => h < |st.elems|
    case NodeEnd(h) => h < |st.nodes|
    case AnchorEnd(h) => h < |st.anchors|
  }

  /** The world position of an endpoint (`.x`, `.y` of the object). */
  function EndPos(st: Store, e: Endpoint): Point
    requires EndIn(st, e)
  {
    match e
    case ElementEnd(h) => st.elems[h].pos
    case NodeEnd(h) => st.nodes[h].pos
    case AnchorEnd(h) => st.anchors[h].pos
  }

  predicate WireIn(st: Store, w: Wire)
  {
    EndIn(st, w.origin) && EndIn(st, w.dest)
  }

  /** Every wire of connection c has endpoints in the store. */
  predicate WiresIn(st: Store, c: nat)
  {
    c < |st.conns| && forall i :: 0 <= i < |st.conns[c].wires| ==> WireIn(st, st.conns[c].wires[i])
  }

  /** `Wire.rewire` on a wire value: the links and orientation routed between the endpoints' current positions. */
  function Rewired(st: Store, w: Wire): (r: Wire)
    requires WireIn(st, w)
  {
    var o, t := EndPos(st, w.origin), EndPos(st, w.dest);
    w.(links := WireRoute(o, t, w.d),
       orientation := if VerticalFirst(w.d, StartCell(o, w.d), GridOf(t)) then 1 else 0)
  }

  /** A rewired wire keeps its endpoints and d, and its links are a unit-step path from the start cell toward the destination's cell. */
  lemma RewiredIsRoute(st: Store, w: Wire)
    requires WireIn(st, w)
    ensures var r := Rewired(st, w);
      var o, t := StartCell(EndPos(st, w.origin), w.d), GridOf(EndPos(st, w.dest));
      r.origin == w.origin && r.dest == w.dest && r.d == w.d &&
      |r.links| == Abs(t.x - o.x) + Abs(t.y - o.y) && Stepwise(r.links) &&
      (r.links != [] ==> r.links[0] == Link(o.x, o.y))
  {
    var o, t := StartCell(EndPos(st, w.origin), w.d), GridOf(EndPos(st, w.dest));
    RouteLength(o, t, VerticalFirst(w.d, o, t));
    RouteConnects(o, t, VerticalFirst(w.d, o, t));
  }

  /** The `Wire` constructor: store the fields, then rewire. */
  method NewWire(st: Store, origin: Endpoint, dest: Endpoint, d: Point) returns (w: Wire)
    requires EndIn(st, origin) && EndIn(st, dest)
    ensures w == Rewired(st, Wire(origin, dest, d, [], 0))
  {
    w := Wire(origin, dest, d, [], 0);
    w := RewireWire(st, w);
  }

  /** `Wire.rewire`: clear the links and route them again from the endpoints' positions. */
  method RewireWire(st: Store, w: Wire) returns (r: Wire)
    requires WireIn(st, w)
    ensures r == Rewired(st, w)
  {
    var links, orientation := RewireLinks(EndPos(st, w.origin), EndPos(st, w.dest), w.d);
    r := w.(links := links, orientation := orientation);
  }

  /** The object store: every record of the running program, addressed by handle. */
  class Heap {
    var elems: seq<ElementRec>
    var nodes: seq<NodeRec>
    var conns: seq<ConnRec>
    var anchors: seq<AnchorRec>

    function Contents(): Store
      reads this
    {
      Store(elems, nodes, conns, anchors)
    }

    constructor ()
      ensures Contents() == Store([], [], [], [])
    {
      elems, nodes, conns, anchors := [], [], [], [];
    }
  }
}
