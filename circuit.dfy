/**
 * The graph container of the current engine (sccircuitbuilder/circuit.py):
 * five lists of handles (elements, nodes, grounds, connections, anchors) and
 * the operations that add to and remove from them.
 *
 * Each operation is specified by a function on the `Graph` value (the lists
 * together with the store); the `Circuit` class implements it with the
 * source's loops, and the lemmas state what the operations promise: dense
 * node numbering 1..N, cascading removal, and iteration order.
 */
module Circuits {
  import opened Lists
  import opened Options
  import opened Records

  /** The renumbering loop `for i, node in enumerate(order): node.idx = i+1`, on the node records. */
  function Renumber(recs: seq<NodeRec>, order: seq<nat>): (r: seq<NodeRec>)
    requires forall i :: 0 <= i < |order| ==> order[i] < |recs|
    ensures |r| == |recs|
    ensures forall h :: 0 <= h < |recs| ==> r[h] == recs[h].(idx := r[h].idx)
    decreases |order|
  {
    if order == [] then recs
    else
      var k := |order| - 1;
      var p := Renumber(recs, order[..k]);
      p[order[k] := p[order[k]].(idx := k + 1)]
  }

  /** Over a list without repeats, the record at position i gets index i+1 and records not in the list are untouched. */
  lemma {:induction false} RenumberNumbers(recs: seq<NodeRec>, order: seq<nat>)
    requires forall i :: 0 <= i < |order| ==> order[i] < |recs|
    requires Distinct(order)
    ensures forall i :: 0 <= i < |order| ==> Renumber(recs, order)[order[i]].idx == i + 1
    ensures forall h :: 0 <= h < |recs| && h !in order ==> Renumber(recs, order)[h] == recs[h]
    decreases |order|
  {
    if order != [] {
      var k := |order| - 1;
      assert Distinct(order[..k]);
      RenumberNumbers(recs, order[..k]);
      RenumberStep(recs, Renumber(recs, order[..k]), order);
    }
  }

  /** The last renumbering step keeps the numbers of the earlier positions and the untouched records. */
  lemma RenumberStep(recs: seq<NodeRec>, p: seq<NodeRec>, order: seq<nat>)
    requires order != [] && Distinct(order) && |p| == |recs|
    requires forall i :: 0 <= i < |order| ==> order[i] < |recs|
    requires var ks := order[..|order| - 1];
      (forall i :: 0 <= i < |ks| ==> p[ks[i]].idx == i + 1) &&
      (forall h :: 0 <= h < |recs| && h !in ks ==> p[h] == recs[h])
    ensures var k := |order| - 1; var r := p[order[k] := p[order[k]].(idx := k + 1)];
      (forall i :: 0 <= i < |order| ==> r[order[i]].idx == i + 1) &&
      (forall h :: 0 <= h < |recs| && h !in order ==> r[h] == recs[h])
  {
    var k := |order| - 1;
    var r := p[order[k] := p[order[k]].(idx := k + 1)];
    forall i | 0 <= i < k
      ensures r[order[i]].idx == i + 1
    {
      assert order[i] == order[..k][i] && order[i] != order[k];
    }
    forall h | 0 <= h < |recs| && h !in order
      ensures r[h] == recs[h]
    {
      assert h !in order[..k] && h != order[k];
    }
  }

  /** `add_node`: the node gets index len(nodes)+1, then is appended. */
  function AddNodeSpec(g: Graph, n: nat): Graph
    requires n < |g.store.nodes|
  {
    g.(nodes := g.nodes + [n],
       store := g.store.(nodes := g.store.nodes[n := g.store.nodes[n].(idx := |g.nodes| + 1)]))
  }

  /** A node added to a densely numbered list keeps the numbering dense; it is last, with index N+1. */
  lemma AddNodeKeepsDense(g: Graph, n: nat)
    requires n < |g.store.nodes| && n !in g.nodes && Dense(g)
    ensures Dense(AddNodeSpec(g, n))
    ensures AddNodeSpec(g, n).store.nodes[n].idx == |AddNodeSpec(g, n).nodes|
  {
    var r := AddNodeSpec(g, n);
    forall i | 0 <= i < |r.nodes|
      ensures r.store.nodes[r.nodes[i]].idx == i + 1
    {
      if i < |g.nodes| {
        assert r.nodes[i] == g.nodes[i] && g.nodes[i] != n;
      }
    }
  }

  /** `remove_node`: remove the node from the list, then renumber the rest 1..N in list order. */
  function RemoveNodeSpec(g: Graph, n: nat): (r: Graph)
    requires ListsIn(g) && n in g.nodes
    ensures ListsIn(r) && r.store.elems == g.store.elems && r.store.conns == g.store.conns && r.store.anchors == g.store.anchors
    ensures r.elements == g.elements && r.grounds == g.grounds && r.connections == g.connections && r.anchors == g.anchors
    ensures |r.store.nodes| == |g.store.nodes|
    ensures forall h :: 0 <= h < |g.store.nodes| ==> r.store.nodes[h] == g.store.nodes[h].(idx := r.store.nodes[h].idx)
    ensures forall h :: h != n ==> (h in r.nodes <==> h in g.nodes)
    ensures Distinct(g.nodes) ==> Distinct(r.nodes) && n !in r.nodes && Dense(r)
  {
    var ns := RemoveFirst(g.nodes, n);
    RemoveFirstKeepsOthers(g.nodes, n);
    BelowAt(ns, |g.store.nodes|);
    var r := g.(nodes := ns, store := g.store.(nodes := Renumber(g.store.nodes, ns)));
    if Distinct(g.nodes) then RenumberNumbers(g.store.nodes, ns); r else r
  }

  /** `remove_ground`: remove the ground from the grounds list; nothing is renumbered. */
  function RemoveGroundSpec(g: Graph, n: nat): (r: Graph)
    requires ListsIn(g) && n in g.grounds
    ensures ListsIn(r) && r.store == g.store
    ensures r.elements == g.elements && r.nodes == g.nodes && r.connections == g.connections && r.anchors == g.anchors
    ensures forall h :: h != n ==> (h in r.grounds <==> h in g.grounds)
    ensures Distinct(g.grounds) ==> Distinct(r.grounds) && n !in r.grounds
  {
    RemoveFirstKeepsOthers(g.grounds, n);
    g.(grounds := RemoveFirst(g.grounds, n))
  }

  /** What `delete` needs: a node is in the node list, a ground in the ground list. */
  predicate Registered(g: Graph, n: nat)
    requires n < |g.store.nodes|
  {
    if g.store.nodes[n].ground then n in g.grounds else n in g.nodes
  }

  /** `Node.delete` (`remove_node`) and `Ground.delete` (`remove_ground`). */
  function DeleteNodeSpec(g: Graph, n: nat): (r: Graph)
    requires ListsIn(g) && n < |g.store.nodes| && Registered(g, n)
  {
    if g.store.nodes[n].ground then RemoveGroundSpec(g, n) else RemoveNodeSpec(g, n)
  }

  /** `remove_connection`: remove the connection, then each of its anchors in turn. */
  function RemoveConnectionSpec(g: Graph, c: nat): (r: Graph)
    requires ListsIn(g) && c in g.connections && c < |g.store.conns|
    requires multiset(g.store.conns[c].anchors) <= multiset(g.anchors)
    ensures ListsIn(r) && r.store == g.store && r.elements == g.elements && r.nodes == g.nodes && r.grounds == g.grounds
    ensures multiset(r.connections) == multiset(g.connections) - multiset{c}
    ensures multiset(r.anchors) == multiset(g.anchors) - multiset(g.store.conns[c].anchors)
  {
    var r := g.(connections := RemoveFirst(g.connections, c),
                anchors := RemoveEach(g.anchors, g.store.conns[c].anchors));
    FewerListsIn(g, r);
    r
  }

  /** Dropping handles from the connection and anchor lists keeps the circuit closed. */
  lemma FewerListsIn(g: Graph, r: Graph)
    requires ListsIn(g) && r.store == g.store && r.elements == g.elements && r.nodes == g.nodes && r.grounds == g.grounds
    requires (forall h :: h in r.connections ==> h in g.connections) && (forall h :: h in r.anchors ==> h in g.anchors)
    ensures ListsIn(r)
  {
  }

  /** The anchors owned by the connections cs, in order. */
  function AnchorsOf(conns: seq<ConnRec>, cs: seq<nat>): seq<nat>
    requires forall i :: 0 <= i < |cs| ==> cs[i] < |conns|
    decreases |cs|
  {
    if cs == [] then [] else AnchorsOf(conns, cs[..|cs| - 1]) + conns[cs[|cs| - 1]].anchors
  }

  /** `remove_element`'s test for one node: the element is its only element (then it is deleted), or it lists the element. */
  predicate DetachStepOk(g: Graph, e: nat, n: nat)
    requires n < |g.store.nodes|
  {
    var rec := g.store.nodes[n];
    if |rec.elements| == 1 then Registered(g, n) else e in rec.elements
  }

  /** `remove_element`'s first loop, over the element's nodes in order: `None` where one of its `remove` calls would raise. */
  function DetachRun(g: Graph, e: nat, ns: seq<nat>): (r: Option<Graph>)
    requires ListsIn(g)
    ensures r.Some? ==> ListsIn(r.value) && NodesOnly(g, r.value) && forall h :: h !in ns ==> Keeps(g, r.value, h)
    ensures r.Some? && Kinded(g) ==> Kinded(r.value)
    decreases |ns|
  {
    if ns == [] then Some(g)
    else
      var k := |ns| - 1;
      var q := DetachRun(g, e, ns[..k]);
      if q.None? || ns[k] >= |q.value.store.nodes| || !DetachStepOk(q.value, e, ns[k]) then None
      else
        var r := DetachStep(q.value, e, ns[k]);
        KeepsStep(g, q.value, r, ns);
        Some(r)
  }

  /** The first loop of `remove_element` runs to its end. */
  predicate DetachOk(g: Graph, e: nat, ns: seq<nat>)
  {
    ListsIn(g) && DetachRun(g, e, ns).Some?
  }

  /** The circuit after the first loop of `remove_element`. */
  function DetachNodes(g: Graph, e: nat, ns: seq<nat>): (r: Graph)
    requires DetachOk(g, e, ns)
    ensures ListsIn(r) && NodesOnly(g, r)
    ensures forall h :: h !in ns ==> Keeps(g, r, h)
    ensures Kinded(g) ==> Kinded(r)
  {
    DetachRun(g, e, ns).value
  }

  /** Node h has the same record (up to its index) and the same list memberships in r as in g. */
  predicate Keeps(g: Graph, r: Graph, h: nat)
  {
    h < |g.store.nodes| && h < |r.store.nodes| ==>
      r.store.nodes[h] == g.store.nodes[h].(idx := r.store.nodes[h].idx) &&
      (h in r.nodes <==> h in g.nodes) && (h in r.grounds <==> h in g.grounds)
  }

  /** Only the node and ground lists and the node records differ between g and r. */
  predicate NodesOnly(g: Graph, r: Graph)
  {
    r.elements == g.elements && r.connections == g.connections && r.anchors == g.anchors &&
    r.store.elems == g.store.elems && r.store.conns == g.store.conns && r.store.anchors == g.store.anchors &&
    |r.store.nodes| == |g.store.nodes|
  }

  /** Loop body of `remove_element` for one node: delete it if this is its only element, else drop the element from its list. */
  function DetachStep(g: Graph, e: nat, n: nat): (r: Graph)
    requires ListsIn(g) && n < |g.store.nodes| && DetachStepOk(g, e, n)
    ensures ListsIn(r) && NodesOnly(g, r)
    ensures forall h :: h != n ==> Keeps(g, r, h)
    ensures Kinded(g) ==> Kinded(r)
  {
    var rec := g.store.nodes[n];
    if |rec.elements| == 1 then DeleteNodeSpec(g, n)
    else g.(store := g.store.(nodes := g.store.nodes[n := rec.(elements := RemoveFirst(rec.elements, e))]))
  }

  /** One step deletes an exclusive node from its list and drops the element from a shared one; lists stay repeat-free and numbering dense. */
  lemma DetachStepEffect(g: Graph, e: nat, n: nat)
    requires ListsIn(g) && Kinded(g) && n < |g.store.nodes| && DetachStepOk(g, e, n)
    requires Distinct(g.nodes) && Distinct(g.grounds)
    ensures var r := DetachStep(g, e, n); var L := g.store.nodes[n].elements;
      Distinct(r.nodes) && Distinct(r.grounds) && (Dense(g) ==> Dense(r)) &&
      r.store.nodes[n] == g.store.nodes[n].(idx := r.store.nodes[n].idx, elements := r.store.nodes[n].elements) &&
      (|L| == 1 ==> n !in r.nodes && n !in r.grounds && r.store.nodes[n].elements == L) &&
      (|L| != 1 ==> r.store.nodes[n].elements == RemoveFirst(L, e) && r.nodes == g.nodes && r.grounds == g.grounds)
  {
  }

  /** One more step keeps, up to index, every node outside the run. */
  lemma KeepsStep(g: Graph, p: Graph, r: Graph, ns: seq<nat>)
    requires ns != [] && NodesOnly(g, p) && NodesOnly(p, r)
    requires forall h :: h !in ns[..|ns| - 1] ==> Keeps(g, p, h)
    requires forall h :: h != ns[|ns| - 1] ==> Keeps(p, r, h)
    ensures NodesOnly(g, r) && forall h :: h !in ns ==> Keeps(g, r, h)
  {
    var k := |ns| - 1;
    assert ns == ns[..k] + [ns[k]];
    forall h: nat | h !in ns
      ensures Keeps(g, r, h)
    {
      assert h !in ns[..k] && h != ns[k];
      assert Keeps(g, p, h) && Keeps(p, r, h);
      if h < |g.store.nodes| {
        assert r.store.nodes[h] == p.store.nodes[h].(idx := r.store.nodes[h].idx);
        assert p.store.nodes[h] == g.store.nodes[h].(idx := p.store.nodes[h].idx);
      }
    }
  }

  /** Step i of the detach loop: the first i + 1 nodes are detached by detaching node i after the first i. */
  lemma DetachNodesNext(g: Graph, e: nat, ns: seq<nat>, i: nat)
    requires DetachOk(g, e, ns) && i < |ns|
    ensures DetachOk(g, e, ns[..i]) && DetachOk(g, e, ns[..i + 1])
    ensures var p := DetachNodes(g, e, ns[..i]);
      ns[i] < |p.store.nodes| && DetachStepOk(p, e, ns[i]) &&
      DetachNodes(g, e, ns[..i + 1]) == DetachStep(p, e, ns[i])
  {
    DetachOkPrefix(g, e, ns, i + 1);
    assert ns[..i + 1][..i] == ns[..i];
  }

  /** A loop that runs to its end runs through each of its prefixes. */
  lemma {:induction false} DetachOkPrefix(g: Graph, e: nat, ns: seq<nat>, k: nat)
    requires DetachOk(g, e, ns) && k <= |ns|
    ensures DetachOk(g, e, ns[..k])
    decreases |ns|
  {
    if k < |ns| {
      var m := |ns| - 1;
      assert DetachOk(g, e, ns[..m]);
      DetachOkPrefix(g, e, ns[..m], k);
      assert ns[..m][..k] == ns[..k];
    } else {
      assert ns[..k] == ns;
    }
  }

  /**
   * What the first loop of `remove_element` needs of node n, which c of the
   * element's slots hold: the steps before the node's list is down to one
   * entry each find the element there and remove it; the step that finds one
   * entry deletes the node, which must then be in its list, and is the last.
   */
  predicate NodeReady(g: Graph, e: nat, n: nat, c: nat)
  {
    n < |g.store.nodes| &&
    var L := g.store.nodes[n].elements;
    c <= |L| && if c == |L| then multiset(L)[e] + 1 >= c && Registered(g, n) else multiset(L)[e] >= c
  }

  /** Every node of the run is ready for as many steps as it occurs. */
  predicate Ready(g: Graph, e: nat, ns: seq<nat>)
  {
    forall n :: n in ns ==> NodeReady(g, e, n, multiset(ns)[n])
  }

  /** Node n's record in r is its record in g up to its index and with element list els. */
  predicate RecordAs(g: Graph, r: Graph, n: nat, els: seq<nat>)
    requires n < |g.store.nodes| && n < |r.store.nodes|
  {
    r.store.nodes[n] == g.store.nodes[n].(idx := r.store.nodes[n].idx, elements := els)
  }

  /**
   * Node n after c steps of the loop: deleted (with c - 1 entries removed) if
   * the c-th step found one entry left; otherwise c entries of the element
   * removed and its list memberships as before.
   */
  predicate NodeDetached(g: Graph, r: Graph, e: nat, n: nat, c: nat)
  {
    n < |g.store.nodes| && n < |r.store.nodes| &&
    var L := g.store.nodes[n].elements;
    if c >= 1 && c == |L| then
      multiset(L)[e] + 1 >= c && RecordAs(g, r, n, RemoveTimes(L, e, c - 1)) && n !in r.nodes && n !in r.grounds
    else
      c <= |L| && multiset(L)[e] >= c && RecordAs(g, r, n, RemoveTimes(L, e, c)) &&
      (n in r.nodes <==> n in g.nodes) && (n in r.grounds <==> n in g.grounds)
  }

  /** Every node after the loop over ns, by the number of times it occurs in ns. */
  predicate Detached(g: Graph, r: Graph, e: nat, ns: seq<nat>)
  {
    forall n :: 0 <= n < |g.store.nodes| ==> NodeDetached(g, r, e, n, multiset(ns)[n])
  }

  /**
   * The first loop of `remove_element` runs to its end exactly when every
   * node is ready for as many steps as the element's slots hold it; it then
   * deletes each node whose entries it used up and removes the element from
   * every other node once per slot; lists stay repeat-free and numbering
   * dense.
   */
  lemma DetachNodesEffect(g: Graph, e: nat, ns: seq<nat>)
    requires ListsIn(g) && Kinded(g) && Distinct(g.nodes) && Distinct(g.grounds)
    ensures DetachOk(g, e, ns) <==> Ready(g, e, ns)
    ensures DetachOk(g, e, ns) ==> var r := DetachNodes(g, e, ns);
      Distinct(r.nodes) && Distinct(r.grounds) && (Dense(g) ==> Dense(r)) &&
      (forall n :: n in ns && multiset(ns)[n] == |g.store.nodes[n].elements| ==> n !in r.nodes && n !in r.grounds) &&
      (forall n :: n in ns && multiset(ns)[n] < |g.store.nodes[n].elements| ==>
         r.store.nodes[n].elements == RemoveTimes(g.store.nodes[n].elements, e, multiset(ns)[n]))
  {
    DetachRunEffect(g, e, ns);
    if DetachOk(g, e, ns) {
      var r := DetachNodes(g, e, ns);
      forall n | n in ns && multiset(ns)[n] == |g.store.nodes[n].elements|
        ensures n !in r.nodes && n !in r.grounds
      {
        assert NodeDetached(g, r, e, n, multiset(ns)[n]);
      }
      forall n | n in ns && multiset(ns)[n] < |g.store.nodes[n].elements|
        ensures r.store.nodes[n].elements == RemoveTimes(g.store.nodes[n].elements, e, multiset(ns)[n])
      {
        assert NodeDetached(g, r, e, n, multiset(ns)[n]);
      }
    }
  }

  /** The induction behind `DetachNodesEffect`, over the prefixes of ns. */
  lemma {:induction false} DetachRunEffect(g: Graph, e: nat, ns: seq<nat>)
    requires ListsIn(g) && Kinded(g) && Distinct(g.nodes) && Distinct(g.grounds)
    ensures DetachRun(g, e, ns).Some? <==> Ready(g, e, ns)
    ensures DetachRun(g, e, ns).Some? ==> var r := DetachRun(g, e, ns).value;
      Detached(g, r, e, ns) && Distinct(r.nodes) && Distinct(r.grounds) && (Dense(g) ==> Dense(r))
    decreases |ns|
  {
    if ns == [] {
      forall n | 0 <= n < |g.store.nodes|
        ensures NodeDetached(g, g, e, n, multiset(ns)[n])
      {
      }
    } else {
      var k := |ns| - 1;
      var q := ns[..k];
      DetachRunEffect(g, e, q);
      if Ready(g, e, ns) {
        ReadyPrefix(g, e, ns);
      }
      if DetachRun(g, e, q).Some? {
        DetachReadyStep(g, DetachRun(g, e, q).value, e, ns);
      }
    }
  }

  /** A run ready for its last step is ready for the steps before it. */
  lemma ReadyPrefix(g: Graph, e: nat, ns: seq<nat>)
    requires ns != [] && Ready(g, e, ns)
    ensures Ready(g, e, ns[..|ns| - 1])
  {
    var k := |ns| - 1;
    var q := ns[..k];
    assert ns == q + [ns[k]];
    forall n | n in q
      ensures NodeReady(g, e, n, multiset(q)[n])
    {
      var c := multiset(q)[n];
      assert NodeReady(g, e, n, multiset(ns)[n]);
      if n == ns[k] {
        assert multiset(ns)[n] == c + 1;
      } else {
        assert multiset(ns)[n] == c;
      }
    }
  }

  /** The last step of the loop: it succeeds exactly when the longer run is ready, and then extends the effect to it. */
  lemma DetachReadyStep(g: Graph, p: Graph, e: nat, ns: seq<nat>)
    requires ns != [] && ListsIn(g) && ListsIn(p) && Kinded(p) && NodesOnly(g, p)
    requires Distinct(p.nodes) && Distinct(p.grounds)
    requires var q := ns[..|ns| - 1]; Ready(g, e, q) && Detached(g, p, e, q)
    ensures var n := ns[|ns| - 1]; n < |p.store.nodes| && DetachStepOk(p, e, n) <==> Ready(g, e, ns)
    ensures var n := ns[|ns| - 1]; n < |p.store.nodes| && DetachStepOk(p, e, n) ==>
      var r := DetachStep(p, e, n);
      Detached(g, r, e, ns) && Distinct(r.nodes) && Distinct(r.grounds) && (Dense(p) ==> Dense(r))
  {
    var k := |ns| - 1;
    var q: seq<nat> := ns[..k];
    var n: nat := ns[k];
    assert ns == q + [n];
    var c: nat := multiset(q)[n];
    assert multiset(ns)[n] == c + 1;
    assert forall h: nat :: h != n ==> multiset(ns)[h] == multiset(q)[h];
    ReadyStep(g, e, ns);
    if n < |g.store.nodes| {
      assert NodeDetached(g, p, e, n, c);
      assert c >= 1 ==> n in q;
      NodeStepOk(g, p, e, n, c);
      if DetachStepOk(p, e, n) {
        DetachTaken(g, p, e, ns);
      }
    } else {
      assert !NodeReady(g, e, n, c + 1);
    }
  }

  /** A step the run takes leaves every node detached as often as the longer run says. */
  lemma DetachTaken(g: Graph, p: Graph, e: nat, ns: seq<nat>)
    requires ns != [] && ListsIn(g) && ListsIn(p) && Kinded(p) && NodesOnly(g, p)
    requires Distinct(p.nodes) && Distinct(p.grounds)
    requires var q, n := ns[..|ns| - 1], ns[|ns| - 1];
      n < |g.store.nodes| && DetachStepOk(p, e, n) && NodeReady(g, e, n, multiset(q)[n] + 1) && Detached(g, p, e, q)
    ensures var r := DetachStep(p, e, ns[|ns| - 1]);
      Detached(g, r, e, ns) && Distinct(r.nodes) && Distinct(r.grounds) && (Dense(p) ==> Dense(r))
  {
    var q: seq<nat> := ns[..|ns| - 1];
    var n: nat := ns[|ns| - 1];
    var c: nat := multiset(q)[n];
    assert NodeDetached(g, p, e, n, c);
    var r := DetachStep(p, e, n);
    DetachStepEffect(p, e, n);
    NodeStepDetached(g, p, r, e, n, c);
    DetachedOthers(g, p, r, e, ns);
  }

  /** An element whose two slots hold the same node n, which lists it twice: removing it
      detaches n twice, and the second visit drops n from its list. */
  lemma DetachSameNodeTwice(g: Graph, e: nat, n: nat)
    requires ListsIn(g) && Kinded(g) && Distinct(g.nodes) && Distinct(g.grounds)
    requires n < |g.store.nodes| && g.store.nodes[n].elements == [e, e] && Registered(g, n)
    ensures DetachOk(g, e, [n, n]) && n !in DetachNodes(g, e, [n, n]).nodes
    ensures n !in DetachNodes(g, e, [n, n]).grounds
  {
    assert multiset([n, n])[n] == 2;
    assert NodeReady(g, e, n, 2);
    DetachNodesEffect(g, e, [n, n]);
  }

  /** The nodes other than the last step's keep their state through that step. */
  lemma DetachedOthers(g: Graph, p: Graph, r: Graph, e: nat, ns: seq<nat>)
    requires ns != [] && Detached(g, p, e, ns[..|ns| - 1])
    requires |p.store.nodes| == |g.store.nodes| && |r.store.nodes| == |g.store.nodes|
    requires forall h :: h != ns[|ns| - 1] ==> Keeps(p, r, h)
    requires ns[|ns| - 1] < |g.store.nodes| ==> NodeDetached(g, r, e, ns[|ns| - 1], multiset(ns[..|ns| - 1])[ns[|ns| - 1]] + 1)
    ensures Detached(g, r, e, ns)
  {
    var k := |ns| - 1;
    var q: seq<nat> := ns[..k];
    var n: nat := ns[k];
    assert ns == q + [n];
    forall h: nat | h < |g.store.nodes|
      ensures NodeDetached(g, r, e, h, multiset(ns)[h])
    {
      if h != n {
        assert multiset(ns)[h] == multiset(q)[h];
        NodeDetachedKept(g, p, r, e, h, multiset(q)[h]);
      } else {
        assert multiset(ns)[h] == multiset(q)[h] + 1;
      }
    }
  }

  /** A node a step leaves alone keeps its state. */
  lemma NodeDetachedKept(g: Graph, p: Graph, r: Graph, e: nat, h: nat, c: nat)
    requires NodeDetached(g, p, e, h, c) && Keeps(p, r, h) && |r.store.nodes| == |p.store.nodes|
    ensures NodeDetached(g, r, e, h, c)
  {
    var L := g.store.nodes[h].elements;
    var els := if c >= 1 && c == |L| then RemoveTimes(L, e, c - 1) else RemoveTimes(L, e, c);
    assert RecordAs(g, p, h, els);
    assert r.store.nodes[h] == p.store.nodes[h].(idx := r.store.nodes[h].idx);
  }

  /** Readiness reads only the node records and the node and ground lists. */
  lemma ReadySameNodes(g: Graph, h: Graph, e: nat, ns: seq<nat>)
    requires h.store.nodes == g.store.nodes && h.nodes == g.nodes && h.grounds == g.grounds
    ensures Ready(g, e, ns) == Ready(h, e, ns)
  {
    assert forall n, c :: NodeReady(g, e, n, c) == NodeReady(h, e, n, c);
  }

  /** Extending a ready run by n: it stays ready exactly when n is ready for one step more. */
  lemma ReadyStep(g: Graph, e: nat, ns: seq<nat>)
    requires ns != [] && Ready(g, e, ns[..|ns| - 1])
    ensures var q, n := ns[..|ns| - 1], ns[|ns| - 1]; Ready(g, e, ns) <==> NodeReady(g, e, n, multiset(q)[n] + 1)
  {
    var k := |ns| - 1;
    var q := ns[..k];
    var n := ns[k];
    assert ns == q + [n];
    assert n in ns && multiset(ns)[n] == multiset(q)[n] + 1;
    if NodeReady(g, e, n, multiset(q)[n] + 1) {
      forall h | h in ns
        ensures NodeReady(g, e, h, multiset(ns)[h])
      {
        if h != n {
          assert h in q && multiset(ns)[h] == multiset(q)[h];
        }
      }
    }
  }

  /** Step on node n after c earlier steps on it: it succeeds exactly when n is ready for c + 1 steps. */
  lemma NodeStepOk(g: Graph, p: Graph, e: nat, n: nat, c: nat)
    requires n < |g.store.nodes| && |p.store.nodes| == |g.store.nodes| && NodeDetached(g, p, e, n, c)
    requires c >= 1 ==> NodeReady(g, e, n, c)
    ensures DetachStepOk(p, e, n) <==> NodeReady(g, e, n, c + 1)
  {
    var L := g.store.nodes[n].elements;
    if !(c >= 1 && c == |L|) {
      var M: seq<nat> := RemoveTimes(L, e, c);
      assert p.store.nodes[n].elements == M;
      if |L| - c >= 2 {
        assert e in M <==> multiset(M)[e] > 0;
      }
    }
  }

  /** The state of node n after its (c+1)-th step. */
  lemma NodeStepDetached(g: Graph, p: Graph, r: Graph, e: nat, n: nat, c: nat)
    requires n < |g.store.nodes| && |p.store.nodes| == |g.store.nodes| && |r.store.nodes| == |g.store.nodes|
    requires NodeDetached(g, p, e, n, c) && DetachStepOk(p, e, n) && NodeReady(g, e, n, c + 1)
    requires var P := p.store.nodes[n];
      r.store.nodes[n] == P.(idx := r.store.nodes[n].idx, elements := r.store.nodes[n].elements) &&
      (|P.elements| == 1 ==> n !in r.nodes && n !in r.grounds && r.store.nodes[n].elements == P.elements) &&
      (|P.elements| != 1 ==> e in P.elements && r.store.nodes[n].elements == RemoveFirst(P.elements, e) && r.nodes == p.nodes && r.grounds == p.grounds)
    ensures NodeDetached(g, r, e, n, c + 1)
  {
    var L := g.store.nodes[n].elements;
    assert !(c >= 1 && c == |L|);
    assert p.store.nodes[n].elements == RemoveTimes(L, e, c);
  }

  /** What `remove_element` needs so that no `remove` in it fails. */
  predicate ElementRemovable(g: Graph, e: nat)
  {
    ListsIn(g) && e < |g.store.elems| && e in g.elements &&
    var E := g.store.elems[e];
    DetachOk(g, e, E.nodes) &&
    (forall i :: 0 <= i < |E.connections| ==> E.connections[i] < |g.store.conns|) &&
    multiset(E.connections) <= multiset(g.connections) &&
    multiset(AnchorsOf(g.store.conns, E.connections)) <= multiset(g.anchors)
  }

  /** Removing an element from the list leaves what `remove_element`'s loops may do unchanged. */
  lemma DetachOkWithoutElement(g: Graph, e: nat, ns: seq<nat>)
    requires DetachOk(g, e, ns) && e in g.elements
    ensures DetachOk(g.(elements := RemoveFirst(g.elements, e)), e, ns)
  {
    DetachRunElements(g, RemoveFirst(g.elements, e), e, ns);
  }

  /** The first loop of `remove_element` does not read the element list: with another one it runs the same. */
  lemma {:induction false} DetachRunElements(g: Graph, es: seq<nat>, e: nat, ns: seq<nat>)
    requires ListsIn(g) && forall h :: h in es ==> h < |g.store.elems|
    ensures ListsIn(g.(elements := es))
    ensures DetachRun(g.(elements := es), e, ns).Some? == DetachRun(g, e, ns).Some?
    ensures DetachRun(g, e, ns).Some? ==> DetachRun(g.(elements := es), e, ns).value == DetachRun(g, e, ns).value.(elements := es)
    decreases |ns|
  {
    if ns != [] {
      var k := |ns| - 1;
      DetachRunElements(g, es, e, ns[..k]);
      var q := DetachRun(g, e, ns[..k]);
      if q.Some? && ns[k] < |q.value.store.nodes| {
        var p := q.value;
        assert DetachStepOk(p.(elements := es), e, ns[k]) == DetachStepOk(p, e, ns[k]);
        if DetachStepOk(p, e, ns[k]) {
          assert DetachStep(p.(elements := es), e, ns[k]) == DetachStep(p, e, ns[k]).(elements := es);
        }
      }
    }
  }

  /**
   * `remove_element`: remove the element; delete each node whose only element
   * it is and drop it from the others' lists; remove each of its connections
   * with their anchors.
   */
  function RemoveElementSpec(g: Graph, e: nat): (r: Graph)
    requires ElementRemovable(g, e)
    ensures ListsIn(r)
  {
    var E := g.store.elems[e];
    var g1 := g.(elements := RemoveFirst(g.elements, e));
    DetachOkWithoutElement(g, e, E.nodes);
    var g2 := DetachNodes(g1, e, E.nodes);
    g2.(connections := RemoveEach(g2.connections, E.connections),
        anchors := RemoveEach(g2.anchors, AnchorsOf(g2.store.conns, E.connections)))
  }

  /**
   * With no list holding a handle twice, `remove_element` leaves the element,
   * its connections and their anchors out of the circuit and keeps every
   * other connection; its nodes are ready for as many steps as its slots hold
   * them; a node whose entries its slots use up is gone from the nodes and
   * grounds; every other node of the element lists it once less per slot;
   * and node numbering stays dense.
   */
  lemma RemoveElementCascade(g: Graph, e: nat)
    requires ElementRemovable(g, e) && Kinded(g)
    requires Distinct(g.elements) && Distinct(g.nodes) && Distinct(g.grounds) && Distinct(g.connections) && Distinct(g.anchors)
    ensures Ready(g, e, g.store.elems[e].nodes)
    ensures var r, E := RemoveElementSpec(g, e), g.store.elems[e];
      e !in r.elements &&
      (forall c :: c in E.connections ==> c !in r.connections) &&
      (forall c :: c in g.connections && c !in E.connections ==> c in r.connections) &&
      (forall a :: a in AnchorsOf(g.store.conns, E.connections) ==> a !in r.anchors) &&
      (forall n :: n in E.nodes && multiset(E.nodes)[n] == |g.store.nodes[n].elements| ==> n !in r.nodes && n !in r.grounds) &&
      (forall n :: n in E.nodes && multiset(E.nodes)[n] < |g.store.nodes[n].elements| ==>
         r.store.nodes[n].elements == RemoveTimes(g.store.nodes[n].elements, e, multiset(E.nodes)[n])) &&
      (Dense(g) ==> Dense(r))
  {
    var E := g.store.elems[e];
    var g1 := g.(elements := RemoveFirst(g.elements, e));
    RemoveFirstKeepsOthers(g.elements, e);
    DetachOkWithoutElement(g, e, E.nodes);
    DetachNodesEffect(g1, e, E.nodes);
    ReadySameNodes(g1, g, e, E.nodes);
    var g2 := DetachNodes(g1, e, E.nodes);
    var cs, owned := E.connections, AnchorsOf(g.store.conns, E.connections);
    assert g2.connections == g.connections && g2.anchors == g.anchors && g2.store.conns == g.store.conns;
    var r := RemoveElementSpec(g, e);
    assert r == g2.(connections := RemoveEach(g.connections, cs), anchors := RemoveEach(g.anchors, owned));
    RemoveEachRemoves(g.connections, cs);
    RemoveEachRemoves(g.anchors, owned);
    assert Dense(g) ==> Dense(g1);
    assert Dense(g2) ==> Dense(r);
  }

  /** `add_circuit`: append all five lists of the other circuit, then renumber every node 1..N. */
  function AddCircuitSpec(g: Graph, o: Graph): (r: Graph)
    requires ListsIn(g) && ListsIn(o) && o.store == g.store
    ensures ListsIn(r)
  {
    var ns := g.nodes + o.nodes;
    BelowAt(ns, |g.store.nodes|);
    Graph(g.elements + o.elements, ns, g.grounds + o.grounds, g.connections + o.connections, g.anchors + o.anchors,
          g.store.(nodes := Renumber(g.store.nodes, ns)))
  }

  /** After `add_circuit` of a circuit with different nodes, numbering is dense and the other's nodes follow this one's. */
  lemma AddCircuitRenumbers(g: Graph, o: Graph)
    requires ListsIn(g) && ListsIn(o) && o.store == g.store
    requires Distinct(g.nodes + o.nodes)
    ensures Dense(AddCircuitSpec(g, o))
    ensures forall i :: 0 <= i < |o.nodes| ==> o.nodes[i] < |g.store.nodes| && AddCircuitSpec(g, o).store.nodes[o.nodes[i]].idx == |g.nodes| + i + 1
  {
    var ns := g.nodes + o.nodes;
    BelowAt(ns, |g.store.nodes|);
    RenumberNumbers(g.store.nodes, ns);
    forall i | 0 <= i < |o.nodes|
      ensures o.nodes[i] < |g.store.nodes| && AddCircuitSpec(g, o).store.nodes[o.nodes[i]].idx == |g.nodes| + i + 1
    {
      assert ns[|g.nodes| + i] == o.nodes[i];
    }
  }

  /** `__iter__`: elements, then nodes, grounds, anchors and connections, each list in order. */
  function Items(g: Graph): (r: seq<Item>)
    ensures |r| == |g.elements| + |g.nodes| + |g.grounds| + |g.anchors| + |g.connections|
  {
    seq(|g.elements|, i requires 0 <= i < |g.elements| => ElementItem(g.elements[i])) +
    seq(|g.nodes|, i requires 0 <= i < |g.nodes| => NodeItem(g.nodes[i])) +
    seq(|g.grounds|, i requires 0 <= i < |g.grounds| => NodeItem(g.grounds[i])) +
    seq(|g.anchors|, i requires 0 <= i < |g.anchors| => AnchorItem(g.anchors[i])) +
    seq(|g.connections|, i requires 0 <= i < |g.connections| => ConnectionItem(g.connections[i]))
  }

  /** Iteration visits each element, node and ground, anchor and connection of the circuit, and nothing else. */
  lemma ItemsCoverCircuit(g: Graph, it: Item)
    ensures it in Items(g) <==>
      (it.ElementItem? && it.e in g.elements) || (it.NodeItem? && (it.n in g.nodes || it.n in g.grounds)) ||
      (it.AnchorItem? && it.a in g.anchors) || (it.ConnectionItem? && it.c in g.connections)
  {
    if it in Items(g) {
      ItemsSound(g, it);
    }
    if (it.ElementItem? && it.e in g.elements) || (it.NodeItem? && (it.n in g.nodes || it.n in g.grounds)) ||
      (it.AnchorItem? && it.a in g.anchors) || (it.ConnectionItem? && it.c in g.connections) {
      ItemsComplete(g, it);
    }
  }

  /** Everything iteration visits is a handle the circuit lists. */
  lemma ItemsSound(g: Graph, it: Item)
    requires it in Items(g)
    ensures (it.ElementItem? && it.e in g.elements) || (it.NodeItem? && (it.n in g.nodes || it.n in g.grounds)) ||
      (it.AnchorItem? && it.a in g.anchors) || (it.ConnectionItem? && it.c in g.connections)
  {
    var r := Items(g);
    var b1 := |g.elements|;
    var b2 := b1 + |g.nodes|;
    var b3 := b2 + |g.grounds|;
    var b4 := b3 + |g.anchors|;
    var i :| 0 <= i < |r| && r[i] == it;
    if i < b1 { assert it == ElementItem(g.elements[i]); }
    else if i < b2 { assert it == NodeItem(g.nodes[i - b1]); }
    else if i < b3 { assert it == NodeItem(g.grounds[i - b2]); }
    else if i < b4 { assert it == AnchorItem(g.anchors[i - b3]); }
    else { assert it == ConnectionItem(g.connections[i - b4]); }
  }

  /** Every handle the circuit lists is visited. */
  lemma ItemsComplete(g: Graph, it: Item)
    requires (it.ElementItem? && it.e in g.elements) || (it.NodeItem? && (it.n in g.nodes || it.n in g.grounds)) ||
      (it.AnchorItem? && it.a in g.anchors) || (it.ConnectionItem? && it.c in g.connections)
    ensures it in Items(g)
  {
    var r := Items(g);
    var b1 := |g.elements|;
    var b2 := b1 + |g.nodes|;
    var b3 := b2 + |g.grounds|;
    var b4 := b3 + |g.anchors|;
    match it
    case ElementItem(h) =>
      var i :| 0 <= i < |g.elements| && g.elements[i] == h; assert r[i] == it;
    case NodeItem(h) =>
      if h in g.nodes { var i :| 0 <= i < |g.nodes| && g.nodes[i] == h; assert r[b1 + i] == it; }
      else { var i :| 0 <= i < |g.grounds| && g.grounds[i] == h; assert r[b2 + i] == it; }
    case AnchorItem(h) =>
      var i :| 0 <= i < |g.anchors| && g.anchors[i] == h; assert r[b3 + i] == it;
    case ConnectionItem(h) =>
      var i :| 0 <= i < |g.connections| && g.connections[i] == h; assert r[b4 + i] == it;
  }

  class Circuit {
    const heap: Heap
    var elements: seq<nat>
    var nodes: seq<nat>
    var grounds: seq<nat>
    var connections: seq<nat>
    var anchors: seq<nat>

    function State(): Graph
      reads this, heap
    {
      Graph(elements, nodes, grounds, connections, anchors, heap.Contents())
    }

    /** The closed-arena invariant: every listed handle names a record. */
    predicate Valid()
      reads this, heap
    {
      ListsIn(State())
    }

    constructor (heap: Heap)
      ensures this.heap == heap && Valid()
      ensures elements == [] && nodes == [] && grounds == [] && connections == [] && anchors == []
    {
      this.heap := heap;
      elements, nodes, grounds, connections, anchors := [], [], [], [], [];
    }

    method AddElement(e: nat)
      requires Valid() && e < |heap.elems|
      modifies this
      ensures Valid() && State() == old(State()).(elements := old(elements) + [e])
    {
      elements := elements + [e];
    }

    method AddGround(n: nat)
      requires Valid() && n < |heap.nodes|
      modifies this
      ensures Valid() && State() == old(State()).(grounds := old(grounds) + [n])
    {
      grounds := grounds + [n];
    }

    method AddConnection(c: nat)
      requires Valid() && c < |heap.conns|
      modifies this
      ensures Valid() && State() == old(State()).(connections := old(connections) + [c])
    {
      connections := connections + [c];
    }

    method AddAnchor(a: nat)
      requires Valid() && a < |heap.anchors|
      modifies this
      ensures Valid() && State() == old(State()).(anchors := old(anchors) + [a])
    {
      anchors := anchors + [a];
    }

    method RemoveAnchor(a: nat)
      requires Valid() && a in anchors
      modifies this
      ensures Valid() && State() == old(State()).(anchors := RemoveFirst(old(anchors), a))
    {
      anchors := RemoveFirst(anchors, a);
    }

    method AddNode(n: nat)
      requires Valid() && n < |heap.nodes|
      modifies this, heap
      ensures Valid() && State() == AddNodeSpec(old(State()), n)
    {
      heap.nodes := heap.nodes[n := heap.nodes[n].(idx := |nodes| + 1)];
      nodes := nodes + [n];
    }

    /** The renumbering loop shared by `remove_node` and `add_circuit`. */
    method RenumberNodes()
      requires Valid() && forall i :: 0 <= i < |nodes| ==> nodes[i] < |heap.nodes|
      modifies heap
      ensures Valid() && heap.nodes == Renumber(old(heap.nodes), nodes)
      ensures heap.elems == old(heap.elems) && heap.conns == old(heap.conns) && heap.anchors == old(heap.anchors)
    {
      var i := 0;
      while i < |nodes|
        invariant 0 <= i <= |nodes|
        invariant heap.nodes == Renumber(old(heap.nodes), nodes[..i])
        invariant heap.elems == old(heap.elems) && heap.conns == old(heap.conns) && heap.anchors == old(heap.anchors)
      {
        assert nodes[..i + 1][..i] == nodes[..i];
        heap.nodes := heap.nodes[nodes[i] := heap.nodes[nodes[i]].(idx := i + 1)];
        i := i + 1;
      }
      assert nodes[..i] == nodes;
    }

    method RemoveNode(n: nat)
      requires Valid() && n in nodes
      modifies this, heap
      ensures Valid() && State() == RemoveNodeSpec(old(State()), n)
    {
      nodes := RemoveFirst(nodes, n);
      RemoveFirstKeepsOthers(old(nodes), n);
      BelowAt(nodes, |heap.nodes|);
      RenumberNodes();
    }

    method RemoveGround(n: nat)
      requires Valid() && n in grounds
      modifies this
      ensures Valid() && State() == RemoveGroundSpec(old(State()), n)
    {
      grounds := RemoveFirst(grounds, n);
      RemoveFirstKeepsOthers(old(grounds), n);
    }

    /** `Node.delete` / `Ground.delete`. */
    method DeleteNode(n: nat)
      requires Valid() && n < |heap.nodes| && Registered(State(), n)
      modifies this, heap
      ensures Valid() && State() == DeleteNodeSpec(old(State()), n)
    {
      if heap.nodes[n].ground {
        RemoveGround(n);
      } else {
        RemoveNode(n);
      }
    }

    /** The loop `for anchor in connection.anchors: self.remove_anchor(anchor)`. */
    method RemoveConnection(c: nat)
      requires Valid() && c in connections && c < |heap.conns|
      requires multiset(heap.conns[c].anchors) <= multiset(anchors)
      modifies this
      ensures Valid() && State() == RemoveConnectionSpec(old(State()), c)
    {
      ghost var g := State();
      var left := RemoveAll(anchors, heap.conns[c].anchors);
      connections, anchors := RemoveFirst(connections, c), left;
      assert State() == RemoveConnectionSpec(g, c);
    }

    /** The first loop of `remove_element`. */
    method DetachElement(e: nat, ns: seq<nat>)
      requires Valid() && DetachOk(State(), e, ns)
      modifies this, heap
      ensures Valid() && State() == DetachNodes(old(State()), e, ns)
    {
      ghost var g := State();
      var i := 0;
      while i < |ns|
        invariant 0 <= i <= |ns|
        invariant DetachOk(g, e, ns[..i])
        invariant Valid() && State() == DetachNodes(g, e, ns[..i])
      {
        DetachNodesNext(g, e, ns, i);
        DetachOne(e, ns[i]);
        i := i + 1;
      }
      assert ns[..i] == ns;
    }

    /** The loop body of `remove_element` for node n. */
    method DetachOne(e: nat, n: nat)
      requires Valid() && n < |heap.nodes| && DetachStepOk(State(), e, n)
      modifies this, heap
      ensures Valid() && State() == DetachStep(old(State()), e, n)
    {
      if |heap.nodes[n].elements| == 1 {
        DeleteNode(n);
      } else {
        heap.nodes := heap.nodes[n := heap.nodes[n].(elements := RemoveFirst(heap.nodes[n].elements, e))];
      }
    }

    /** The second loop of `remove_element`: remove each connection with its anchors. */
    method RemoveConnections(cs: seq<nat>)
      requires Valid() && forall i :: 0 <= i < |cs| ==> cs[i] < |heap.conns|
      requires multiset(cs) <= multiset(connections) && multiset(AnchorsOf(heap.conns, cs)) <= multiset(anchors)
      modifies this
      ensures Valid() && State() == old(State()).(connections := RemoveEach(old(connections), cs),
                                                  anchors := RemoveEach(old(anchors), AnchorsOf(heap.conns, cs)))
    {
      ghost var g := State();
      var j := 0;
      assert cs[..0] == [];
      while j < |cs|
        invariant 0 <= j <= |cs| && Valid() && State() == ConnsRemoved(g, cs, j)
      {
        RemoveNext(cs, j, g);
        j := j + 1;
      }
      assert cs[..j] == cs;
    }

    /** One turn of the loop of `RemoveConnections`: connection cs[j] goes, with its anchors. */
    method RemoveNext(cs: seq<nat>, j: nat, ghost g: Graph)
      requires j < |cs| && (forall i :: 0 <= i < |cs| ==> cs[i] < |g.store.conns|)
      requires multiset(cs) <= multiset(g.connections) && multiset(AnchorsOf(g.store.conns, cs)) <= multiset(g.anchors)
      requires Valid() && State() == ConnsRemoved(g, cs, j)
      modifies this
      ensures Valid() && State() == ConnsRemoved(g, cs, j + 1)
    {
      RemoveEachStep(g.connections, cs, j);
      RemoveConnectionsStep(g.store.conns, cs, j, g.anchors);
      RemoveConnection(cs[j]);
    }

    method RemoveElement(e: nat)
      requires Valid() && ElementRemovable(State(), e)
      modifies this, heap
      ensures Valid() && State() == RemoveElementSpec(old(State()), e)
    {
      ghost var g := State();
      var E := heap.elems[e];
      DetachOkWithoutElement(g, e, E.nodes);
      elements := RemoveFirst(elements, e);
      DetachElement(e, E.nodes);
      assert connections == g.connections && anchors == g.anchors && heap.conns == g.store.conns;
      RemoveConnections(E.connections);
    }

    method AddCircuit(other: Circuit)
      requires Valid() && other.Valid() && other.heap == heap
      modifies this, heap
      ensures Valid() && State() == AddCircuitSpec(old(State()), old(other.State()))
    {
      nodes := nodes + other.nodes;
      elements := elements + other.elements;
      grounds := grounds + other.grounds;
      connections := connections + other.connections;
      anchors := anchors + other.anchors;
      BelowAt(nodes, |heap.nodes|);
      RenumberNodes();
    }

    /** `clear`: empty all five lists; the objects themselves are untouched. */
    method Clear()
      modifies this
      ensures Valid() && heap.Contents() == old(heap.Contents())
      ensures Items(State()) == []
    {
      elements := [];
      nodes := [];
      anchors := [];
      connections := [];
      grounds := [];
    }
  }

  /** The circuit after the first j turns of the connection loop of `remove_element`. */
  ghost function ConnsRemoved(g: Graph, cs: seq<nat>, j: nat): Graph
    requires j <= |cs| && (forall i :: 0 <= i < |cs| ==> cs[i] < |g.store.conns|)
    requires multiset(cs) <= multiset(g.connections) && multiset(AnchorsOf(g.store.conns, cs)) <= multiset(g.anchors)
  {
    PrefixMultiset(cs, j, multiset(g.connections));
    AnchorsOfPrefix(g.store.conns, cs, j, multiset(g.anchors));
    g.(connections := RemoveEach(g.connections, cs[..j]), anchors := RemoveEach(g.anchors, AnchorsOf(g.store.conns, cs[..j])))
  }

  /** The anchors of a prefix of the connections fit wherever all their anchors fit. */
  lemma {:induction false} AnchorsOfPrefix(conns: seq<ConnRec>, cs: seq<nat>, k: nat, m: multiset<nat>)
    requires forall i :: 0 <= i < |cs| ==> cs[i] < |conns|
    requires k <= |cs| && multiset(AnchorsOf(conns, cs)) <= m
    ensures multiset(AnchorsOf(conns, cs[..k])) <= m
    decreases |cs|
  {
    if k < |cs| {
      var n := |cs| - 1;
      assert cs[..n][..k] == cs[..k];
      assert multiset(AnchorsOf(conns, cs)) == multiset(AnchorsOf(conns, cs[..n])) + multiset(conns[cs[n]].anchors);
      AnchorsOfPrefix(conns, cs[..n], k, m);
    } else {
      assert cs[..k] == cs;
    }
  }

  /** Step j of the connection loop: removing connection cs[j]'s anchors extends the run of removed anchors by its own. */
  lemma RemoveConnectionsStep(conns: seq<ConnRec>, cs: seq<nat>, j: nat, s: seq<nat>)
    requires forall i :: 0 <= i < |cs| ==> cs[i] < |conns|
    requires j < |cs| && multiset(AnchorsOf(conns, cs)) <= multiset(s)
    ensures multiset(AnchorsOf(conns, cs[..j])) <= multiset(s) && multiset(AnchorsOf(conns, cs[..j + 1])) <= multiset(s)
    ensures multiset(conns[cs[j]].anchors) <= multiset(RemoveEach(s, AnchorsOf(conns, cs[..j])))
    ensures RemoveEach(RemoveEach(s, AnchorsOf(conns, cs[..j])), conns[cs[j]].anchors) == RemoveEach(s, AnchorsOf(conns, cs[..j + 1]))
  {
    AnchorsOfPrefix(conns, cs, j, multiset(s));
    AnchorsOfPrefix(conns, cs, j + 1, multiset(s));
    assert cs[..j + 1][..j] == cs[..j];
    assert AnchorsOf(conns, cs[..j + 1]) == AnchorsOf(conns, cs[..j]) + conns[cs[j]].anchors;
    RemoveEachConcat(s, AnchorsOf(conns, cs[..j]), conns[cs[j]].anchors);
  }
}
