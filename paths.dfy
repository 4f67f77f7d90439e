/**
 * The path a connection's wires form, as a sequence of hops (the two ends of
 * each wire, in path order): from the origin element, through anchors, to the
 * destination node. Pressing on a wire splits one hop at a new anchor;
 * removing an anchor merges the two hops around it.
 */
module Paths {
  import opened Records

  /** The two ends of one wire. */
  type Hop = (Endpoint, Endpoint)

  /** The handle an endpoint refers to, whatever its kind. */
  function Handle(e: Endpoint): nat
  {
    match e
    case ElementEnd(h) => h
    case NodeEnd(h) => h
    case AnchorEnd(h) => h
  }

  /** A path from element e to node n in which every intermediate stop is an anchor where one hop ends and the next starts. */
  predicate Chained(hs: seq<Hop>, e: nat, n: nat)
  {
    |hs| >= 1 && hs[0].0 == ElementEnd(e) && hs[|hs| - 1].1 == NodeEnd(n) &&
    forall i :: 0 <= i < |hs| - 1 ==> hs[i].1.AnchorEnd? && hs[i].1 == hs[i + 1].0
  }

  /** The anchors a path passes through, in path order. */
  function Stops(hs: seq<Hop>): (r: seq<nat>)
    requires |hs| >= 1
    ensures |r| == |hs| - 1
  {
    seq(|hs| - 1, i requires 0 <= i < |hs| - 1 => Handle(hs[i].1))
  }

  /** Hop p split at anchor a: it now ends at a, and a new hop leads from a to where it ended. */
  function SplitHop(hs: seq<Hop>, p: nat, a: nat): (r: seq<Hop>)
    requires p < |hs|
    ensures |r| == |hs| + 1
    ensures forall i :: 0 <= i < p ==> r[i] == hs[i]
    ensures r[p] == (hs[p].0, AnchorEnd(a)) && r[p + 1] == (AnchorEnd(a), hs[p].1)
    ensures forall i :: p + 1 < i < |r| ==> r[i] == hs[i - 1]
  {
    hs[..p] + [(hs[p].0, AnchorEnd(a)), (AnchorEnd(a), hs[p].1)] + hs[p + 1..]
  }

  /** Splitting a hop keeps the path a path between the same ends, with the new anchor as stop p. */
  lemma SplitHopChained(hs: seq<Hop>, e: nat, n: nat, p: nat, a: nat)
    requires Chained(hs, e, n) && p < |hs|
    ensures Chained(SplitHop(hs, p, a), e, n)
    ensures Stops(SplitHop(hs, p, a)) == Stops(hs)[..p] + [a] + Stops(hs)[p..]
  {
    var r := SplitHop(hs, p, a);
    assert forall i :: 0 <= i < p ==> r[i] == hs[i];
    assert r[p] == (hs[p].0, AnchorEnd(a)) && r[p + 1] == (AnchorEnd(a), hs[p].1);
    assert forall i :: p + 1 < i < |r| ==> r[i] == hs[i - 1];
    forall i | 0 <= i < |r| - 1
      ensures r[i].1.AnchorEnd? && r[i].1 == r[i + 1].0
    {
      if i < p - 1 {
      } else if i == p - 1 {
      } else if i == p {
      } else if i == p + 1 {
        assert r[i + 1] == hs[p + 1];
      } else {
        assert r[i] == hs[i - 1] && r[i + 1] == hs[i];
      }
    }
    var s, t := Stops(r), Stops(hs)[..p] + [a] + Stops(hs)[p..];
    forall i | 0 <= i < |s|
      ensures s[i] == t[i]
    {
      if i < p {
      } else if i == p {
      } else if i == p + 1 {
        assert t[i] == Stops(hs)[p];
      } else {
        assert r[i] == hs[i - 1] && t[i] == Stops(hs)[i - 1];
      }
    }
  }

  /** Hops q and q+1 joined into one from the start of the first to the end of the second. */
  function MergeHops(hs: seq<Hop>, q: nat): (r: seq<Hop>)
    requires q + 1 < |hs|
    ensures |r| == |hs| - 1
  {
    hs[..q] + [(hs[q].0, hs[q + 1].1)] + hs[q + 2..]
  }

  /** Merging the hops around stop q keeps the path a path between the same ends, without that stop. */
  lemma MergeHopsChained(hs: seq<Hop>, e: nat, n: nat, q: nat)
    requires Chained(hs, e, n) && q + 1 < |hs|
    ensures Chained(MergeHops(hs, q), e, n)
    ensures Stops(MergeHops(hs, q)) == Stops(hs)[..q] + Stops(hs)[q + 1..]
  {
    var r := MergeHops(hs, q);
    assert forall i :: 0 <= i < q ==> r[i] == hs[i];
    assert r[q] == (hs[q].0, hs[q + 1].1);
    assert forall i :: q < i < |r| ==> r[i] == hs[i + 1];
    forall i | 0 <= i < |r| - 1
      ensures r[i].1.AnchorEnd? && r[i].1 == r[i + 1].0
    {
      if i < q - 1 {
      } else if i == q - 1 {
      } else if i == q {
        assert r[q + 1] == hs[q + 2];
      } else {
        assert r[i] == hs[i + 1] && r[i + 1] == hs[i + 2];
      }
    }
    var s, t := Stops(r), Stops(hs)[..q] + Stops(hs)[q + 1..];
    forall i | 0 <= i < |s|
      ensures s[i] == t[i]
    {
      if i < q {
      } else if i == q {
      } else {
        assert r[i] == hs[i + 1];
      }
    }
  }

  /** Every hop of a path ends at one of its stops or at its destination node. */
  lemma HopEnds(hs: seq<Hop>, e: nat, n: nat, i: nat)
    requires Chained(hs, e, n) && i < |hs|
    ensures hs[i].1 == NodeEnd(n) || (hs[i].1.AnchorEnd? && hs[i].1.a in Stops(hs))
  {
    if i < |hs| - 1 {
      assert Stops(hs)[i] == hs[i].1.a;
    }
  }

  /** Every hop of a path starts at its origin element or at one of its stops. */
  lemma HopStarts(hs: seq<Hop>, e: nat, n: nat, i: nat)
    requires Chained(hs, e, n) && i < |hs|
    ensures hs[i].0 == ElementEnd(e) || (hs[i].0.AnchorEnd? && hs[i].0.a in Stops(hs))
  {
    if i > 0 {
      assert hs[i - 1].1 == hs[i].0 && Stops(hs)[i - 1] == Handle(hs[i - 1].1);
    }
  }
}
