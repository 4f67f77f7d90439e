/**
 * The router of the legacy engine (`Connection.rewire` / `Connection.wire`
 * in connection.py).
 *
 * It routes like the current engine, leg by leg from the start cell through
 * every anchor to the target, always with the connection's own departure
 * vector d, and adds an "elbow": where a run passes through the cell of the
 * origin node (and d is not zero) extra links are emitted beside it.
 */
module LegacyRouting {
  import opened Geometry
  import opened Routing

  /** Half-width of a legacy link's hit box: SPACING/2.5, which is exactly 20. */
  const LegacyLinkHalf: int := 20

  /** A run reaches the origin node's cell, and the connection has a departure. */
  predicate Hit(x: int, y: int, origin: Point, d: Point)
  {
    x * SPACING == origin.x && y * SPACING == origin.y && d != Point(0, 0)
  }

  /**
   * The links `linkx(sy)` emits for one x. At the origin the cell is replaced
   * by three cells one row off: above when running right, below when running left.
   */
  function XCell(x: int, sy: int, increasing: bool, origin: Point, d: Point): seq<Link>
  {
    if Hit(x, sy, origin, d) then
      if increasing then [Link(x - 1, sy - 1), Link(x, sy - 1), Link(x + 1, sy - 1)]
      else [Link(x + 1, sy + 1), Link(x, sy + 1), Link(x - 1, sy + 1)]
    else [Link(x, sy)]
  }

  /**
   * The links `linky(sx)` emits for one y. At the origin three cells in the
   * column to the left are emitted, in increasing y whatever the direction,
   * and then the cell itself.
   */
  function YCell(sx: int, y: int, origin: Point, d: Point): seq<Link>
  {
    (if Hit(sx, y, origin, d) then [Link(sx - 1, y - 1), Link(sx - 1, y), Link(sx - 1, y + 1)] else [])
    + [Link(sx, y)]
  }

  /** The links of the first n steps of `linkx(sy)` from ox toward tx. */
  function XRunPrefix(ox: int, tx: int, sy: int, origin: Point, d: Point, n: nat): seq<Link>
  {
    if n == 0 then []
    else XRunPrefix(ox, tx, sy, origin, d, n - 1) + XCell(Toward(ox, tx, n - 1), sy, tx > ox, origin, d)
  }

  /** The links of the first n steps of `linky(sx)` from oy toward ty. */
  function YRunPrefix(sx: int, oy: int, ty: int, origin: Point, d: Point, n: nat): seq<Link>
  {
    if n == 0 then []
    else YRunPrefix(sx, oy, ty, origin, d, n - 1) + YCell(sx, Toward(oy, ty, n - 1), origin, d)
  }

  function LegacyXRun(ox: int, tx: int, sy: int, origin: Point, d: Point): seq<Link>
  {
    XRunPrefix(ox, tx, sy, origin, d, Abs(tx - ox))
  }

  function LegacyYRun(sx: int, oy: int, ty: int, origin: Point, d: Point): seq<Link>
  {
    YRunPrefix(sx, oy, ty, origin, d, Abs(ty - oy))
  }

  /** `wire(ox, oy, tx, ty)`: one leg, with the same orientation rule as the current engine. */
  function LegacyLeg(o: Point, t: Point, origin: Point, d: Point): seq<Link>
  {
    if VerticalFirst(d, o, t) then LegacyYRun(o.x, o.y, t.y, origin, d) + LegacyXRun(o.x, t.x, t.y, origin, d)
    else LegacyXRun(o.x, t.x, o.y, origin, d) + LegacyYRun(t.x, o.y, t.y, origin, d)
  }

  /** The legs from `from` through each of `stops` in turn. */
  function Legs(from: Point, stops: seq<Point>, origin: Point, d: Point): seq<Link>
    decreases |stops|
  {
    if stops == [] then []
    else
      var last := stops[|stops| - 1];
      var prev := if |stops| == 1 then from else stops[|stops| - 2];
      Legs(from, stops[..|stops| - 1], origin, d) + LegacyLeg(prev, last, origin, d)
  }

  /** The grid cells of the anchors, in order. */
  function Cells(anchors: seq<Point>): (r: seq<Point>)
    ensures |r| == |anchors|
    ensures forall i :: 0 <= i < |r| ==> r[i] == GridOf(anchors[i])
  {
    if anchors == [] then [] else Cells(anchors[..|anchors| - 1]) + [GridOf(anchors[|anchors| - 1])]
  }

  /** `rewire`: the legs from the start cell through the anchors' grid cells to the destination's. */
  function LegacyRoute(origin: Point, dest: Point, d: Point, anchors: seq<Point>): seq<Link>
  {
    Legs(StartCell(origin, d), Cells(anchors) + [GridOf(dest)], origin, d)
  }

  /** The elbow can only appear where a run meets the origin: without a departure, a legacy run is the plain run. */
  lemma {:induction false} XRunWithoutHit(ox: int, tx: int, sy: int, origin: Point, d: Point, n: nat)
    requires n <= Abs(tx - ox)
    requires forall k :: 0 <= k < n ==> !Hit(Toward(ox, tx, k), sy, origin, d)
    ensures XRunPrefix(ox, tx, sy, origin, d, n) == XRun(ox, tx, sy)[..n]
  {
    if n > 0 {
      XRunWithoutHit(ox, tx, sy, origin, d, n - 1);
      assert XRun(ox, tx, sy)[..n] == XRun(ox, tx, sy)[..n - 1] + [XRun(ox, tx, sy)[n - 1]];
    }
  }

  lemma {:induction false} YRunWithoutHit(sx: int, oy: int, ty: int, origin: Point, d: Point, n: nat)
    requires n <= Abs(ty - oy)
    requires forall k :: 0 <= k < n ==> !Hit(sx, Toward(oy, ty, k), origin, d)
    ensures YRunPrefix(sx, oy, ty, origin, d, n) == YRun(sx, oy, ty)[..n]
  {
    if n > 0 {
      YRunWithoutHit(sx, oy, ty, origin, d, n - 1);
      assert YRun(sx, oy, ty)[..n] == YRun(sx, oy, ty)[..n - 1] + [YRun(sx, oy, ty)[n - 1]];
    }
  }

  /** With a zero departure vector the legacy leg is exactly the current engine's route. */
  lemma LegacyLegWithoutDeparture(o: Point, t: Point, origin: Point)
    ensures LegacyLeg(o, t, origin, Point(0, 0)) == Route(o, t, false)
  {
    var d := Point(0, 0);
    XRunWithoutHit(o.x, t.x, o.y, origin, d, Abs(t.x - o.x));
    YRunWithoutHit(t.x, o.y, t.y, origin, d, Abs(t.y - o.y));
    assert XRun(o.x, t.x, o.y)[..Abs(t.x - o.x)] == XRun(o.x, t.x, o.y);
    assert YRun(t.x, o.y, t.y)[..Abs(t.y - o.y)] == YRun(t.x, o.y, t.y);
  }

  /**
   * An x run never contains the origin's cell when d is not zero: the elbow
   * replaces it by the three cells one row off.
   */
  lemma {:induction false} XRunSkipsOrigin(ox: int, tx: int, sy: int, origin: Point, d: Point, n: nat)
    requires d != Point(0, 0) && origin.x % SPACING == 0 && origin.y % SPACING == 0
    ensures Link(origin.x / SPACING, origin.y / SPACING) !in XRunPrefix(ox, tx, sy, origin, d, n)
  {
    if n > 0 {
      XRunSkipsOrigin(ox, tx, sy, origin, d, n - 1);
      var x := Toward(ox, tx, n - 1);
      var cell := XCell(x, sy, tx > ox, origin, d);
      if !Hit(x, sy, origin, d) {
        assert Link(origin.x / SPACING, origin.y / SPACING) != Link(x, sy);
      }
      assert Link(origin.x / SPACING, origin.y / SPACING) !in cell;
    }
  }

  /** The x elbow keeps the run connected: consecutive links of an x run are one unit step apart. */
  lemma {:induction false} XRunStepwise(ox: int, tx: int, sy: int, origin: Point, d: Point, n: nat)
    ensures Stepwise(XRunPrefix(ox, tx, sy, origin, d, n))
    ensures n > 0 ==> var r := XRunPrefix(ox, tx, sy, origin, d, n); var x := Toward(ox, tx, n - 1);
      var s := if tx > ox then 1 else -1;
      r[|r| - 1] == Link(x, sy) || (Hit(x, sy, origin, d) && r[|r| - 1] == Link(x + s, sy - s))
  {
    if n > 0 {
      XRunStepwise(ox, tx, sy, origin, d, n - 1);
      var a := XRunPrefix(ox, tx, sy, origin, d, n - 1);
      var x := Toward(ox, tx, n - 1);
      var b := XCell(x, sy, tx > ox, origin, d);
      var s := if tx > ox then 1 else -1;
      XCellEnds(x, sy, tx > ox, origin, d);
      if n > 1 {
        XJoin(a[|a| - 1], b[0], Toward(ox, tx, n - 2), x, sy, s, origin, d);
      }
      JoinStepwise(a, b);
    }
  }

  /** One x cell is connected, and starts and ends on row sy at x or, at the origin, one row off. */
  lemma XCellEnds(x: int, sy: int, increasing: bool, origin: Point, d: Point)
    ensures var b := XCell(x, sy, increasing, origin, d); var s := if increasing then 1 else -1;
      Stepwise(b) && b != [] &&
      (b[0] == Link(x, sy) || (Hit(x, sy, origin, d) && b[0] == Link(x - s, sy - s))) &&
      (b[|b| - 1] == Link(x, sy) || (Hit(x, sy, origin, d) && b[|b| - 1] == Link(x + s, sy - s)))
  {
    var b := XCell(x, sy, increasing, origin, d);
    assert Stepwise(b);
  }

  /** Only one column of a row is the origin's. */
  lemma HitOnce(px: int, x: int, sy: int, origin: Point, d: Point)
    requires Hit(px, sy, origin, d) && Hit(x, sy, origin, d)
    ensures px == x
  {
  }

  /** The end of the cell for px and the start of the cell for the next x are one step apart. */
  lemma XJoin(al: Link, b0: Link, px: int, x: int, sy: int, s: int, origin: Point, d: Point)
    requires (s == 1 || s == -1) && x == px + s
    requires al == Link(px, sy) || (Hit(px, sy, origin, d) && al == Link(px + s, sy - s))
    requires b0 == Link(x, sy) || (Hit(x, sy, origin, d) && b0 == Link(x - s, sy - s))
    ensures UnitStep(al, b0)
  {
    if Hit(px, sy, origin, d) && Hit(x, sy, origin, d) {
      HitOnce(px, x, sy, origin, d);
    }
  }

  /**
   * The y elbow breaks the path: a vertical leg that runs back through the
   * origin's column jumps diagonally from the cell before the origin to the
   * first elbow cell, and the origin's cell is still emitted.
   */
  lemma YElbowJumps()
    ensures var leg := LegacyLeg(Point(0, 1), Point(0, -2), Point(0, 0), Point(0, 1));
      leg == [Link(0, 1), Link(-1, -1), Link(-1, 0), Link(-1, 1), Link(0, 0), Link(0, -1)] &&
      !UnitStep(leg[0], leg[1]) && !Stepwise(leg) && Link(0, 0) in leg
  {
    var origin, d := Point(0, 0), Point(0, 1);
    assert !VerticalFirst(d, Point(0, 1), Point(0, -2));
    assert LegacyXRun(0, 0, 1, origin, d) == [];
    assert YRunPrefix(0, 1, -2, origin, d, 1) == [Link(0, 1)];
    assert YRunPrefix(0, 1, -2, origin, d, 2) == [Link(0, 1), Link(-1, -1), Link(-1, 0), Link(-1, 1), Link(0, 0)];
  }

  /** The legs through the stops are the concatenation of the legs up to the last stop and the last leg. */
  lemma LegsSnoc(from: Point, stops: seq<Point>, t: Point, origin: Point, d: Point)
    ensures Legs(from, stops + [t], origin, d)
         == Legs(from, stops, origin, d) + LegacyLeg(if stops == [] then from else stops[|stops| - 1], t, origin, d)
  {
    assert (stops + [t])[..|stops|] == stops;
  }

  /** Step i of the anchor loop: the legs through the first i + 1 cells add the leg from the cell before (or o) to cell i. */
  lemma LegsStep(o: Point, cells: seq<Point>, i: nat, a1: Point, origin: Point, d: Point)
    requires i < |cells| && a1 == if i == 0 then o else cells[i - 1]
    ensures Legs(o, cells[..i + 1], origin, d) == Legs(o, cells[..i], origin, d) + LegacyLeg(a1, cells[i], origin, d)
  {
    var pre := cells[..i];
    assert cells[..i + 1] == pre + [cells[i]];
    LegsSnoc(o, pre, cells[i], origin, d);
    assert (if pre == [] then o else pre[|pre| - 1]) == a1;
  }

  /** With no anchors the legacy route is the single leg from the start cell to the destination's cell. */
  lemma RouteWithoutAnchors(origin: Point, dest: Point, d: Point)
    ensures LegacyRoute(origin, dest, d, []) == LegacyLeg(StartCell(origin, d), GridOf(dest), origin, d)
  {
    LegsSnoc(StartCell(origin, d), [], GridOf(dest), origin, d);
    assert Cells([]) + [GridOf(dest)] == [] + [GridOf(dest)];
  }

  /** `linkx(sy)` appended to `links`, with the elbow's inner loop of three. */
  method AppendLegacyXRun(links: seq<Link>, ox: int, tx: int, sy: int, origin: Point, d: Point)
    returns (out: seq<Link>)
    ensures out == links + LegacyXRun(ox, tx, sy, origin, d)
  {
    out := links;
    var x := ox;
    var disp := if tx > ox then 1 else -1;
    while x != tx
      invariant x == Toward(ox, tx, Abs(x - ox)) && Abs(x - ox) <= Abs(tx - ox)
      invariant out == links + XRunPrefix(ox, tx, sy, origin, d, Abs(x - ox))
      decreases Abs(tx - x)
    {
      out := AppendXCell(out, x, sy, tx > ox, origin, d);
      x := x + disp;
    }
  }

  /** `linky(sx)` appended to `links`: the elbow's three cells, then the cell itself. */
  method AppendLegacyYRun(links: seq<Link>, sx: int, oy: int, ty: int, origin: Point, d: Point)
    returns (out: seq<Link>)
    ensures out == links + LegacyYRun(sx, oy, ty, origin, d)
  {
    out := links;
    var y := oy;
    var disp := if ty > oy then 1 else -1;
    while y != ty
      invariant y == Toward(oy, ty, Abs(y - oy)) && Abs(y - oy) <= Abs(ty - oy)
      invariant out == links + YRunPrefix(sx, oy, ty, origin, d, Abs(y - oy))
      decreases Abs(ty - y)
    {
      out := AppendYCell(out, sx, y, origin, d);
      y := y + disp;
    }
  }

  /** One x of `linkx(sy)`: at the origin three cells one row off, else the cell itself. */
  method AppendXCell(links: seq<Link>, x: int, sy: int, increasing: bool, origin: Point, d: Point)
    returns (out: seq<Link>)
    ensures out == links + XCell(x, sy, increasing, origin, d)
  {
    out := links;
    if x * SPACING == origin.x && sy * SPACING == origin.y && d != Point(0, 0) {
      var i := 0;
      while i < 3
        invariant 0 <= i <= 3
        invariant out == links + XCell(x, sy, increasing, origin, d)[..i]
      {
        if increasing {
          out := out + [Link(x + i - 1, sy - 1)];
        } else {
          out := out + [Link(x - i + 1, sy + 1)];
        }
        i := i + 1;
      }
    } else {
      out := out + [Link(x, sy)];
    }
  }

  /** One y of `linky(sx)`: at the origin three cells in the column to the left, then the cell itself. */
  method AppendYCell(links: seq<Link>, sx: int, y: int, origin: Point, d: Point) returns (out: seq<Link>)
    ensures out == links + YCell(sx, y, origin, d)
  {
    out := links;
    if sx * SPACING == origin.x && y * SPACING == origin.y && d != Point(0, 0) {
      var i := 0;
      while i < 3
        invariant 0 <= i <= 3
        invariant out == links + [Link(sx - 1, y - 1), Link(sx - 1, y), Link(sx - 1, y + 1)][..i]
      {
        out := out + [Link(sx - 1, y + i - 1)];
        i := i + 1;
      }
    }
    out := out + [Link(sx, y)];
  }

  /** `wire(ox, oy, tx, ty)` appended to `links`. */
  method AppendLeg(links: seq<Link>, o: Point, t: Point, origin: Point, d: Point) returns (out: seq<Link>)
    ensures out == links + LegacyLeg(o, t, origin, d)
  {
    if d.x != 0 && ((o.x < t.x && d.x < 0) || (o.x > t.x && d.x > 0)) {
      out := AppendLegacyYRun(links, o.x, o.y, t.y, origin, d);
      out := AppendLegacyXRun(out, o.x, t.x, t.y, origin, d);
    } else if d.x == 0 && d.y != 0 && !((o.y < t.y && d.y < 0) || (o.y > t.y && d.y > 0)) {
      out := AppendLegacyYRun(links, o.x, o.y, t.y, origin, d);
      out := AppendLegacyXRun(out, o.x, t.x, t.y, origin, d);
    } else {
      out := AppendLegacyXRun(links, o.x, t.x, o.y, origin, d);
      out := AppendLegacyYRun(out, t.x, o.y, t.y, origin, d);
    }
  }

  /** The loop of `rewire` over the anchors: the legs from o through the first i anchor cells. */
  method WireThroughAnchors(o: Point, anchors: seq<Point>, origin: Point, d: Point)
    returns (links: seq<Link>, a1: Point)
    ensures links == Legs(o, Cells(anchors), origin, d)
    ensures a1 == if anchors == [] then o else Cells(anchors)[|anchors| - 1]
  {
    links := [];
    a1 := o;
    ghost var cells := Cells(anchors);
    var i := 0;
    while i < |anchors|
      invariant 0 <= i <= |anchors|
      invariant a1 == if i == 0 then o else cells[i - 1]
      invariant links == Legs(o, cells[..i], origin, d)
    {
      var a := GridOf(anchors[i]);
      LegsStep(o, cells, i, a1, origin, d);
      links := AppendLeg(links, a1, a, origin, d);
      a1 := a;
      i := i + 1;
    }
    assert cells[..i] == cells;
  }

  /** `rewire`: clear the links, then wire leg by leg through the anchors to the destination. */
  method LegacyRewire(origin: Point, dest: Point, d: Point, anchors: seq<Point>) returns (links: seq<Link>)
    ensures links == LegacyRoute(origin, dest, d, anchors)
  {
    var o := StartCell(origin, d);
    var t := GridOf(dest);
    if |anchors| > 0 {
      var a1;
      links, a1 := WireThroughAnchors(o, anchors, origin, d);
      LegsSnoc(o, Cells(anchors), t, origin, d);
      links := AppendLeg(links, a1, t, origin, d);
    } else {
      links := AppendLeg([], o, t, origin, d);
      RouteWithoutAnchors(origin, dest, d);
    }
  }
}
