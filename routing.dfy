/**
 * The orthogonal router of the current engine (`Wire.rewire` / `Wire.wire`
 * in sccircuitbuilder/connection.py).
 *
 * Given a start cell o (the origin's grid cell plus the departure vector d)
 * and a target cell t, the router emits one unit grid cell ("link") per step,
 * first along one axis, then along the other: a single bend. The target cell
 * itself is never emitted; painting draws the last segment to the target.
 */
module Routing {
  import opened Geometry

  /** A grid cell on a routed path, in grid units. */
  datatype Link = Link(x: int, y: int)

  /** The k-th value of Python's `range(a, b, disp)` with `disp = int(b > a)*2-1`. */
  function Toward(a: int, b: int, k: int): int
  {
    if b > a then a + k else a - k
  }

  /** `linkx(sy)`: one link per x from `from` toward `to`, stopping before `to`, on row sy. */
  function XRun(from: int, to: int, sy: int): (r: seq<Link>)
    ensures |r| == Abs(to - from)
  {
    seq(Abs(to - from), k requires 0 <= k < Abs(to - from) => Link(Toward(from, to, k), sy))
  }

  /** `linky(sx)`: one link per y from `from` toward `to`, stopping before `to`, in column sx. */
  function YRun(sx: int, from: int, to: int): (r: seq<Link>)
    ensures |r| == Abs(to - from)
  {
    seq(Abs(to - from), k requires 0 <= k < Abs(to - from) => Link(sx, Toward(from, to, k)))
  }

  /** Departure component dv points away from the target on its axis. */
  predicate Overshoots(dv: int, ov: int, tv: int)
  {
    (ov < tv && dv < 0) || (ov > tv && dv > 0)
  }

  /**
   * `orientation == 1` in `Wire.rewire`: route the y axis first. With a
   * horizontal departure, y goes first when x would overshoot; with a vertical
   * one, y goes first unless y would overshoot; with no departure, x goes first.
   */
  predicate VerticalFirst(d: Point, o: Point, t: Point)
  {
    if d.x != 0 then Overshoots(d.x, o.x, t.x)
    else if d.y != 0 then !Overshoots(d.y, o.y, t.y)
    else false
  }

  /** `Wire.wire(ox, oy, tx, ty)` for the given orientation. */
  function Route(o: Point, t: Point, verticalFirst: bool): seq<Link>
  {
    if verticalFirst then YRun(o.x, o.y, t.y) + XRun(o.x, t.x, t.y)
    else XRun(o.x, t.x, o.y) + YRun(t.x, o.y, t.y)
  }

  /** The start cell of a wire: the origin's grid cell moved by d. */
  function StartCell(origin: Point, d: Point): Point
  {
    GridOf(origin).Plus(d)
  }

  /** `Wire.rewire`: the links of a wire from origin to dest with departure d (world coordinates). */
  function WireRoute(origin: Point, dest: Point, d: Point): seq<Link>
  {
    var o, t := StartCell(origin, d), GridOf(dest);
    Route(o, t, VerticalFirst(d, o, t))
  }

  /** Two cells one unit step apart on exactly one axis. */
  predicate UnitStep(a: Link, b: Link)
  {
    Abs(a.x - b.x) + Abs(a.y - b.y) == 1
  }

  /** The route has one link per unit of Manhattan distance, and is empty exactly when o is t. */
  lemma RouteLength(o: Point, t: Point, vf: bool)
    ensures |Route(o, t, vf)| == Abs(t.x - o.x) + Abs(t.y - o.y)
    ensures Route(o, t, vf) == [] <==> o == t
  {
  }

  /** Every two consecutive links of s are one unit step apart. */
  predicate Stepwise(s: seq<Link>)
  {
    forall i :: 0 <= i < |s| - 1 ==> UnitStep(s[i], s[i + 1])
  }

  lemma XRunStepwise(from: int, to: int, sy: int)
    ensures Stepwise(XRun(from, to, sy))
  {
  }

  lemma YRunStepwise(sx: int, from: int, to: int)
    ensures Stepwise(YRun(sx, from, to))
  {
  }

  /** Two stepwise runs joined by a unit step form a stepwise run. */
  lemma JoinStepwise(a: seq<Link>, b: seq<Link>)
    requires Stepwise(a) && Stepwise(b)
    requires a != [] && b != [] ==> UnitStep(a[|a| - 1], b[0])
    ensures Stepwise(a + b)
  {
    var r := a + b;
    forall i | 0 <= i < |r| - 1
      ensures UnitStep(r[i], r[i + 1])
    {
      if i + 1 < |a| {
        assert r[i] == a[i] && r[i + 1] == a[i + 1];
      } else if i + 1 == |a| {
        assert r[i] == a[i] && r[i + 1] == b[0];
      } else {
        assert r[i] == b[i - |a|] && r[i + 1] == b[i + 1 - |a|];
      }
    }
  }

  /** The route is the two legs of its single bend. */
  lemma RouteLegs(o: Point, t: Point, vf: bool)
    ensures var (a, b) := if vf then (YRun(o.x, o.y, t.y), XRun(o.x, t.x, t.y))
                          else (XRun(o.x, t.x, o.y), YRun(t.x, o.y, t.y));
      Route(o, t, vf) == a + b &&
      (a != [] ==> a[0] == Link(o.x, o.y)) &&
      (a == [] && b != [] ==> b[0] == Link(o.x, o.y)) &&
      (b != [] ==> UnitStep(b[|b| - 1], Link(t.x, t.y))) &&
      (b == [] && a != [] ==> UnitStep(a[|a| - 1], Link(t.x, t.y))) &&
      (a != [] && b != [] ==> UnitStep(a[|a| - 1], b[0])) &&
      Link(t.x, t.y) !in a && Link(t.x, t.y) !in b
  {
  }

  /** A non-empty route starts at o, moves one unit at a time, ends one unit from t and never visits t. */
  lemma RouteConnects(o: Point, t: Point, vf: bool)
    ensures var r := Route(o, t, vf);
      (r != [] ==> r[0] == Link(o.x, o.y) && UnitStep(r[|r| - 1], Link(t.x, t.y))) &&
      Stepwise(r) &&
      Link(t.x, t.y) !in r
  {
    RouteLegs(o, t, vf);
    var (a, b) := if vf then (YRun(o.x, o.y, t.y), XRun(o.x, t.x, t.y))
                  else (XRun(o.x, t.x, o.y), YRun(t.x, o.y, t.y));
    var r := a + b;
    XRunStepwise(o.x, t.x, t.y);
    XRunStepwise(o.x, t.x, o.y);
    YRunStepwise(o.x, o.y, t.y);
    YRunStepwise(t.x, o.y, t.y);
    JoinStepwise(a, b);
    if r != [] {
      if a != [] { assert r[0] == a[0]; } else { assert r[0] == b[0]; }
      if b != [] { assert r[|r| - 1] == b[|b| - 1]; } else { assert r[|r| - 1] == a[|a| - 1]; }
    }
  }

  /** Link a is one unit step from o along x. */
  predicate StepX(a: Link, o: Point)
  {
    a.y == o.y && Abs(a.x - o.x) == 1
  }

  /** Link a is one unit step from o along y. */
  predicate StepY(a: Link, o: Point)
  {
    a.x == o.x && Abs(a.y - o.y) == 1
  }

  /**
   * The first step follows the axis chosen by the orientation rule: along x
   * when x goes first and o and t differ in x, along y when y goes first and
   * they differ in y. In terms of the departure d: the wire first runs along
   * d's axis, unless it would overshoot the target on that axis, in which
   * case it turns to the other axis; with no departure it runs along x.
   */
  lemma FirstStepAxis(d: Point, o: Point, t: Point)
    requires |Route(o, t, VerticalFirst(d, o, t))| >= 2
    ensures var r := Route(o, t, VerticalFirst(d, o, t));
      (!VerticalFirst(d, o, t) && o.x != t.x ==> StepX(r[1], o)) &&
      (VerticalFirst(d, o, t) && o.y != t.y ==> StepY(r[1], o))
    ensures var r := Route(o, t, VerticalFirst(d, o, t));
      (d.x != 0 && !Overshoots(d.x, o.x, t.x) && o.x != t.x ==> StepX(r[1], o)) &&
      (d.x != 0 && Overshoots(d.x, o.x, t.x) && o.y != t.y ==> StepY(r[1], o)) &&
      (d.x == 0 && d.y != 0 && !Overshoots(d.y, o.y, t.y) && o.y != t.y ==> StepY(r[1], o)) &&
      (d.x == 0 && d.y != 0 && Overshoots(d.y, o.y, t.y) && o.x != t.x ==> StepX(r[1], o)) &&
      (d == Point(0, 0) && o.x != t.x ==> StepX(r[1], o))
  {
    var r := Route(o, t, VerticalFirst(d, o, t));
    if !VerticalFirst(d, o, t) && o.x != t.x {
      var a := XRun(o.x, t.x, o.y);
      if |a| >= 2 {
        assert r[1] == a[1];
      } else {
        assert r[1] == YRun(t.x, o.y, t.y)[0];
      }
    }
    if VerticalFirst(d, o, t) && o.y != t.y {
      var a := YRun(o.x, o.y, t.y);
      if |a| >= 2 {
        assert r[1] == a[1];
      } else {
        assert r[1] == XRun(o.x, t.x, t.y)[0];
      }
    }
  }

  /**
   * `linkx(sy)` appended to `links`: the loop of `Wire.wire` over
   * `range(ox, tx, disp)`.
   */
  method AppendXRun(links: seq<Link>, ox: int, tx: int, sy: int) returns (out: seq<Link>)
    ensures out == links + XRun(ox, tx, sy)
  {
    var disp := if tx > ox then 1 else -1;
    out := links;
    var x := ox;
    while (disp == 1 && x < tx) || (disp == -1 && x > tx)
      invariant disp == 1 ==> ox <= x <= tx
      invariant disp == -1 ==> (tx <= x <= ox || x == ox)
      invariant x == Toward(ox, tx, Abs(x - ox))
      invariant out == links + XRun(ox, tx, sy)[..Abs(x - ox)]
      decreases Abs(tx - x)
    {
      assert XRun(ox, tx, sy)[..Abs(x - ox) + 1] == XRun(ox, tx, sy)[..Abs(x - ox)] + [Link(x, sy)];
      out := out + [Link(x, sy)];
      x := x + disp;
    }
    assert XRun(ox, tx, sy)[..Abs(x - ox)] == XRun(ox, tx, sy);
  }

  /** `linky(sx)` appended to `links`: the loop over `range(oy, ty, disp)`. */
  method AppendYRun(links: seq<Link>, sx: int, oy: int, ty: int) returns (out: seq<Link>)
    ensures out == links + YRun(sx, oy, ty)
  {
    var disp := if ty > oy then 1 else -1;
    out := links;
    var y := oy;
    while (disp == 1 && y < ty) || (disp == -1 && y > ty)
      invariant disp == 1 ==> oy <= y <= ty
      invariant disp == -1 ==> (ty <= y <= oy || y == oy)
      invariant y == Toward(oy, ty, Abs(y - oy))
      invariant out == links + YRun(sx, oy, ty)[..Abs(y - oy)]
      decreases Abs(ty - y)
    {
      assert YRun(sx, oy, ty)[..Abs(y - oy) + 1] == YRun(sx, oy, ty)[..Abs(y - oy)] + [Link(sx, y)];
      out := out + [Link(sx, y)];
      y := y + disp;
    }
    assert YRun(sx, oy, ty)[..Abs(y - oy)] == YRun(sx, oy, ty);
  }

  /** `Wire.wire(ox, oy, tx, ty)` on an emptied link list. */
  method WireLinks(ox: int, oy: int, tx: int, ty: int, orientation: int) returns (links: seq<Link>)
    ensures links == Route(Point(ox, oy), Point(tx, ty), orientation != 0)
  {
    links := [];
    if orientation == 0 {
      links := AppendXRun(links, ox, tx, oy);
      links := AppendYRun(links, tx, oy, ty);
    } else {
      links := AppendYRun(links, ox, oy, ty);
      links := AppendXRun(links, ox, tx, ty);
    }
  }

  /**
   * `Wire.rewire`: clear the links, compute the start and target cells and
   * the orientation, and route. The result depends only on origin, dest and d.
   */
  method RewireLinks(origin: Point, dest: Point, d: Point) returns (links: seq<Link>, orientation: int)
    ensures orientation == (if VerticalFirst(d, StartCell(origin, d), GridOf(dest)) then 1 else 0)
    ensures links == WireRoute(origin, dest, d)
  {
    var oy := GridIndex(origin.y);
    oy := oy + d.y;
    var ox := GridIndex(origin.x);
    ox := ox + d.x;
    var tx, ty := GridIndex(dest.x), GridIndex(dest.y);
    orientation := 0;
    if d.x != 0 {
      if (ox < tx && d.x < 0) || (ox > tx && d.x > 0) {
        orientation := 1;
      }
    } else if d.y != 0 {
      if !((oy < ty && d.y < 0) || (oy > ty && d.y > 0)) {
        orientation := 1;
      }
    }
    links := WireLinks(ox, oy, tx, ty, orientation);
  }

  /** Half-width of a link's hit box in the current engine: a SPACING-wide box, halved. */
  const LinkHalf: int := SPACING / 2

  /** A link is hit by p when p lies strictly within `half` of the link's world position on each axis. */
  predicate LinkHit(l: Link, half: int, p: Point)
  {
    StrictlyWithin(Point(l.x * SPACING, l.y * SPACING), half, half, p)
  }

  /**
   * `in_bbox` over `links[1:]`: the index of the first link after the first one
   * that p hits, or -1 when there is none.
   */
  function FirstHit(links: seq<Link>, half: int, p: Point): (r: int)
    ensures r == -1 || (1 <= r < |links| && LinkHit(links[r], half, p))
    ensures r == -1 <==> forall i :: 1 <= i < |links| ==> !LinkHit(links[i], half, p)
    ensures r != -1 ==> forall i :: 1 <= i < r ==> !LinkHit(links[i], half, p)
    decreases |links|
  {
    if |links| <= 1 then -1
    else if LinkHit(links[1], half, p) then 1
    else
      var rest := FirstHit(links[1..], half, p);
      if rest == -1 then -1 else rest + 1
  }

  /** With a half-width of at most SPACING/2, a grid point hits only the link of its own cell. */
  lemma LinkHitOnGrid(l: Link, half: int, gx: int, gy: int)
    requires 0 < half <= SPACING / 2
    ensures LinkHit(l, half, Point(gx * SPACING, gy * SPACING)) <==> l == Link(gx, gy)
  {
    if LinkHit(l, half, Point(gx * SPACING, gy * SPACING)) {
      assert Abs(gx - l.x) * SPACING < SPACING;
      assert Abs(gy - l.y) * SPACING < SPACING;
    }
  }
}
