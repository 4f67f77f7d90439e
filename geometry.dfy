/**
 * Grid geometry shared by both engines.
 *
 * World coordinates are integers; the grid pitch is SPACING (constants.py).
 * Python's `round(v / SPACING)` is modelled exactly for an integer v: the
 * nearest integer, halves to the even neighbour. The source's quarter-turn
 * matrix [[0,-1],[1,0]] is applied to row vectors, so (a, b) becomes (b, -a).
 */
module Geometry {

  /** Grid pitch in world units. */
  const SPACING: int := 50

  datatype Point = Point(x: int, y: int)
  {
    function Plus(q: Point): Point { Point(x + q.x, y + q.y) }
    function Minus(q: Point): Point { Point(x - q.x, y - q.y) }
    function Scaled(k: int): Point { Point(k * x, k * y) }
  }

  /** Half-widths of a rectangular hit box (the source's `Bbox` namedtuple). */
  datatype Bbox = Bbox(width: int, height: int)

  /** The box every canvas element gets when none is passed: SPACING/2 by SPACING/2. */
  const DefaultBbox: Bbox := Bbox(SPACING / 2, SPACING / 2)

  function Abs(v: int): nat { if v < 0 then -v else v }

  /** Python's `round(v / SPACING)` for an integer v. */
  function GridIndex(v: int): (q: int)
    ensures 2 * Abs(v - SPACING * q) <= SPACING
    ensures 2 * Abs(v - SPACING * q) == SPACING ==> q % 2 == 0
  {
    var f, r := v / SPACING, v % SPACING;
    if 2 * r < SPACING then f
    else if 2 * r > SPACING then f + 1
    else if f % 2 == 0 then f
    else f + 1
  }

  /** `SPACING * round(v / SPACING)`: the grid line nearest to v. */
  function Snap(v: int): int { SPACING * GridIndex(v) }

  function SnapPoint(p: Point): Point { Point(Snap(p.x), Snap(p.y)) }

  /** Grid coordinates of a world point (both coordinates rounded). */
  function GridOf(p: Point): Point { Point(GridIndex(p.x), GridIndex(p.y)) }

  /** On a multiple of SPACING, `round` is exact. */
  lemma GridIndexOfMultiple(k: int)
    ensures GridIndex(SPACING * k) == k
  {
    assert (SPACING * k) / SPACING == k && (SPACING * k) % SPACING == 0;
  }

  /** Snapping lands on a multiple of SPACING, at most SPACING/2 away, and no multiple is nearer. */
  lemma SnapIsNearest(v: int, k: int)
    ensures Snap(v) % SPACING == 0
    ensures 2 * Abs(Snap(v) - v) <= SPACING
    ensures Abs(Snap(v) - v) <= Abs(SPACING * k - v)
  {
    var q := GridIndex(v);
    if k < q {
      assert SPACING * k <= SPACING * q - SPACING;
    } else if k > q {
      assert SPACING * k >= SPACING * q + SPACING;
    }
  }

  /** Snapping a point that is already on the grid leaves it where it is. */
  lemma SnapIdempotent(v: int)
    ensures Snap(Snap(v)) == Snap(v)
  {
    GridIndexOfMultiple(GridIndex(v));
  }

  /** A quarter turn of a row vector: (a, b) times [[0,-1],[1,0]] is (b, -a). */
  function QuarterTurn(v: Point): Point { Point(v.y, -v.x) }

  /** `v @ matrix_power(ROT_MAT, n)`: n quarter turns. */
  function Turned(v: Point, n: nat): Point
  {
    if n == 0 then v else QuarterTurn(Turned(v, n - 1))
  }

  /** Turning by n quarter turns only depends on n mod 4. */
  lemma {:induction false} TurnedPeriodic(v: Point, n: nat)
    ensures Turned(v, n) == Turned(v, n % 4)
  {
    if n >= 4 {
      TurnedPeriodic(v, n - 4);
      assert Turned(v, n) == Turned(v, n - 4) by { FourTurnsAfter(v, n - 4); }
    }
  }

  /** Four more quarter turns change nothing. */
  lemma {:induction false} FourTurnsAfter(v: Point, m: nat)
    ensures Turned(v, m + 4) == Turned(v, m)
  {
    var w := Turned(v, m);
    assert Turned(v, m + 1) == QuarterTurn(w);
    assert Turned(v, m + 2) == QuarterTurn(QuarterTurn(w));
    assert Turned(v, m + 3) == QuarterTurn(QuarterTurn(QuarterTurn(w)));
  }

  /** Turning a point about a centre c by a quarter turn. */
  function TurnedAbout(p: Point, c: Point): Point
  {
    QuarterTurn(p.Minus(c)).Plus(c)
  }

  /** Four quarter turns about the same centre bring a point back, and a turn keeps its distance. */
  lemma TurnAboutFourTimes(p: Point, c: Point)
    ensures TurnedAbout(TurnedAbout(TurnedAbout(TurnedAbout(p, c), c), c), c) == p
    ensures Abs(TurnedAbout(p, c).x - c.x) == Abs(p.y - c.y)
    ensures Abs(TurnedAbout(p, c).y - c.y) == Abs(p.x - c.x)
  {
  }

  /** The next quarter-turn counter: `(rot + 1) % 4` with Python's non-negative `%`. */
  function NextRot(rot: int): (r: int)
    ensures 0 <= r < 4
    ensures 0 <= rot < 3 ==> r == rot + 1
    ensures rot == 3 ==> r == 0
  {
    (rot + 1) % 4
  }

  /** `NextRot` applied n times. */
  function Rotations(rot: int, n: nat): int
  {
    if n == 0 then rot else NextRot(Rotations(rot, n - 1))
  }

  /** From a counter in 0..3, n rotations give (rot + n) mod 4; in particular four restore it. */
  lemma {:induction false} RotationsCount(rot: int, n: nat)
    requires 0 <= rot < 4
    ensures Rotations(rot, n) == (rot + n) % 4
  {
    if n > 0 {
      RotationsCount(rot, n - 1);
      var a := rot + n - 1;
      var q, m := a / 4, a % 4;
      assert a == 4 * q + m;
      if m < 3 {
        ModFour(a + 1, q, m + 1);
      } else {
        ModFour(a + 1, q + 1, 0);
      }
    }
  }

  /** The remainder modulo 4 is the one of any decomposition with a remainder in 0..3. */
  lemma ModFour(x: int, q: int, m: int)
    requires x == 4 * q + m && 0 <= m < 4
    ensures x % 4 == m
  {
  }

  /** The strict box test: p lies strictly within +-w and +-h of c. */
  predicate StrictlyWithin(c: Point, w: int, h: int, p: Point)
  {
    c.x - w < p.x < c.x + w && c.y - h < p.y < c.y + h
  }
}
