/**
 * The common base of everything placed on the canvas (canvas_element.py):
 * a position, a quarter-turn counter and an optional hit box.
 *
 * The arena records of both engines carry the same three attributes and use
 * the functions defined here and in Geometry for them.
 */
module CanvasElements {
  import opened Geometry
  import opened Options

  /**
   * The state of the `bbox` attribute. The constructor assigns it only when
   * no box is passed, so a passed box leaves it `Unset`.
   */
  datatype BboxSlot = Unset | Assigned(box: Option<Bbox>)

  /** What the constructor leaves in `bbox` for the box argument it was given. */
  function InitialBbox(given: Option<Bbox>): BboxSlot
  {
    if given.None? then Assigned(Some(DefaultBbox)) else Unset
  }

  /**
   * `in_bbox` for an element centred at c: `None` when the attribute was never
   * assigned (Python raises AttributeError), false when it holds no box,
   * otherwise the strict test against +-width and +-height.
   */
  function HitBox(c: Point, slot: BboxSlot, p: Point): Option<bool>
  {
    match slot
    case Unset => None
    case Assigned(None) => Some(false)
    case Assigned(Some(b)) => Some(StrictlyWithin(c, b.width, b.height, p))
  }

  /** With the default box, an element on the grid is hit exactly by the points that snap to it. */
  lemma DefaultBoxHitsOwnCell(c: Point, p: Point)
    requires c.x % SPACING == 0 && c.y % SPACING == 0
    ensures HitBox(c, InitialBbox(None), p) == Some(Abs(p.x - c.x) < SPACING / 2 && Abs(p.y - c.y) < SPACING / 2)
    ensures HitBox(c, InitialBbox(None), p) == Some(true) ==> SnapPoint(p) == c
  {
    if HitBox(c, InitialBbox(None), p) == Some(true) {
      SnapsToNearbyGridLine(p.x, c.x / SPACING);
      SnapsToNearbyGridLine(p.y, c.y / SPACING);
    }
  }

  /** A value less than SPACING/2 away from a grid line snaps onto that line. */
  lemma SnapsToNearbyGridLine(v: int, k: int)
    requires 2 * Abs(v - SPACING * k) < SPACING
    ensures Snap(v) == SPACING * k
  {
    var q := GridIndex(v);
    assert 2 * Abs(v - SPACING * q) <= SPACING;
  }

  /** A box passed to the constructor is dropped: the attribute stays unset and `in_bbox` fails. */
  lemma PassedBoxIsDropped(b: Bbox, c: Point, p: Point)
    ensures InitialBbox(Some(b)) == Unset
    ensures HitBox(c, InitialBbox(Some(b)), p).None?
  {
  }

  class CanvasElement {
    var x: int
    var y: int
    var rot: int
    var bbox: BboxSlot

    constructor (x: int, y: int, bbox: Option<Bbox>, rot: int)
      ensures this.x == x && this.y == y && this.rot == rot
      ensures this.bbox == InitialBbox(bbox)
      ensures bbox.None? ==> this.bbox == Assigned(Some(Bbox(SPACING / 2, SPACING / 2)))
    {
      this.x := x;
      this.y := y;
      this.rot := rot;
      if bbox.None? {
        this.bbox := Assigned(Some(DefaultBbox));
      } else {
        this.bbox := Unset;
      }
    }

    /** Advance the quarter-turn counter modulo 4; nothing else changes. */
    method Rotate()
      modifies this
      ensures rot == NextRot(old(rot)) && 0 <= rot < 4
      ensures x == old(x) && y == old(y) && bbox == old(bbox)
    {
      rot := (rot + 1) % 4;
    }

    /** Move to the grid point nearest (px, py); the counter and box are kept. */
    method Drag(px: int, py: int)
      modifies this
      ensures x == Snap(px) && y == Snap(py)
      ensures x % SPACING == 0 && y % SPACING == 0
      ensures px % SPACING == 0 ==> x == px
      ensures py % SPACING == 0 ==> y == py
      ensures rot == old(rot) && bbox == old(bbox)
    {
      x := SPACING * GridIndex(px);
      y := SPACING * GridIndex(py);
      SnapIsNearest(px, 0);
      SnapIsNearest(py, 0);
      if px % SPACING == 0 {
        GridIndexOfMultiple(px / SPACING);
      }
      if py % SPACING == 0 {
        GridIndexOfMultiple(py / SPACING);
      }
    }

    function InBbox(p: Point): Option<bool>
      reads this
    {
      HitBox(Point(x, y), bbox, p)
    }
  }
}
