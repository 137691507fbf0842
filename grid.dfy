/**
 * The mapping between the logical grid and screen pixels that both canvas
 * components use, and the visibility tests built on it.
 *
 * A logical point p is drawn at (center + p) * delta + offset on each axis,
 * where center is the pan position (in grid units), delta the number of pixels
 * per grid unit and offset the pixel position of the logical origin when the
 * view is not panned (half the window size, fixed when the component mounts).
 * Coordinates are modelled as exact reals.
 */
module Grid {

  datatype Option<T> = None | Some(value: T)

  /** A point in either space: grid units (logical) or pixels (physical). */
  datatype Point = Point(x: real, y: real)

  /** The size of the drawing surface, in pixels. */
  datatype Size = Size(width: real, height: real)

  /** Everything the mapping depends on. */
  datatype View = View(center: Point, delta: real, offset: Point)

  /** Componentwise sum. */
  function Add(p: Point, q: Point): Point
  {
    Point(p.x + q.x, p.y + q.y)
  }

  /** Logical to physical: where the grid point p is drawn. */
  function LogToPhys(v: View, p: Point): Point
  {
    Point((v.center.x + p.x) * v.delta + v.offset.x,
          (v.center.y + p.y) * v.delta + v.offset.y)
  }

  /**
   * Physical to logical: which grid position lies under the pixel q. It
   * undoes LogToPhys: the grid position found is drawn at q.
   */
  function PhysToLog(v: View, q: Point): (p: Point)
    requires v.delta != 0.0
    ensures LogToPhys(v, p) == q
  {
    ScaleUndoesDivide(q.x, v.offset.x, v.delta, v.center.x);
    ScaleUndoesDivide(q.y, v.offset.y, v.delta, v.center.y);
    Point((q.x - v.offset.x) / v.delta - v.center.x,
          (q.y - v.offset.y) / v.delta - v.center.y)
  }

  /** Mapping a grid point to the screen and back gives the grid point again. */
  lemma LogicalRoundTrip(v: View, p: Point)
    requires v.delta != 0.0
    ensures PhysToLog(v, LogToPhys(v, p)) == p
  {
    DivideUndoesScale(v.center.x + p.x, v.offset.x, v.delta);
    DivideUndoesScale(v.center.y + p.y, v.offset.y, v.delta);
  }

  /**
   * Moving a logical point by (a, b) grid units moves its image by
   * (a * delta, b * delta) pixels.
   */
  lemma LogToPhysShift(v: View, p: Point, a: real, b: real)
    ensures LogToPhys(v, Point(p.x + a, p.y + b))
         == Point(LogToPhys(v, p).x + a * v.delta, LogToPhys(v, p).y + b * v.delta)
  {
    var q, r := LogToPhys(v, p), LogToPhys(v, Point(p.x + a, p.y + b));
    assert r.x == q.x + a * v.delta by { ShiftAxis(v.center.x, p.x, a, v.delta, v.offset.x); }
    assert r.y == q.y + b * v.delta by { ShiftAxis(v.center.y, p.y, b, v.delta, v.offset.y); }
  }

  /**
   * Panning: adding a pixel movement (dx, dy) divided by delta to the center
   * moves the image of every grid point by exactly (dx, dy) pixels, so the grid
   * follows the pointer.
   */
  lemma PanFollowsPointer(v: View, dx: real, dy: real, p: Point)
    requires v.delta != 0.0
    ensures LogToPhys(v.(center := Add(v.center, Point(dx / v.delta, dy / v.delta))), p)
         == Point(LogToPhys(v, p).x + dx, LogToPhys(v, p).y + dy)
  {
    var w := v.(center := Add(v.center, Point(dx / v.delta, dy / v.delta)));
    var q, r := LogToPhys(v, p), LogToPhys(w, p);
    assert r.x == q.x + dx by { PanAxis(v.center.x, dx, p.x, v.delta, v.offset.x); }
    assert r.y == q.y + dy by { PanAxis(v.center.y, dy, p.y, v.delta, v.offset.y); }
  }

  // One axis of the mapping at a time; each step isolates a single
  // non-linear fact.

  lemma MulDivCancel(u: real, d: real)
    requires d != 0.0
    ensures u * d / d == u && u / d * d == u
  {
  }

  lemma Distribute(u: real, a: real, d: real)
    ensures (u + a) * d == u * d + a * d
  {
  }

  lemma DivideUndoesScale(u: real, o: real, d: real)
    requires d != 0.0
    ensures (u * d + o - o) / d == u
  {
    assert u * d + o - o == u * d;
    MulDivCancel(u, d);
  }

  lemma ScaleUndoesDivide(q: real, o: real, d: real, c: real)
    requires d != 0.0
    ensures (c + ((q - o) / d - c)) * d + o == q
  {
    var w := (q - o) / d;
    assert c + (w - c) == w;
    MulDivCancel(q - o, d);
    assert w * d == q - o;
  }

  lemma ShiftAxis(c: real, p: real, a: real, d: real, o: real)
    ensures (c + (p + a)) * d + o == ((c + p) * d + o) + a * d
  {
    assert c + (p + a) == (c + p) + a;
    Distribute(c + p, a, d);
  }

  lemma PanAxis(c: real, dx: real, p: real, d: real, o: real)
    requires d != 0.0
    ensures ((c + dx / d) + p) * d + o == ((c + p) * d + o) + dx
  {
    assert (c + dx / d) + p == (c + p) + dx / d;
    Distribute(c + p, dx / d, d);
    MulDivCancel(dx, d);
  }

  /** The pixel q lies on the drawing surface (edges included). */
  predicate InCanvas(s: Size, q: Point)
  {
    0.0 <= q.x <= s.width && 0.0 <= q.y <= s.height
  }

  /** The grid point p is drawn on the surface; never true without a surface. */
  predicate OnScreen(v: View, canvas: Option<Size>, p: Point)
  {
    canvas.Some? && InCanvas(canvas.value, LogToPhys(v, p))
  }

  /**
   * The cell centred on p is near the screen: at least one of its four
   * corners, half a unit away on each axis, is on screen.
   */
  predicate NearScreen(v: View, canvas: Option<Size>, p: Point)
  {
    || OnScreen(v, canvas, Point(p.x - 0.5, p.y - 0.5))
    || OnScreen(v, canvas, Point(p.x + 0.5, p.y - 0.5))
    || OnScreen(v, canvas, Point(p.x - 0.5, p.y + 0.5))
    || OnScreen(v, canvas, Point(p.x + 0.5, p.y + 0.5))
  }

  /** Multiplying by a positive factor keeps the order. */
  lemma ScaleKeepsOrder(a: real, b: real, d: real)
    requires d > 0.0
    ensures a <= b <==> a * d <= b * d
  {
    assert b * d - a * d == (b - a) * d;
  }

  /** On one axis: the image of t lies in [lo, hi] exactly when t lies between the preimages of lo and hi. */
  lemma BetweenScaled(lo: real, t: real, hi: real, d: real, o: real, c: real)
    requires d > 0.0
    ensures (lo <= (c + t) * d + o <= hi) <==> ((lo - o) / d - c <= t <= (hi - o) / d - c)
  {
    var u, a, b := c + t, (lo - o) / d, (hi - o) / d;
    MulDivCancel(lo - o, d);
    MulDivCancel(hi - o, d);
    calc {
      lo <= (c + t) * d + o <= hi;
    ==
      a * d <= u * d <= b * d;
    == { ScaleKeepsOrder(a, u, d); ScaleKeepsOrder(u, b, d); }
      a <= u <= b;
    ==
      a - c <= t <= b - c;
    }
  }

  /**
   * With a positive delta, the grid points on screen are exactly those in the
   * closed rectangle between the logical positions of the surface's top-left
   * and bottom-right pixels.
   */
  lemma OnScreenWindow(v: View, s: Size, p: Point)
    requires v.delta > 0.0
    ensures var lo, hi := PhysToLog(v, Point(0.0, 0.0)), PhysToLog(v, Point(s.width, s.height));
            OnScreen(v, Some(s), p) <==> lo.x <= p.x <= hi.x && lo.y <= p.y <= hi.y
  {
    BetweenScaled(0.0, p.x, s.width, v.delta, v.offset.x, v.center.x);
    BetweenScaled(0.0, p.y, s.height, v.delta, v.offset.y, v.center.y);
  }

  /**
   * Culling never hides a cell whose centre is visible, as long as the
   * surface is at least one cell wide and one cell high.
   */
  lemma VisibleCellIsNear(v: View, s: Size, p: Point)
    requires v.delta > 0.0
    requires s.width >= v.delta && s.height >= v.delta
    requires OnScreen(v, Some(s), p)
    ensures NearScreen(v, Some(s), p)
  {
    var q := LogToPhys(v, p);
    var h := v.delta / 2.0;
    var a := if q.x >= h then -0.5 else 0.5;
    var b := if q.y >= h then -0.5 else 0.5;
    LogToPhysShift(v, p, a, b);
    assert InCanvas(s, LogToPhys(v, Point(p.x + a, p.y + b)));
  }

  /**
   * Conversely, a cell near the screen has its centre within half a cell of
   * the surface on each axis.
   */
  lemma NearScreenIsClose(v: View, s: Size, p: Point)
    requires v.delta > 0.0
    requires NearScreen(v, Some(s), p)
    ensures var q, h := LogToPhys(v, p), v.delta / 2.0;
            -h <= q.x <= s.width + h && -h <= q.y <= s.height + h
  {
    LogToPhysShift(v, p, -0.5, -0.5);
    LogToPhysShift(v, p, 0.5, -0.5);
    LogToPhysShift(v, p, -0.5, 0.5);
    LogToPhysShift(v, p, 0.5, 0.5);
  }

  /**
   * Without the size condition of VisibleCellIsNear a visible centre can be
   * culled: at 100 pixels per unit on a 50 by 50 surface whose origin sits
   * at pixel (25, 25), the point (0, 0) is on screen while all four corners
   * of its cell are 50 pixels outside.
   */
  lemma LargeCellCulled()
    ensures var v, s := View(Point(0.0, 0.0), 100.0, Point(25.0, 25.0)), Some(Size(50.0, 50.0));
            OnScreen(v, s, Point(0.0, 0.0)) && !NearScreen(v, s, Point(0.0, 0.0))
  {
  }
}
