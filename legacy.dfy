/**
 * The earlier client variant: the same mapping and panning as the current
 * client, at a fixed 75 pixels per grid unit, with no zoom and no clicks. Its
 * container holds two marker lists, and its draw loop draws the "x" markers
 * only up to the first one that is off screen.
 */
module Legacy {
  import opened Grid

  /** The markers the draw loop draws: the markers of xs up to the first off-screen one. */
  function DrawnPrefix(v: View, canvas: Option<Size>, xs: seq<Point>): seq<Point>
  {
    if xs == [] || !OnScreen(v, canvas, xs[0]) then []
    else [xs[0]] + DrawnPrefix(v, canvas, xs[1..])
  }

  /**
   * The drawn markers are the longest prefix of xs whose markers are all on
   * screen.
   */
  lemma {:induction false} DrawnPrefixIsLongestOnScreenPrefix(v: View, canvas: Option<Size>, xs: seq<Point>)
    ensures var r := DrawnPrefix(v, canvas, xs);
            && r <= xs
            && (forall k :: 0 <= k < |r| ==> OnScreen(v, canvas, r[k]))
            && (|r| < |xs| ==> !OnScreen(v, canvas, xs[|r|]))
  {
    if xs != [] && OnScreen(v, canvas, xs[0]) {
      DrawnPrefixIsLongestOnScreenPrefix(v, canvas, xs[1..]);
      var t := DrawnPrefix(v, canvas, xs[1..]);
      assert xs == [xs[0]] + xs[1..];
      forall k | 0 <= k < |t| + 1 ensures OnScreen(v, canvas, ([xs[0]] + t)[k]) {
        if k > 0 {
          assert ([xs[0]] + t)[k] == t[k - 1];
        }
      }
    }
  }

  /**
   * One off-screen marker hides every marker after it, even those that are on
   * screen.
   */
  lemma {:induction false} OffScreenMarkerHidesTheRest(v: View, canvas: Option<Size>, xs: seq<Point>, j: nat)
    requires j < |xs| && !OnScreen(v, canvas, xs[j])
    ensures |DrawnPrefix(v, canvas, xs)| <= j
  {
    if j > 0 && OnScreen(v, canvas, xs[0]) {
      OffScreenMarkerHidesTheRest(v, canvas, xs[1..], j - 1);
    }
  }

  /**
   * At the fixed scale, a marker is on screen exactly when there is a surface
   * and the marker lies in the logical rectangle the surface shows.
   */
  lemma FixedScaleWindow(v: View, canvas: Option<Size>, p: Point)
    requires v.delta == 75.0
    ensures OnScreen(v, canvas, p)
        <==> && canvas.Some?
             && -v.offset.x / 75.0 - v.center.x <= p.x <= (canvas.value.width - v.offset.x) / 75.0 - v.center.x
             && -v.offset.y / 75.0 - v.center.y <= p.y <= (canvas.value.height - v.offset.y) / 75.0 - v.center.y
  {
  }

  /**
   * For a mounted canvas: a marker is on screen exactly when there is a
   * surface and the marker lies in the logical rectangle that the surface
   * shows at the container's current pan position.
   */
  lemma CanvasOnScreen(c: Canvas, p: Point)
    ensures var o, k := c.initialOffset, c.container.center;
            OnScreen(c.View(), c.canvas, p)
            <==> (&& c.canvas.Some?
                  && -o.x / 75.0 - k.x <= p.x <= (c.canvas.value.width - o.x) / 75.0 - k.x
                  && -o.y / 75.0 - k.y <= p.y <= (c.canvas.value.height - o.y) / 75.0 - k.y)
  {
    FixedScaleWindow(c.View(), c.canvas, p);
  }

  /** The container component: pan position and the two marker lists. */
  class Container {
    var center: Point
    var xs: seq<Point>
    var os: seq<Point>

    constructor ()
      ensures center == Point(0.0, 0.0)
      ensures xs == [Point(0.0, 0.0)] && os == []
    {
      center := Point(0.0, 0.0);
      xs := [Point(0.0, 0.0)];
      os := [];
    }

    /** Pans by a displacement in grid units. */
    method MoveCenter(displacement: Point)
      modifies this
      ensures center == Add(old(center), displacement)
      ensures xs == old(xs) && os == old(os)
    {
      center := Point(center.x + displacement.x, center.y + displacement.y);
    }
  }

  /** The canvas component: mouse and touch panning at a fixed scale. */
  class Canvas {
    const container: Container
    /** Pixel position of the logical origin before any pan: half the window. */
    const initialOffset: Point
    /** The drawing surface, when it exists. */
    const canvas: Option<Size>
    /** Pixels per grid unit; nothing changes it. */
    const delta: real := 75.0
    var mouseDown: bool
    var previousTouch: Option<Point>

    constructor (c: Container, innerWidth: real, innerHeight: real, surface: Option<Size>)
      ensures container == c && canvas == surface
      ensures initialOffset == Point(innerWidth / 2.0, innerHeight / 2.0)
      ensures !mouseDown && previousTouch == None
    {
      container := c;
      canvas := surface;
      initialOffset := Point(innerWidth / 2.0, innerHeight / 2.0);
      mouseDown := false;
      previousTouch := None;
    }

    /** The current view: the container's pan position at 75 pixels per unit. */
    function View(): View
      reads this, container
    {
      Grid.View(container.center, delta, initialOffset)
    }

    method HandleMouseDown()
      modifies this
      ensures mouseDown && previousTouch == old(previousTouch)
    {
      mouseDown := true;
    }

    /** Pans by the pointer movement while the button is down. */
    method HandleMouseMove(movementX: real, movementY: real)
      modifies container
      ensures container.center
           == if mouseDown then Add(old(container.center), Point(movementX / 75.0, movementY / 75.0))
              else old(container.center)
      ensures container.xs == old(container.xs) && container.os == old(container.os)
    {
      if mouseDown {
        container.MoveCenter(Point(movementX / delta, movementY / delta));
      }
    }

    method HandleMouseUp()
      modifies this
      ensures !mouseDown && previousTouch == old(previousTouch)
    {
      mouseDown := false;
    }

    /** Pans by the finger movement since the last recorded touch, if any. */
    method HandleTouchMove(touch: Point)
      modifies this, container
      ensures previousTouch == Some(touch) && mouseDown == old(mouseDown)
      ensures container.center
           == match old(previousTouch)
              case None => old(container.center)
              case Some(prev) =>
                Add(old(container.center), Point((touch.x - prev.x) / 75.0, (touch.y - prev.y) / 75.0))
      ensures container.xs == old(container.xs) && container.os == old(container.os)
    {
      match previousTouch {
        case Some(prev) =>
          var dx := touch.x - prev.x;
          var dy := touch.y - prev.y;
          previousTouch := Some(touch);
          container.MoveCenter(Point(dx / delta, dy / delta));
        case None =>
          previousTouch := Some(touch);
      }
    }

    method HandleTouchStart(touch: Point)
      modifies this
      ensures previousTouch == Some(touch) && mouseDown == old(mouseDown)
    {
      previousTouch := Some(touch);
    }

    /** Forgets the recorded touch and does nothing else. */
    method HandleTouchEnd()
      modifies this
      ensures previousTouch == None && mouseDown == old(mouseDown)
    {
      previousTouch := None;
    }

    /**
     * The "x" markers the draw loop draws. The loop leaves the whole draw at
     * the first marker that is off screen, so only a prefix is drawn.
     */
    method DrawnMarkers() returns (drawn: seq<Point>)
      ensures drawn == DrawnPrefix(View(), canvas, container.xs)
      ensures drawn <= container.xs
      ensures forall k :: 0 <= k < |drawn| ==> OnScreen(View(), canvas, drawn[k])
      ensures |drawn| < |container.xs| ==> !OnScreen(View(), canvas, container.xs[|drawn|])
    {
      var xs := container.xs;
      var v := View();
      drawn := [];
      var i := 0;
      while i < |xs|
        invariant 0 <= i <= |xs|
        invariant drawn == xs[..i]
        invariant forall k :: 0 <= k < i ==> OnScreen(v, canvas, xs[k])
        invariant DrawnPrefix(v, canvas, xs) == drawn + DrawnPrefix(v, canvas, xs[i..])
      {
        assert xs[i..] == [xs[i]] + xs[i + 1..];
        if !OnScreen(v, canvas, xs[i]) {
          return;
        }
        drawn := drawn + [xs[i]];
        i := i + 1;
      }
    }
  }
}
