/**
 * The browser client: a container component that owns the pan position, the
 * local move list and the socket, and a canvas component that owns the gesture
 * state and the zoom, and turns pointer, touch and wheel events into pans,
 * zooms and clicks on grid cells.
 *
 * Each event handler runs to completion and reads only the state as it was
 * before the handler started (the framework applies state updates after the
 * handler returns), so each handler is modelled as one transition from the old
 * state to the new one.
 */
module Client {
  import opened Grid

  /**
   * A coordinate of a move: a number, or None for a value that is not one (a
   * field missing from a snapshot, which arithmetic turns into NaN).
   */
  type Coord = Option<real>

  /**
   * A move as the client holds it, from its own clicks or from a snapshot.
   * A player that is neither "x" nor "o" (one missing from a snapshot, say)
   * is kept as any other string: the code only ever compares it with "x" and
   * "o".
   */
  datatype Move = Move(player: string, x: Coord, y: Coord)

  /** The message a click hands to the socket. */
  datatype Message = Message(player: string, x: real, y: real)

  // ---------------------------------------------------------------------------
  // The click rule

  /** Rounds to the nearest integer, ties upwards: floor(v + 0.5). */
  function Round(v: real): (n: int)
    ensures n as real - 0.5 <= v < n as real + 0.5
  {
    (v + 0.5).Floor
  }

  /** Round picks the only integer within half a unit below-inclusive of v. */
  lemma RoundUnique(v: real, n: int)
    requires n as real - 0.5 <= v < n as real + 0.5
    ensures Round(v) == n
  {
  }

  /** The player of the next click: "o" after an "x", otherwise "x". */
  function NextPlayer(moves: seq<Move>): (p: string)
    ensures p == "x" || p == "o"
    ensures p == "o" <==> |moves| > 0 && moves[|moves| - 1].player == "x"
  {
    if |moves| > 0 && moves[|moves| - 1].player == "x" then "o" else "x"
  }

  /**
   * Both moves round to the same grid cell. A coordinate that is not a number
   * rounds to NaN, which equals nothing, so such a move shares no cell.
   */
  predicate SameCell(a: Move, b: Move)
  {
    && a.x.Some? && a.y.Some? && b.x.Some? && b.y.Some?
    && Round(a.x.value) == Round(b.x.value) && Round(a.y.value) == Round(b.y.value)
  }

  /** Some move in the list rounds to the cell of m. */
  predicate Occupied(moves: seq<Move>, m: Move)
  {
    exists i :: 0 <= i < |moves| && SameCell(moves[i], m)
  }

  /**
   * The move a click at the logical point pt places, if any: nothing exactly
   * when some existing move rounds to the clicked cell, and otherwise the
   * next player's mark at the integer cell nearest to pt.
   */
  function Placement(moves: seq<Move>, pt: Point): (r: Option<Move>)
    ensures r.None?
        <==> exists i :: 0 <= i < |moves| && moves[i].x.Some? && moves[i].y.Some?
                         && Round(moves[i].x.value) == Round(pt.x) && Round(moves[i].y.value) == Round(pt.y)
    ensures r.Some? ==>
              && r.value.player == NextPlayer(moves)
              && r.value.x.Some? && r.value.y.Some?
              && r.value.x.value == Round(pt.x) as real && r.value.y.value == Round(pt.y) as real
              && r.value.x.value - 0.5 <= pt.x < r.value.x.value + 0.5
              && r.value.y.value - 0.5 <= pt.y < r.value.y.value + 0.5
  {
    var m := Move(NextPlayer(moves), Some(Round(pt.x) as real), Some(Round(pt.y) as real));
    if Occupied(moves, m) then None else Some(m)
  }

  /** The message sent for a placed move carries the move's own fields. */
  function MessageOf(m: Move): Message
    requires m.x.Some? && m.y.Some?
  {
    Message(m.player, m.x.value, m.y.value)
  }

  /** No two moves of the list share a cell. */
  predicate DistinctCells(moves: seq<Move>)
  {
    forall i, j :: 0 <= i < j < |moves| ==> !SameCell(moves[i], moves[j])
  }

  /** Local clicks never put two moves in one cell. */
  lemma PlacementKeepsCellsDistinct(moves: seq<Move>, pt: Point)
    requires DistinctCells(moves)
    requires Placement(moves, pt).Some?
    ensures DistinctCells(moves + [Placement(moves, pt).value])
  {
  }

  /** Players alternate, starting with "x". */
  predicate Alternates(moves: seq<Move>)
  {
    forall i :: 0 <= i < |moves| ==> moves[i].player == (if i % 2 == 0 then "x" else "o")
  }

  /** Local clicks keep the players alternating. */
  lemma PlacementKeepsAlternation(moves: seq<Move>, pt: Point)
    requires Alternates(moves)
    requires Placement(moves, pt).Some?
    ensures Alternates(moves + [Placement(moves, pt).value])
  {
  }

  // ---------------------------------------------------------------------------
  // The zoom rule

  /** The cell size after one wheel event with vertical movement deltaY. */
  function Wheel(delta: int, deltaY: real): (r: int)
    ensures delta >= 20 ==> r >= 20
    ensures -1 <= r - delta <= 1
  {
    if deltaY > 0.0 then delta + 1
    else if deltaY < 0.0 && delta > 20 then delta - 1
    else delta
  }

  /** The cell size after a series of wheel events. */
  function Zoom(delta: int, deltaYs: seq<real>): int
    decreases |deltaYs|
  {
    if deltaYs == [] then delta else Zoom(Wheel(delta, deltaYs[0]), deltaYs[1..])
  }

  /** n copies of one wheel movement. */
  function Repeat(deltaY: real, n: nat): (s: seq<real>)
    ensures |s| == n
  {
    if n == 0 then [] else [deltaY] + Repeat(deltaY, n - 1)
  }

  /** No series of wheel events takes the cell size below 20 pixels. */
  lemma {:induction false} ZoomKeepsFloor(delta: int, deltaYs: seq<real>)
    requires delta >= 20
    ensures Zoom(delta, deltaYs) >= 20
    decreases |deltaYs|
  {
    if deltaYs != [] {
      ZoomKeepsFloor(Wheel(delta, deltaYs[0]), deltaYs[1..]);
    }
  }

  /**
   * Zooming in (wheel down, deltaY > 0) has no upper bound: n such events add
   * exactly n pixels, whatever the size of each movement.
   */
  lemma {:induction false} ZoomInUnbounded(delta: int, deltaY: real, n: nat)
    requires deltaY > 0.0
    ensures Zoom(delta, Repeat(deltaY, n)) == delta + n
    decreases n
  {
    if n > 0 {
      ZoomInUnbounded(delta + 1, deltaY, n - 1);
    }
  }

  /**
   * Zooming out (wheel up, deltaY < 0) takes one pixel per event and stops
   * exactly at the floor of 20 pixels.
   */
  lemma {:induction false} ZoomOutStopsAtFloor(delta: int, deltaY: real, n: nat)
    requires deltaY < 0.0
    requires delta >= 20
    ensures Zoom(delta, Repeat(deltaY, n)) == if delta - n >= 20 then delta - n else 20
    decreases n
  {
    if n > 0 {
      ZoomOutStopsAtFloor(if delta > 20 then delta - 1 else delta, deltaY, n - 1);
    }
  }

  /** Wheel events with no vertical movement leave the cell size alone. */
  lemma {:induction false} FlatWheelKeepsZoom(delta: int, n: nat)
    ensures Zoom(delta, Repeat(0.0, n)) == delta
    decreases n
  {
    if n > 0 {
      FlatWheelKeepsZoom(delta, n - 1);
    }
  }

  // ---------------------------------------------------------------------------
  // Culling

  /**
   * nearScreen applied to a move. A coordinate that is not a number makes
   * every corner's comparisons false, so such a move is never near.
   */
  predicate MoveNearScreen(v: View, canvas: Option<Size>, m: Move)
  {
    m.x.Some? && m.y.Some? && NearScreen(v, canvas, Point(m.x.value, m.y.value))
  }

  /** The moves the draw loop draws: those whose cell is near the screen, in order. */
  function Visible(v: View, canvas: Option<Size>, moves: seq<Move>): seq<Move>
  {
    if moves == [] then []
    else (if MoveNearScreen(v, canvas, moves[0]) then [moves[0]] else [])
         + Visible(v, canvas, moves[1..])
  }

  /** A move is drawn exactly when it is in the list and near the screen. */
  lemma {:induction false} VisibleMembers(v: View, canvas: Option<Size>, moves: seq<Move>, m: Move)
    ensures m in Visible(v, canvas, moves) <==> m in moves && MoveNearScreen(v, canvas, m)
  {
    if moves != [] {
      VisibleMembers(v, canvas, moves[1..], m);
      assert moves == [moves[0]] + moves[1..];
    }
  }

  // ---------------------------------------------------------------------------
  // The components

  /** The container component: pan position, local moves and the socket. */
  class Container {
    var center: Point
    var moves: seq<Move>
    /** Messages handed to the socket, oldest first. */
    var outbox: seq<Message>

    constructor ()
      ensures center == Point(0.0, 0.0)
      ensures moves == [Move("x", Some(0.0), Some(0.0))]
      ensures outbox == []
    {
      center := Point(0.0, 0.0);
      moves := [Move("x", Some(0.0), Some(0.0))];
      outbox := [];
    }

    /** Pans by a displacement in grid units. */
    method MoveCenter(displacement: Point)
      modifies this
      ensures center == Add(old(center), displacement)
      ensures moves == old(moves) && outbox == old(outbox)
    {
      center := Point(center.x + displacement.x, center.y + displacement.y);
    }

    /**
     * A click at the logical point pt: places the next player's mark in the
     * nearest cell and sends it, unless that cell is already taken.
     */
    method Click(pt: Point)
      modifies this
      ensures center == old(center)
      ensures Placement(old(moves), pt).None? ==> moves == old(moves) && outbox == old(outbox)
      ensures Placement(old(moves), pt).Some? ==>
                && moves == old(moves) + [Placement(old(moves), pt).value]
                && outbox == old(outbox) + [MessageOf(Placement(old(moves), pt).value)]
    {
      var xNext := true;
      if |moves| > 0 && moves[|moves| - 1].player == "x" {
        xNext := false;
      }
      var move := Move(if xNext then "x" else "o", Some(Round(pt.x) as real), Some(Round(pt.y) as real));

      var i := 0;
      while i < |moves|
        invariant 0 <= i <= |moves|
        invariant forall k :: 0 <= k < i ==> !SameCell(moves[k], move)
      {
        if SameCell(moves[i], move) {
          return;
        }
        i := i + 1;
      }

      moves := moves + [move];
      outbox := outbox + [Message(move.player, move.x.value, move.y.value)];
    }

    /** A snapshot from the server replaces the local moves wholesale. */
    method OnMessage(snapshot: seq<Move>)
      modifies this
      ensures moves == snapshot
      ensures center == old(center) && outbox == old(outbox)
    {
      moves := snapshot;
    }
  }

  /** The canvas component: gesture state, zoom and the coordinate mapping. */
  class Canvas {
    const container: Container
    /** Pixel position of the logical origin before any pan: half the window. */
    const initialOffset: Point
    /** The drawing surface, when it exists. */
    const canvas: Option<Size>
    var mouseDown: bool
    var mouseMoved: bool
    /** Pixels per grid unit. */
    var delta: int
    var previousTouch: Option<Point>

    ghost predicate Valid()
      reads this
    {
      delta >= 20
    }

    constructor (c: Container, innerWidth: real, innerHeight: real, surface: Option<Size>)
      ensures Valid()
      ensures container == c && canvas == surface
      ensures initialOffset == Point(innerWidth / 2.0, innerHeight / 2.0)
      ensures !mouseDown && !mouseMoved && delta == 50 && previousTouch == None
    {
      container := c;
      canvas := surface;
      initialOffset := Point(innerWidth / 2.0, innerHeight / 2.0);
      mouseDown, mouseMoved := false, false;
      delta := 50;
      previousTouch := None;
    }

    /** The current view: the container's pan position and this zoom. */
    function View(): View
      reads this, container
    {
      Grid.View(container.center, delta as real, initialOffset)
    }

    /** The logical point under the pixel q; the origin when there is no surface. */
    function ToLogical(q: Point): (p: Point)
      reads this, container
      requires Valid()
      ensures canvas.Some? ==> LogToPhys(View(), p) == q
      ensures canvas.None? ==> p == Point(0.0, 0.0)
    {
      if canvas.None? then Point(0.0, 0.0)
      else PhysToLog(View(), q)
    }

    method HandleMouseDown()
      requires Valid()
      modifies this
      ensures Valid()
      ensures mouseDown && !mouseMoved
      ensures delta == old(delta) && previousTouch == old(previousTouch)
    {
      mouseDown, mouseMoved := true, false;
    }

    /** Pans by the pointer movement while the button is down. */
    method HandleMouseMove(movementX: real, movementY: real)
      requires Valid()
      modifies this, container
      ensures Valid()
      ensures mouseMoved
      ensures mouseDown == old(mouseDown) && delta == old(delta) && previousTouch == old(previousTouch)
      ensures container.center
           == if old(mouseDown) then Add(old(container.center), Point(movementX / delta as real, movementY / delta as real))
              else old(container.center)
      ensures container.moves == old(container.moves) && container.outbox == old(container.outbox)
    {
      mouseMoved := true;
      if mouseDown {
        container.MoveCenter(Point(movementX / delta as real, movementY / delta as real));
      }
    }

    method HandleMouseUp()
      requires Valid()
      modifies this
      ensures Valid()
      ensures !mouseDown
      ensures mouseMoved == old(mouseMoved) && delta == old(delta) && previousTouch == old(previousTouch)
    {
      mouseDown := false;
    }

    /** A double click is a click at the logical point under the pointer. */
    method HandleDoubleClick(clientX: real, clientY: real)
      requires Valid()
      modifies container
      ensures Valid()
      ensures var pt := old(ToLogical(Point(clientX, clientY)));
              && container.center == old(container.center)
              && (Placement(old(container.moves), pt).None? ==>
                    container.moves == old(container.moves) && container.outbox == old(container.outbox))
              && (Placement(old(container.moves), pt).Some? ==>
                    && container.moves == old(container.moves) + [Placement(old(container.moves), pt).value]
                    && container.outbox == old(container.outbox) + [MessageOf(Placement(old(container.moves), pt).value)])
    {
      container.Click(ToLogical(Point(clientX, clientY)));
    }

    method HandleTouchStart(touch: Point)
      requires Valid()
      modifies this
      ensures Valid()
      ensures previousTouch == Some(touch)
      ensures mouseDown == old(mouseDown) && mouseMoved == old(mouseMoved) && delta == old(delta)
    {
      previousTouch := Some(touch);
    }

    /** Pans by the finger movement since the last recorded touch, if any. */
    method HandleTouchMove(touch: Point)
      requires Valid()
      modifies this, container
      ensures Valid()
      ensures mouseMoved && previousTouch == Some(touch)
      ensures mouseDown == old(mouseDown) && delta == old(delta)
      ensures container.center
           == match old(previousTouch)
              case None => old(container.center)
              case Some(prev) =>
                Add(old(container.center), Point((touch.x - prev.x) / delta as real, (touch.y - prev.y) / delta as real))
      ensures container.moves == old(container.moves) && container.outbox == old(container.outbox)
    {
      mouseMoved := true;
      match previousTouch {
        case Some(prev) =>
          var dx := touch.x - prev.x;
          var dy := touch.y - prev.y;
          previousTouch := Some(touch);
          container.MoveCenter(Point(dx / delta as real, dy / delta as real));
        case None =>
          previousTouch := Some(touch);
      }
    }

    /**
     * Ends a touch. A touch that was recorded and not followed by any pointer
     * or finger movement since the last mouse-down is a tap: a click at the
     * logical point of the recorded touch.
     */
    method HandleTouchEnd()
      requires Valid()
      modifies this, container
      ensures Valid()
      ensures previousTouch == None
      ensures mouseDown == old(mouseDown) && mouseMoved == old(mouseMoved) && delta == old(delta)
      ensures container.center == old(container.center)
      ensures old(mouseMoved || previousTouch.None?) ==>
                container.moves == old(container.moves) && container.outbox == old(container.outbox)
      ensures old(!mouseMoved && previousTouch.Some?) ==>
                var pt := old(ToLogical(previousTouch.value));
                && (Placement(old(container.moves), pt).None? ==>
                      container.moves == old(container.moves) && container.outbox == old(container.outbox))
                && (Placement(old(container.moves), pt).Some? ==>
                      && container.moves == old(container.moves) + [Placement(old(container.moves), pt).value]
                      && container.outbox == old(container.outbox) + [MessageOf(Placement(old(container.moves), pt).value)])
    {
      var prev := previousTouch;
      previousTouch := None;
      if !mouseMoved && prev.Some? {
        container.Click(ToLogical(prev.value));
      }
    }

    /** Wheel down grows the cells by a pixel, wheel up shrinks them down to 20. */
    method HandleWheel(deltaY: real)
      requires Valid()
      modifies this
      ensures Valid()
      ensures delta == Wheel(old(delta), deltaY)
      ensures mouseDown == old(mouseDown) && mouseMoved == old(mouseMoved) && previousTouch == old(previousTouch)
    {
      if deltaY > 0.0 {
        delta := delta + 1;
      } else if deltaY < 0.0 && delta > 20 {
        delta := delta - 1;
      }
    }

    /** The moves the draw loop draws, skipping those whose cell is off screen. */
    method DrawnMoves() returns (drawn: seq<Move>)
      ensures drawn == Visible(View(), canvas, container.moves)
    {
      var moves := container.moves;
      var v := View();
      drawn := [];
      var i := 0;
      while i < |moves|
        invariant 0 <= i <= |moves|
        invariant drawn + Visible(v, canvas, moves[i..]) == Visible(v, canvas, moves)
      {
        assert moves[i..] == [moves[i]] + moves[i + 1..];
        var pt := moves[i];
        i := i + 1;
        if !MoveNearScreen(v, canvas, pt) {
          continue;
        }
        drawn := drawn + [pt];
      }
    }
  }
}
