/**
 * Where a crossing to the left or upwards misses the requested pixel: exactly when, and on two screens side by side.
 */
module CrossingExample {
  import opened Base
  import opened Geometry
  import opened Display
  import opened Topology
  import opened Controller
  import opened Cursor

  // Along the crossing axis: the requested coordinate, the landed one, and the target's extent.
  function Requested(source: Rect, edge: Edge, x: int, y: int): int {
    if edge.Vertical() then source.LeftSide() + x / MICROPIXELS_PER_PIXEL
      else source.TopSide() + y / MICROPIXELS_PER_PIXEL
  }

  function Landed(target: Rect, edge: Edge, position: Point): int {
    if edge.Vertical() then target.LeftSide() + position.x else target.TopSide() + position.y
  }

  function Low(target: Rect, edge: Edge): int {
    if edge.Vertical() then target.LeftSide() else target.TopSide()
  }

  function High(target: Rect, edge: Edge): int {
    if edge.Vertical() then target.RightSide() else target.BottomSide()
  }

  lemma MissesByOne(source: Rect, target: Rect, x: int, y: int, position: Point)
    requires var (width, height) :=
             (source.size.width * MICROPIXELS_PER_PIXEL, source.size.height * MICROPIXELS_PER_PIXEL);
             var edge := ExitEdge(x, y, width, height);
             var within := if edge.Vertical() then 0 <= y < height else 0 <= x < width;
             && !(0 <= x < width && 0 <= y < height)
             && target.Side(edge.Opposite()) == source.Side(edge)
             && LandsOn((source.LeftSide() + x / MICROPIXELS_PER_PIXEL, source.TopSide() + y / MICROPIXELS_PER_PIXEL),
                        edge, within, target, position)
    ensures var edge :=
            ExitEdge(x, y, source.size.width * MICROPIXELS_PER_PIXEL, source.size.height * MICROPIXELS_PER_PIXEL);
            var requested, landed := Requested(source, edge, x, y), Landed(target, edge, position);
            && (landed == Clamp(requested, Low(target, edge), High(target, edge) - 1) <==>
                  edge == Right || edge == Bottom || requested <= Low(target, edge))
            && (landed != Clamp(requested, Low(target, edge), High(target, edge) - 1) ==> landed == requested - 1)
  {
  }

  lemma SourceIsValid(s: State, source: ScreenPlacement)
    requires WellFormed(s.screens) && source in s.screens
    ensures source.Valid()
  {
  }

  // The request lies beyond the side where source and target meet.
  lemma CrossingSidesMeet(s: State, dx: I64, dy: I64, node: NodeId)
    requires WellFormed(s.screens) && OnScreen(s)
    requires var r := PointerDestination(s, dx, dy); r.Ok? && r.value.Some? && r.value.value.0 == node != s.focus
    ensures FindScreen(s.screens, s.focus).Some? && FindScreen(s.screens, node).Some?
    ensures var source, target := FindScreen(s.screens, s.focus).value.bounds, FindScreen(s.screens, node).value.bounds;
            var edge := ExitEdge(s.x + dx, s.y + dy, FocusedExtent(s).0, FocusedExtent(s).1);
            target.Side(edge.Opposite()) == source.Side(edge)
    ensures !(0 <= s.x + dx < FocusedExtent(s).0 && 0 <= s.y + dy < FocusedExtent(s).1)
  {
    PointerDestinationIsExact(s, dx, dy);
    hide FindScreen, Cross, WellFormed, PointerDestination, Faces, EntersAt;
    var source := FindScreen(s.screens, s.focus).value;
    var (width, height) := FocusedExtent(s);
    var edge := ExitEdge(s.x + dx, s.y + dy, width, height);
    var offset := ExactOffset(edge, s.x + dx, s.y + dy, width, height);
    var target := CrossEntry(s.screens, source, edge, offset);
    SourceIsValid(s, source);
    FacingSidesMeet(source, target, edge, offset);
  }

  /**
   * A crossing lands on the requested pixel, kept inside the target, exactly when it goes right or down, or
   * when the request lies at the far side of the target or beyond; otherwise it lands one pixel past it.
   */
  lemma LandsOnRequestExactly(s: State, dx: I64, dy: I64)
    requires WellFormed(s.screens) && OnScreen(s)
    requires var r := PointerDestination(s, dx, dy); r.Ok? && r.value.Some? && r.value.value.0 != s.focus
    ensures FindScreen(s.screens, PointerDestination(s, dx, dy).value.value.0).Some?
    ensures var (node, position) := PointerDestination(s, dx, dy).value.value;
            var source, target := FindScreen(s.screens, s.focus).value.bounds, FindScreen(s.screens, node).value.bounds;
            var edge := ExitEdge(s.x + dx, s.y + dy, FocusedExtent(s).0, FocusedExtent(s).1);
            var requested, landed := Requested(source, edge, s.x + dx, s.y + dy), Landed(target, edge, position);
            && (landed == Clamp(requested, Low(target, edge), High(target, edge) - 1) <==>
                  edge == Right || edge == Bottom || requested <= Low(target, edge))
            && (landed != Clamp(requested, Low(target, edge), High(target, edge) - 1) ==> landed == requested - 1)
  {
    hide FindScreen, WellFormed, OnScreen, PointerDestination, LandsOn, Requested, Landed, Low, High, Clamp, ExitEdge;
    CrossingLandsOnRequestedPixel(s, dx, dy);
    var (node, position) := PointerDestination(s, dx, dy).value.value;
    CrossingSidesMeet(s, dx, dy, node);
    var source, target := FindScreen(s.screens, s.focus).value.bounds, FindScreen(s.screens, node).value.bounds;
    MissesByOne(source, target, s.x + dx, s.y + dy, position);
  }

  // ---- Two screens side by side ----

  const SIDE := Size(100, 100)

  function Screen(node: NodeId, x: I32): ScreenPlacement {
    ScreenPlacement(node, Rect(Point(x, 0), SIDE), DesktopLayout(SIDE, [Monitor(None, Rect(Point(0, 0), SIDE))]))
  }

  // The focus is on the right-hand screen, with the cursor in its top left corner.
  const CORNER :=
    State([Screen("left", 0), Screen("right", 100)], "left", "right", 2, 0, 0, [], map["right" := NEW_DELIVERY])

  lemma ScreenIsValid(node: NodeId, x: I32)
    requires 0 <= x <= 1000
    ensures Screen(node, x).Valid()
  {
    var layout := Screen(node, x).layout;
    var monitor := layout.monitors[0];
    forall edge: Edge ensures layout.Spans(edge) {
      assert monitor in layout.monitors && layout.Reaches(monitor, edge);
    }
  }

  lemma CornerIsWellFormed()
    ensures WellFormed(CORNER.screens) && OnScreen(CORNER)
    ensures FindScreen(CORNER.screens, "left") == Some(Screen("left", 0))
    ensures FindScreen(CORNER.screens, "right") == Some(Screen("right", 100))
  {
    ScreenIsValid("left", 0);
    ScreenIsValid("right", 100);
    assert CORNER.screens[1..][0] == Screen("right", 100);
    assert CORNER.screens[0].node != CORNER.screens[1].node;
  }

  lemma ScreenShows(node: NodeId, x: I32, across: int, down: int)
    requires x <= across < x + 100 && 0 <= down < 100
    ensures Screen(node, x).Shows(across, down)
  {
    var monitor := Screen(node, x).layout.monitors[0];
    assert monitor in Screen(node, x).layout.monitors && monitor.bounds.ContainsCoordinates(across - x, down);
  }

  lemma CornerFacesLeft()
    ensures Faces(Screen("right", 100), Screen("left", 0), Left, 0)
  {
    ScreenShows("right", 100, 100, 0);
    ScreenShows("left", 0, 99, 0);
  }

  lemma CornerCrossesLeft()
    ensures var crossing := Cross(CORNER.screens, "right", Left, 0);
            crossing.Some? && crossing.value.target == "left" && crossing.value.localPosition == Point(99, 0)
  {
    var source, target := Screen("right", 100), Screen("left", 0);
    assert CORNER.screens[0] == target && CORNER.screens[1] == source;
    CornerIsWellFormed();
    CornerFacesLeft();
    hide WellFormed, FindScreen, Cross, Faces;
    CrossReachesFacingScreen(CORNER.screens, source, target, Left, 0);
  }

  /**
   * One micropixel to the left of the corner asks for pixel 99 of the shared space, the last column of the
   * left-hand screen, and lands on pixel 98.
   */
  lemma LeftCrossingLandsPast()
    ensures Requested(Screen("right", 100).bounds, Left, -1, 0) == 99
    ensures PointerDestination(CORNER, -1, 0) == Ok(Some(("left", Point(98, 0))))
  {
    CornerIsWellFormed();
    CornerCrossesLeft();
    hide WellFormed, FindScreen, Cross, OnScreen;
  }
}
