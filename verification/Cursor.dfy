/** The micropixel cursor computes exact positions: saturation and conversion never show. */
module Cursor {
  import opened Base
  import opened Geometry
  import opened Display
  import opened Topology
  import opened Controller

  // The focused position lies inside the focused screen.
  ghost predicate OnScreen(s: State) {
    var found := FindScreen(s.screens, s.focus);
    && found.Some?
    && 0 <= s.x < found.value.bounds.size.width * MICROPIXELS_PER_PIXEL
    && 0 <= s.y < found.value.bounds.size.height * MICROPIXELS_PER_PIXEL
  }

  // ---- The same computation on exact integers, in whole pixels ----

  // The edge offset through which a requested position outside the screen leaves it.
  function ExactOffset(edge: Edge, x: int, y: int, width: int, height: int): int {
    if edge.Vertical() then Clamp(y, 0, height - 1) / MICROPIXELS_PER_PIXEL
    else Clamp(x, 0, width - 1) / MICROPIXELS_PER_PIXEL
  }

  function ExactOvershoot(edge: Edge, x: int, y: int, width: int, height: int): (int, int) {
    match edge
    case Left => (x, 0)
    case Right => (x - width, 0)
    case Top => (0, y)
    case Bottom => (0, y - height)
  }

  // The entry pixel moved by the whole pixels of the overshoot, kept inside the target.
  function ExactEntry(entry: Point, size: Size, overshoot: (int, int)): (int, int) {
    (Clamp(entry.x + overshoot.0 / MICROPIXELS_PER_PIXEL, 0, size.width - 1),
     Clamp(entry.y + overshoot.1 / MICROPIXELS_PER_PIXEL, 0, size.height - 1))
  }

  // The micropixel extent of the focused screen.
  function FocusedExtent(s: State): (int, int)
    requires FindScreen(s.screens, s.focus).Some?
  {
    var size := FindScreen(s.screens, s.focus).value.bounds.size;
    (size.width * MICROPIXELS_PER_PIXEL, size.height * MICROPIXELS_PER_PIXEL)
  }

  ghost predicate ExactLeave(s: State, edge: Edge, offset: U32, overshoot: (int, int), r: Option<(NodeId, Point)>) {
    var crossing := Cross(s.screens, s.focus, edge, offset);
    && r.Some? == crossing.Some?
    && (r.Some? ==>
          var destination := FindScreen(s.screens, crossing.value.target);
          && destination.Some?
          && r.value.0 == crossing.value.target
          && (r.value.1.x, r.value.1.y) == ExactEntry(crossing.value.localPosition, destination.value.bounds.size,
               overshoot))
  }

  ghost predicate ExactDestination(s: State, x: int, y: int, r: Option<(NodeId, Point)>)
    requires FindScreen(s.screens, s.focus).Some?
  {
    var (width, height) := FocusedExtent(s);
    if 0 <= x < width && 0 <= y < height then
      && r.Some? && r.value.0 == s.focus
      && (r.value.1.x, r.value.1.y) == (x / MICROPIXELS_PER_PIXEL, y / MICROPIXELS_PER_PIXEL)
    else
      var edge := ExitEdge(x, y, width, height);
      var offset := ExactOffset(edge, x, y, width, height);
      0 <= offset <= 0xffff_ffff && ExactLeave(s, edge, offset, ExactOvershoot(edge, x, y, width, height), r)
  }

  // ---- Arithmetic ----

  lemma FitsMicropixels(size: Size)
    requires size.width <= COORDINATE_LIMIT && size.height <= COORDINATE_LIMIT
    ensures SaturatingMul(size.width, MICROPIXELS_PER_PIXEL) ==
            size.width * MICROPIXELS_PER_PIXEL <= 0x8000_0000 * MICROPIXELS_PER_PIXEL
    ensures SaturatingMul(size.height, MICROPIXELS_PER_PIXEL) ==
            size.height * MICROPIXELS_PER_PIXEL <= 0x8000_0000 * MICROPIXELS_PER_PIXEL
  {
  }

  // Clamping in micropixels and then rounding down is rounding down and then clamping in pixels, even
  // when the overshoot or the sum saturates.
  lemma ClampThenFloor(base: int, delta: int, length: int)
    requires 0 <= base < length <= 0x8000_0000 && I64_MIN <= delta
    ensures Clamp(SaturateI64(base * MICROPIXELS_PER_PIXEL + SaturateI64(delta)), 0,
            length * MICROPIXELS_PER_PIXEL - 1) / MICROPIXELS_PER_PIXEL
            == Clamp(base + delta / MICROPIXELS_PER_PIXEL, 0, length - 1)
    ensures 0 <= Clamp(base + delta / MICROPIXELS_PER_PIXEL, 0, length - 1) < length
  {
    var q := delta / MICROPIXELS_PER_PIXEL;
    var m := delta % MICROPIXELS_PER_PIXEL;
    assert delta == q * MICROPIXELS_PER_PIXEL + m && 0 <= m < MICROPIXELS_PER_PIXEL;
  }

  lemma EntryFits(entry: Point, size: Size)
    requires size.width <= COORDINATE_LIMIT && size.height <= COORDINATE_LIMIT
    requires 0 <= entry.x < size.width && 0 <= entry.y < size.height
    ensures SaturatingMul(entry.x, MICROPIXELS_PER_PIXEL) == entry.x * MICROPIXELS_PER_PIXEL
    ensures SaturatingMul(entry.y, MICROPIXELS_PER_PIXEL) == entry.y * MICROPIXELS_PER_PIXEL
    ensures SaturatingAdd(size.width * MICROPIXELS_PER_PIXEL, -1) == size.width * MICROPIXELS_PER_PIXEL - 1
    ensures SaturatingAdd(size.height * MICROPIXELS_PER_PIXEL, -1) == size.height * MICROPIXELS_PER_PIXEL - 1
  {
  }

  lemma SaturatedEntry(entry: Point, size: Size, overshoot: (int, int))
    requires size.width <= COORDINATE_LIMIT && size.height <= COORDINATE_LIMIT
    requires 0 <= entry.x < size.width && 0 <= entry.y < size.height
    requires I64_MIN <= overshoot.0 && I64_MIN <= overshoot.1
    ensures var p := EnterAt(entry, size, (SaturateI64(overshoot.0), SaturateI64(overshoot.1)));
            (p.x, p.y) == ExactEntry(entry, size, overshoot)
  {
    FitsMicropixels(size);
    EntryFits(entry, size);
    hide SaturateI64, Clamp;
    ClampThenFloor(entry.x, overshoot.0, size.width);
    ClampThenFloor(entry.y, overshoot.1, size.height);
  }

  // Saturating the requested position changes neither the edge nor the offset nor the overshoot.
  lemma SaturatedRequest(x: int, y: int, width: I64, height: I64)
    requires I64_MIN <= x && I64_MIN <= y
    requires 0 < width <= 0x8000_0000 * MICROPIXELS_PER_PIXEL && 0 < height <= 0x8000_0000 * MICROPIXELS_PER_PIXEL
    ensures var edge := ExitEdge(x, y, width, height);
            && edge == ExitEdge(SaturateI64(x), SaturateI64(y), width, height)
            && ExactOffset(edge, x, y, width, height) ==
                 ExactOffset(edge, SaturateI64(x), SaturateI64(y), width, height)
            && 0 <= ExactOffset(edge, x, y, width, height) <= 0x8000_0000
  {
  }

  // ---- Crossing geometry ----

  lemma FacingEntry(source: ScreenPlacement, target: ScreenPlacement, edge: Edge, offset: U32, position: Point)
    requires source.Valid() && target.Valid() && !source.bounds.Overlaps(target.bounds)
    requires Faces(source, target, edge, offset) && EntersAt(source, target, edge, offset, position)
    ensures 0 <= position.x < target.bounds.size.width && 0 <= position.y < target.bounds.size.height
    ensures (position.x, position.y) == EdgePixel(target.bounds.size, edge.Opposite(), AlongEdge(edge, position))
    ensures target.bounds.Start(edge) + AlongEdge(edge, position) == source.bounds.Start(edge) + offset
    ensures target.bounds.Side(edge.Opposite()) == source.bounds.Side(edge)
  {
    FacingSidesMeet(source, target, edge, offset);
  }

  // Where a crossing enters its target, before the overshoot is added.
  lemma CrossEntry(screens: seq<ScreenPlacement>, source: ScreenPlacement, edge: Edge, offset: U32)
    returns (target: ScreenPlacement)
    requires WellFormed(screens) && source in screens && Cross(screens, source.node, edge, offset).Some?
    ensures var t := Cross(screens, source.node, edge, offset).value;
            && target in screens && FindScreen(screens, t.target) == Some(target) && target.Valid()
            && target.node == t.target != source.node && !source.bounds.Overlaps(target.bounds)
            && Faces(source, target, edge, offset) && EntersAt(source, target, edge, offset, t.localPosition)
  {
    target := CrossTargetFaces(screens, source, edge, offset);
    CrossReachesFacingScreen(screens, source, target, edge, offset);
    FindScreenIn(screens, target);
    DisjointPair(screens, source, target);
  }

  lemma LeaveIsExact(s: State, edge: Edge, along: U32, overshoot: (int, int))
    requires WellFormed(s.screens) && FindScreen(s.screens, s.focus).Some?
    requires I64_MIN <= overshoot.0 && I64_MIN <= overshoot.1
    ensures var r := LeaveThrough(s, edge, along, (SaturateI64(overshoot.0), SaturateI64(overshoot.1)));
            r.Ok? && ExactLeave(s, edge, along, overshoot, r.value)
  {
    var crossing := Cross(s.screens, s.focus, edge, along);
    if crossing.Some? {
      var source := FindScreen(s.screens, s.focus).value;
      var target := CrossEntry(s.screens, source, edge, along);
      FacingEntry(source, target, edge, along, crossing.value.localPosition);
      SaturatedEntry(crossing.value.localPosition, target.bounds.size, overshoot);
    }
  }

  lemma LargeClampsSame(base: int, length: int, a: int, b: int)
    requires 0 <= base < length <= COORDINATE_LIMIT
    requires a == b || (a >= length * MICROPIXELS_PER_PIXEL && b >= length * MICROPIXELS_PER_PIXEL)
    ensures Clamp(base + a / MICROPIXELS_PER_PIXEL, 0, length - 1) ==
            Clamp(base + b / MICROPIXELS_PER_PIXEL, 0, length - 1)
  {
  }

  // An overshoot too large to represent is clamped to the same pixel either way.
  lemma SaturatedOvershoot(entry: Point, size: Size, edge: Edge, x: int, y: int, width: I64, height: I64)
    requires size.width <= COORDINATE_LIMIT && size.height <= COORDINATE_LIMIT
    requires 0 <= entry.x < size.width && 0 <= entry.y < size.height
    requires I64_MIN <= x && I64_MIN <= y
    requires 0 < width <= 0x8000_0000 * MICROPIXELS_PER_PIXEL && 0 < height <= 0x8000_0000 * MICROPIXELS_PER_PIXEL
    ensures ExactEntry(entry, size, ExactOvershoot(edge, SaturateI64(x), SaturateI64(y), width, height))
            == ExactEntry(entry, size, ExactOvershoot(edge, x, y, width, height))
  {
    match edge
    case Right => LargeClampsSame(entry.x, size.width, SaturateI64(x) - width, x - width);
    case Bottom => LargeClampsSame(entry.y, size.height, SaturateI64(y) - height, y - height);
    case Left => LargeClampsSame(entry.x, size.width, SaturateI64(x), x);
    case Top => LargeClampsSame(entry.y, size.height, SaturateI64(y), y);
  }

  lemma ExactLeaveSaturated(s: State, edge: Edge, offset: U32, x: int, y: int, r: Option<(NodeId, Point)>)
    requires WellFormed(s.screens) && FindScreen(s.screens, s.focus).Some?
    requires I64_MIN <= x && I64_MIN <= y
    requires var (width, height) := FocusedExtent(s);
             ExactLeave(s, edge, offset, ExactOvershoot(edge, SaturateI64(x), SaturateI64(y), width, height), r)
    ensures var (width, height) := FocusedExtent(s);
            ExactLeave(s, edge, offset, ExactOvershoot(edge, x, y, width, height), r)
  {
    var source := FindScreen(s.screens, s.focus).value;
    FitsMicropixels(source.bounds.size);
    var (width, height) := FocusedExtent(s);
    if r.Some? {
      var target := CrossEntry(s.screens, source, edge, offset);
      var position := Cross(s.screens, s.focus, edge, offset).value.localPosition;
      FacingEntry(source, target, edge, offset, position);
      SaturatedOvershoot(position, target.bounds.size, edge, x, y, width, height);
    }
  }

  lemma FocusedFits(s: State)
    requires WellFormed(s.screens) && FindScreen(s.screens, s.focus).Some?
    ensures var size := FindScreen(s.screens, s.focus).value.bounds.size;
            && 0 < size.width <= COORDINATE_LIMIT && 0 < size.height <= COORDINATE_LIMIT
            && SaturatingMul(size.width, MICROPIXELS_PER_PIXEL) == size.width * MICROPIXELS_PER_PIXEL
            && SaturatingMul(size.height, MICROPIXELS_PER_PIXEL) == size.height * MICROPIXELS_PER_PIXEL
  {
    FitsMicropixels(FindScreen(s.screens, s.focus).value.bounds.size);
  }

  lemma InsideIsExact(s: State, dx: I64, dy: I64)
    requires WellFormed(s.screens) && OnScreen(s)
    requires 0 <= s.x + dx < FocusedExtent(s).0 && 0 <= s.y + dy < FocusedExtent(s).1
    ensures var r := PointerDestination(s, dx, dy);
            r.Ok? && ExactDestination(s, s.x + dx, s.y + dy, r.value)
  {
    FitsMicropixels(FindScreen(s.screens, s.focus).value.bounds.size);
  }

  // Outside the screen, the computation leaves through the exact edge at the exact offset.
  lemma OutsideLeaves(s: State, dx: I64, dy: I64)
    requires WellFormed(s.screens) && OnScreen(s)
    requires !(0 <= s.x + dx < FocusedExtent(s).0 && 0 <= s.y + dy < FocusedExtent(s).1)
    ensures var (width, height) := FocusedExtent(s);
            var x, y := s.x + dx, s.y + dy;
            var edge := ExitEdge(x, y, width, height);
            var offset := ExactOffset(edge, x, y, width, height);
            && 0 <= offset <= 0x8000_0000 && width <= I64_MAX && height <= I64_MAX
            && PointerDestination(s, dx, dy)
               == LeaveThrough(s, edge, offset, Overshoot(edge, SaturateI64(x), SaturateI64(y), width, height))
  {
    hide LeaveThrough, FindScreen, WellFormed, Cross;
    FocusedFits(s);
    var (width, height) := FocusedExtent(s);
    SaturatedRequest(s.x + dx, s.y + dy, width, height);
  }

  lemma LeaveThroughIsExact(s: State, edge: Edge, offset: U32, x: int, y: int, width: I64, height: I64)
    requires WellFormed(s.screens) && FindScreen(s.screens, s.focus).Some?
    requires FocusedExtent(s) == (width, height) && I64_MIN <= x && I64_MIN <= y
    requires edge == ExitEdge(x, y, width, height)
    ensures var r := LeaveThrough(s, edge, offset, Overshoot(edge, SaturateI64(x), SaturateI64(y), width, height));
            r.Ok? && ExactLeave(s, edge, offset, ExactOvershoot(edge, x, y, width, height), r.value)
  {
    hide FindScreen, Cross, WellFormed;
    FocusedFits(s);
    var overshoot := ExactOvershoot(edge, SaturateI64(x), SaturateI64(y), width, height);
    LeaveIsExact(s, edge, offset, overshoot);
    var r := LeaveThrough(s, edge, offset, Overshoot(edge, SaturateI64(x), SaturateI64(y), width, height));
    ExactLeaveSaturated(s, edge, offset, x, y, r.value);
  }

  /**
   * The saturating computation yields exactly the exact-integer destination, for every motion: the
   * coordinate overflow and unknown peer errors cannot occur.
   */
  lemma PointerDestinationIsExact(s: State, dx: I64, dy: I64)
    requires WellFormed(s.screens) && OnScreen(s)
    ensures PointerDestination(s, dx, dy).Ok?
    ensures ExactDestination(s, s.x + dx, s.y + dy, PointerDestination(s, dx, dy).value)
  {
    hide FindScreen, Cross, WellFormed, LeaveThrough, PointerDestination, ExactLeave;
    FocusedFits(s);
    var x, y := s.x + dx, s.y + dy;
    var (width, height) := FocusedExtent(s);
    if 0 <= x < width && 0 <= y < height {
      InsideIsExact(s, dx, dy);
    } else {
      OutsideLeaves(s, dx, dy);
      var edge := ExitEdge(x, y, width, height);
      LeaveThroughIsExact(s, edge, ExactOffset(edge, x, y, width, height), x, y, width, height);
    }
  }

  lemma FloorShift(x: int, length: int)
    ensures (x - length * MICROPIXELS_PER_PIXEL) / MICROPIXELS_PER_PIXEL == x / MICROPIXELS_PER_PIXEL - length
  {
    var q := x / MICROPIXELS_PER_PIXEL;
    var m := x % MICROPIXELS_PER_PIXEL;
    assert x - length * MICROPIXELS_PER_PIXEL == (q - length) * MICROPIXELS_PER_PIXEL + m;
  }

  // The landing pixel of a crossing through `edge`, in the shared space.
  ghost predicate LandsOn(requested: (int, int), edge: Edge, within: bool, target: Rect, position: Point) {
    var past := if edge == Left || edge == Top then 1 else 0;
    var landed := (target.LeftSide() + position.x, target.TopSide() + position.y);
    if edge.Vertical() then
      && (within ==> landed.1 == requested.1)
      && landed.0 == Clamp(requested.0 - past, target.LeftSide(), target.RightSide() - 1)
    else
      && (within ==> landed.0 == requested.0)
      && landed.1 == Clamp(requested.1 - past, target.TopSide(), target.BottomSide() - 1)
  }

  lemma EntryLandsOn(source: Rect, target: Rect, edge: Edge, entry: Point, x: int, y: int, position: Point)
    requires (entry.x, entry.y) == EdgePixel(target.size, edge.Opposite(), AlongEdge(edge, entry))
    requires 0 <= entry.x < target.size.width && 0 <= entry.y < target.size.height
    requires target.Side(edge.Opposite()) == source.Side(edge)
    requires var (width, height) :=
             (source.size.width * MICROPIXELS_PER_PIXEL, source.size.height * MICROPIXELS_PER_PIXEL);
             && edge == ExitEdge(x, y, width, height)
             && target.Start(edge) + AlongEdge(edge, entry) == source.Start(edge) +
                  ExactOffset(edge, x, y, width, height)
             && (position.x, position.y) == ExactEntry(entry, target.size, ExactOvershoot(edge, x, y, width, height))
    ensures var requested :=
            (source.LeftSide() + x / MICROPIXELS_PER_PIXEL, source.TopSide() + y / MICROPIXELS_PER_PIXEL);
            var within := if edge.Vertical() then 0 <= y < source.size.height * MICROPIXELS_PER_PIXEL
                          else 0 <= x < source.size.width * MICROPIXELS_PER_PIXEL;
            LandsOn(requested, edge, within, target, position)
  {
    FloorShift(x, source.size.width);
    FloorShift(y, source.size.height);
  }

  // The geometry of a request from `source` that reached `node` at `position`.
  ghost predicate LandsFrom(s: State, x: int, y: int, node: NodeId, position: Point)
    requires FindScreen(s.screens, s.focus).Some?
  {
    var source := FindScreen(s.screens, s.focus).value.bounds;
    var target := FindScreen(s.screens, node);
    var (width, height) := FocusedExtent(s);
    var edge := ExitEdge(x, y, width, height);
    var within := if edge.Vertical() then 0 <= y < height else 0 <= x < width;
    var requested := (source.LeftSide() + x / MICROPIXELS_PER_PIXEL, source.TopSide() + y / MICROPIXELS_PER_PIXEL);
    target.Some? && LandsOn(requested, edge, within, target.value.bounds, position)
  }

  lemma ExactLeaveLands(s: State, x: int, y: int, offset: U32, node: NodeId, position: Point)
    requires WellFormed(s.screens) && FindScreen(s.screens, s.focus).Some?
    requires var (width, height) := FocusedExtent(s);
             var edge := ExitEdge(x, y, width, height);
             && offset == ExactOffset(edge, x, y, width, height)
             && ExactLeave(s, edge, offset, ExactOvershoot(edge, x, y, width, height), Some((node, position)))
    ensures LandsFrom(s, x, y, node, position)
  {
    hide Cross, LandsOn, EntersAt, Faces, ExitEdge, ExactOffset, ExactEntry, ExactOvershoot, EdgePixel, AlongEdge;
    var source := FindScreen(s.screens, s.focus).value;
    var (width, height) := FocusedExtent(s);
    var edge := ExitEdge(x, y, width, height);
    var target := CrossEntry(s.screens, source, edge, offset);
    var entry := Cross(s.screens, s.focus, edge, offset).value.localPosition;
    FacingEntry(source, target, edge, offset, entry);
    EntryLandsOn(source.bounds, target.bounds, edge, entry, x, y, position);
  }

  /**
   * A crossing keeps the perpendicular pixel of the shared space, when the requested one lies within the
   * source edge. Along the crossing axis it lands on the requested pixel going right or down, but one
   * pixel past it going left or up, kept inside the target.
   */
  lemma CrossingLandsOnRequestedPixel(s: State, dx: I64, dy: I64)
    requires WellFormed(s.screens) && OnScreen(s)
    requires var r := PointerDestination(s, dx, dy); r.Ok? && r.value.Some? && r.value.value.0 != s.focus
    ensures var (node, position) := PointerDestination(s, dx, dy).value.value;
            LandsFrom(s, s.x + dx, s.y + dy, node, position)
  {
    hide FindScreen, Cross, WellFormed, LeaveThrough, PointerDestination, ExactLeave, LandsFrom;
    PointerDestinationIsExact(s, dx, dy);
    var x, y := s.x + dx, s.y + dy;
    var (width, height) := FocusedExtent(s);
    var edge := ExitEdge(x, y, width, height);
    var (node, position) := PointerDestination(s, dx, dy).value.value;
    ExactLeaveLands(s, x, y, ExactOffset(edge, x, y, width, height), node, position);
  }
}
