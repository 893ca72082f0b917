/** What the controller does with a placement: which edges it arms, where it enters, and live resizing. */
module Placement {
  import opened Base
  import opened Geometry
  import opened Display
  import opened Topology
  import opened Connectivity

  // ---- Arming edges ----

  // The middle of the overlap of one source segment with the first candidate segment it overlaps.
  function OverlapMiddle(start: int, end: int, sourceStart: int, candidateStart: int, segments: seq<(U32,
          U32)>): Option<U32>
  {
    if segments == [] then None else
    var rest := OverlapMiddle(start, end, sourceStart, candidateStart, segments[1..]);
    var overlapStart := Max(start, candidateStart + segments[0].0);
    var overlapEnd := Min(end, candidateStart + segments[0].1);
    if overlapStart >= overlapEnd then rest
    else match TryU32(overlapStart + (overlapEnd - overlapStart - 1) / 2 - sourceStart)
      case Some(offset) => Some(offset)
      case None => rest
  }

  function FirstSharedOffset(sourceStart: int, candidateStart: int, own: seq<(U32, U32)>, facing: seq<(U32,
          U32)>): Option<U32>
  {
    if own == [] then None
    else match OverlapMiddle(sourceStart + own[0].0, sourceStart + own[0].1, sourceStart, candidateStart, facing)
      case Some(offset) => Some(offset)
      case None => FirstSharedOffset(sourceStart, candidateStart, own[1..], facing)
  }

  function SharedEdgeOffset(source: ScreenPlacement, candidate: ScreenPlacement, edge: Edge): Option<U32> {
    if candidate.bounds.Side(edge.Opposite()) != source.bounds.Side(edge) then None
    else FirstSharedOffset(source.bounds.Start(edge), candidate.bounds.Start(edge),
                           source.layout.EdgeSegments(edge), candidate.layout.EdgeSegments(edge.Opposite()))
  }

  function FirstShared(screens: seq<ScreenPlacement>, source: ScreenPlacement, edge: Edge): Option<(NodeId, U32)> {
    if screens == [] then None
    else if screens[0].node == source.node then FirstShared(screens[1..], source, edge)
    else match SharedEdgeOffset(source, screens[0], edge)
      case Some(offset) => Some((screens[0].node, offset))
      case None => FirstShared(screens[1..], source, edge)
  }

  // The activation target when the capture backend reports no position along the edge.
  function ActivationTarget(screens: seq<ScreenPlacement>, local: NodeId, edge: Edge): Option<(NodeId, U32)> {
    match FindScreen(screens, local)
    case None => None
    case Some(source) => FirstShared(screens, source, edge)
  }

  const ALL_EDGES: seq<Edge> := [Left, Right, Top, Bottom]

  function ArmedEdges(edges: seq<Edge>, screens: seq<ScreenPlacement>, local: NodeId, enabled: set<Edge>): seq<Edge> {
    if edges == [] then []
    else (if edges[0] in enabled && ActivationTarget(screens, local, edges[0]).Some? then [edges[0]] else [])
         + ArmedEdges(edges[1..], screens, local, enabled)
  }

  function CaptureEdges(screens: seq<ScreenPlacement>, local: NodeId, enabled: set<Edge>): seq<Edge> {
    ArmedEdges(ALL_EDGES, screens, local, enabled)
  }

  lemma {:induction false} OverlapMiddleIsShared(start: int, end: int, sourceStart: int, candidateStart: int,
          segments: seq<(U32, U32)>)
    requires sourceStart <= start && end - sourceStart <= 0xffff_ffff
    ensures var r := OverlapMiddle(start, end, sourceStart, candidateStart, segments);
            && (r.Some? ==>
                 start <= sourceStart + r.value < end && Covered(segments, sourceStart + r.value - candidateStart))
            && (r.None? ==> forall along :: start <= candidateStart + along < end ==> !Covered(segments, along))
  {
    if segments != [] {
      OverlapMiddleIsShared(start, end, sourceStart, candidateStart, segments[1..]);
      assert forall s :: s in segments ==> s == segments[0] || s in segments[1..];
      var r := OverlapMiddle(start, end, sourceStart, candidateStart, segments);
      var overlapStart := Max(start, candidateStart + segments[0].0);
      var overlapEnd := Min(end, candidateStart + segments[0].1);
      if overlapStart < overlapEnd {
        assert overlapStart <= sourceStart + r.value < overlapEnd;
        assert ContainsAxis(segments[0].0, segments[0].1, sourceStart + r.value - candidateStart);
      } else if r.Some? {
        var s :| s in segments[1..] && ContainsAxis(s.0, s.1, sourceStart + r.value - candidateStart);
        assert s in segments;
      } else {
        forall along | start <= candidateStart + along < end ensures !Covered(segments, along) {
          assert !Covered(segments[1..], along);
        }
      }
    }
  }

  lemma {:induction false} FirstSharedOffsetIsShared(sourceStart: int, candidateStart: int, own: seq<(U32, U32)>,
          facing: seq<(U32, U32)>)
    ensures var r := FirstSharedOffset(sourceStart, candidateStart, own, facing);
            && (r.Some? ==> Covered(own, r.value) && Covered(facing, sourceStart + r.value - candidateStart))
            && (r.None? ==> forall offset :: Covered(own, offset) ==>
                 !Covered(facing, sourceStart + offset - candidateStart))
  {
    if own != [] {
      OverlapMiddleIsShared(sourceStart + own[0].0, sourceStart + own[0].1, sourceStart, candidateStart, facing);
      FirstSharedOffsetIsShared(sourceStart, candidateStart, own[1..], facing);
      var first := OverlapMiddle(sourceStart + own[0].0, sourceStart + own[0].1, sourceStart, candidateStart, facing);
      if first.Some? {
        assert ContainsAxis(own[0].0, own[0].1, first.value);
      } else {
        var r := FirstSharedOffset(sourceStart, candidateStart, own[1..], facing);
        if r.Some? {
          var s :| s in own[1..] && ContainsAxis(s.0, s.1, r.value);
          assert s in own;
        } else {
          forall offset | Covered(own, offset) ensures !Covered(facing, sourceStart + offset - candidateStart) {
            var s :| s in own && ContainsAxis(s.0, s.1, offset);
            if s == own[0] {
              var along := sourceStart + offset - candidateStart;
              assert sourceStart + own[0].0 <= candidateStart + along < sourceStart + own[0].1;
            } else {
              assert s in own[1..];
              assert Covered(own[1..], offset);
            }
          }
        }
      }
    }
  }

  // The stretch, in offsets of the source edge, over which two segments face each other.
  function Stretch(sourceStart: int, candidateStart: int, own: (U32, U32), facing: (U32, U32)): (int, int) {
    (Max(own.0, candidateStart + facing.0 - sourceStart), Min(own.1, candidateStart + facing.1 - sourceStart))
  }

  predicate Meet(sourceStart: int, candidateStart: int, own: (U32, U32), facing: (U32, U32)) {
    var stretch := Stretch(sourceStart, candidateStart, own, facing); stretch.0 < stretch.1
  }

  // As many offsets of the stretch lie before as behind, or one more behind.
  predicate MiddleOf(stretch: (int, int), offset: int) {
    0 <= (stretch.1 - 1 - offset) - (offset - stretch.0) <= 1
  }

  predicate MeetsNone(sourceStart: int, candidateStart: int, own: (U32, U32), facing: seq<(U32, U32)>) {
    forall j :: 0 <= j < |facing| ==> !Meet(sourceStart, candidateStart, own, facing[j])
  }

  predicate MeetsFirst(sourceStart: int, candidateStart: int, own: (U32, U32), facing: seq<(U32, U32)>, j: int,
          offset: int)
  {
    && 0 <= j < |facing| && Meet(sourceStart, candidateStart, own, facing[j])
    && MiddleOf(Stretch(sourceStart, candidateStart, own, facing[j]), offset)
    && MeetsNone(sourceStart, candidateStart, own, facing[..j])
  }

  // The first of the facing segments that meets `own` does so around `offset`.
  ghost predicate FirstMeeting(sourceStart: int, candidateStart: int, own: (U32, U32), facing: seq<(U32, U32)>,
          offset: int)
  {
    exists j :: MeetsFirst(sourceStart, candidateStart, own, facing, j, offset)
  }

  lemma {:induction false} OverlapMiddleIsFirst(sourceStart: int, candidateStart: int, own: (U32, U32),
          facing: seq<(U32, U32)>)
    ensures var r := OverlapMiddle(sourceStart + own.0, sourceStart + own.1, sourceStart, candidateStart, facing);
            && (r.None? <==> MeetsNone(sourceStart, candidateStart, own, facing))
            && (r.Some? ==> FirstMeeting(sourceStart, candidateStart, own, facing, r.value))
  {
    if facing != [] {
      OverlapMiddleIsFirst(sourceStart, candidateStart, own, facing[1..]);
      var r := OverlapMiddle(sourceStart + own.0, sourceStart + own.1, sourceStart, candidateStart, facing);
      if Meet(sourceStart, candidateStart, own, facing[0]) {
        assert MeetsFirst(sourceStart, candidateStart, own, facing, 0, r.value);
      } else {
        assert forall j :: 0 < j < |facing| ==> facing[j] == facing[1..][j - 1];
        if r.Some? {
          var j :| MeetsFirst(sourceStart, candidateStart, own, facing[1..], j, r.value);
          assert facing[..j + 1] == [facing[0]] + facing[1..][..j];
          assert MeetsFirst(sourceStart, candidateStart, own, facing, j + 1, r.value);
        }
      }
    }
  }

  /**
   * The chosen offset is the middle, or the lower of two, of the first stretch over which a segment of the
   * source's edge faces one of the candidate's: first by the source's segments, then by the candidate's.
   */
  lemma {:induction false} SharedOffsetIsMiddle(sourceStart: int, candidateStart: int, own: seq<(U32, U32)>,
          facing: seq<(U32, U32)>)
    ensures var r := FirstSharedOffset(sourceStart, candidateStart, own, facing);
            && (r.None? <==> forall i :: 0 <= i < |own| ==> MeetsNone(sourceStart, candidateStart, own[i], facing))
            && (r.Some? ==>
                  exists i :: 0 <= i < |own| && FirstMeeting(sourceStart, candidateStart, own[i], facing, r.value)
                    && forall k :: 0 <= k < i ==> MeetsNone(sourceStart, candidateStart, own[k], facing))
  {
    hide MeetsNone, FirstMeeting, OverlapMiddle;
    if own != [] {
      OverlapMiddleIsFirst(sourceStart, candidateStart, own[0], facing);
      SharedOffsetIsMiddle(sourceStart, candidateStart, own[1..], facing);
      var r := FirstSharedOffset(sourceStart, candidateStart, own, facing);
      assert forall k :: 0 < k < |own| ==> own[k] == own[1..][k - 1];
      if r.Some? && !MeetsNone(sourceStart, candidateStart, own[0], facing) {
        assert FirstMeeting(sourceStart, candidateStart, own[0], facing, r.value);
      } else if r.Some? {
        var i :| 0 <= i < |own| - 1 && FirstMeeting(sourceStart, candidateStart, own[1..][i], facing, r.value)
          && forall k :: 0 <= k < i ==> MeetsNone(sourceStart, candidateStart, own[1..][k], facing);
        assert FirstMeeting(sourceStart, candidateStart, own[i + 1], facing, r.value);
      }
    }
  }

  /** The chosen offset crosses to that very candidate; none is chosen only when none crosses. */
  lemma SharedEdgeOffsetCrosses(screens: seq<ScreenPlacement>, source: ScreenPlacement, candidate: ScreenPlacement,
          edge: Edge)
    requires WellFormed(screens) && source in screens && candidate in screens && source.node != candidate.node
    ensures var r := SharedEdgeOffset(source, candidate, edge);
            && (r.Some? ==> CrossesAt(screens, source.node, candidate.node, edge, r.value))
            && (r.None? ==> forall offset: U32 :: !CrossesAt(screens, source.node, candidate.node, edge, offset))
  {
    DisjointPair(screens, source, candidate);
    var r := SharedEdgeOffset(source, candidate, edge);
    FirstSharedOffsetIsShared(source.bounds.Start(edge), candidate.bounds.Start(edge),
                              source.layout.EdgeSegments(edge), candidate.layout.EdgeSegments(edge.Opposite()));
    if r.Some? {
      TouchingOffsetsFace(source, candidate, edge, r.value,
        source.bounds.Start(edge) + r.value - candidate.bounds.Start(edge));
      CrossReachesFacingScreen(screens, source, candidate, edge, r.value);
    } else {
      forall offset: U32 ensures !CrossesAt(screens, source.node, candidate.node, edge, offset) {
        CrossReachesFacingScreen(screens, source, candidate, edge, offset);
        if Faces(source, candidate, edge, offset) {
          FacingSidesMeet(source, candidate, edge, offset);
          TouchingOffsetsFace(source, candidate, edge, offset,
            source.bounds.Start(edge) + offset - candidate.bounds.Start(edge));
        }
      }
    }
  }

  lemma {:induction false} FirstSharedCrosses(screens: seq<ScreenPlacement>, part: seq<ScreenPlacement>,
          source: ScreenPlacement, edge: Edge)
    requires WellFormed(screens) && source in screens && forall s :: s in part ==> s in screens
    ensures var r := FirstShared(part, source, edge);
            && (r.Some? ==> CrossesAt(screens, source.node, r.value.0, edge, r.value.1))
            && (r.None? ==> forall s, offset: U32 :: s in part && s.node != source.node ==>
                 !CrossesAt(screens, source.node, s.node, edge, offset))
  {
    if part != [] {
      FirstSharedCrosses(screens, part[1..], source, edge);
      if part[0].node != source.node {
        SharedEdgeOffsetCrosses(screens, source, part[0], edge);
      }
      assert forall s :: s in part ==> s == part[0] || s in part[1..];
    }
  }

  /** An activation target is entered by the crossing at the offset chosen for it. */
  lemma ActivationTargetCrosses(screens: seq<ScreenPlacement>, local: NodeId, edge: Edge)
    requires WellFormed(screens)
    ensures var r := ActivationTarget(screens, local, edge);
            && (r.Some? ==> CrossesAt(screens, local, r.value.0, edge, r.value.1))
            && (r.None? ==> forall offset: U32 :: Cross(screens, local, edge, offset).None?)
  {
    var found := FindScreen(screens, local);
    if found.Some? {
      var source := found.value;
      FirstSharedCrosses(screens, screens, source, edge);
      forall offset: U32 | ActivationTarget(screens, local, edge).None?
        ensures Cross(screens, local, edge, offset).None?
      {
        if Cross(screens, local, edge, offset).Some? {
          var target := CrossTargetFaces(screens, source, edge, offset);
          assert CrossesAt(screens, local, target.node, edge, offset);
        }
      }
    }
  }

  // No offset of the edge leads from the source to this screen.
  ghost predicate Unreached(screens: seq<ScreenPlacement>, source: NodeId, candidate: ScreenPlacement, edge: Edge) {
    candidate.node == source || forall offset: U32 :: !CrossesAt(screens, source, candidate.node, edge, offset)
  }

  lemma {:induction false} FirstSharedIsFirst(screens: seq<ScreenPlacement>, part: seq<ScreenPlacement>,
          source: ScreenPlacement, edge: Edge)
    requires WellFormed(screens) && source in screens && forall s :: s in part ==> s in screens
    requires FirstShared(part, source, edge).Some?
    ensures exists i :: 0 <= i < |part| && part[i].node == FirstShared(part, source, edge).value.0
                        && SharedEdgeOffset(source, part[i], edge) == Some(FirstShared(part, source, edge).value.1)
                        && forall k :: 0 <= k < i ==> Unreached(screens, source.node, part[k], edge)
  {
    hide WellFormed, SharedEdgeOffset, CrossesAt;
    if part[0].node != source.node {
      SharedEdgeOffsetCrosses(screens, source, part[0], edge);
    }
    if part[0].node == source.node || SharedEdgeOffset(source, part[0], edge).None? {
      FirstSharedIsFirst(screens, part[1..], source, edge);
      var r := FirstShared(part, source, edge).value;
      var i :| 0 <= i < |part| - 1 && part[1..][i].node == r.0
               && SharedEdgeOffset(source, part[1..][i], edge) == Some(r.1)
               && forall k :: 0 <= k < i ==> Unreached(screens, source.node, part[1..][k], edge);
      assert Unreached(screens, source.node, part[0], edge);
      assert forall k :: 0 < k < |part| ==> part[k] == part[1..][k - 1];
      assert part[i + 1].node == r.0;
    } else {
      assert part[0].node == FirstShared(part, source, edge).value.0;
    }
  }

  /** The activation target is the first screen, in the order of the arrangement, to which the edge leads at all. */
  lemma ActivationTargetIsFirst(screens: seq<ScreenPlacement>, local: NodeId, edge: Edge)
    requires WellFormed(screens) && ActivationTarget(screens, local, edge).Some?
    ensures exists i :: 0 <= i < |screens| && screens[i].node == ActivationTarget(screens, local, edge).value.0
                        && forall k :: 0 <= k < i ==> Unreached(screens, local, screens[k], edge)
  {
    hide WellFormed, Unreached, FirstShared;
    var source := FindScreen(screens, local).value;
    FirstSharedIsFirst(screens, screens, source, edge);
  }

  // ---- A reported position along the edge ----

  // The nearest integer, halves upward.
  function Rounded(x: real): int {
    (x + 0.5).Floor
  }

  function ClampUnit(position: real): real {
    if position < 0.0 then 0.0 else if position > 1.0 then 1.0 else position
  }

  // The offset for a position on an edge whose last offset is `maximum`.
  function OffsetAt(maximum: int, position: real): int {
    Rounded(ClampUnit(position) * (maximum as real))
  }

  // The activation target when the capture backend reports how far along the edge the pointer is.
  function ActivationTargetAt(screens: seq<ScreenPlacement>, local: NodeId, edge: Edge,
          position: real): Option<(NodeId, U32)>
  {
    match FindScreen(screens, local)
    case None => None
    case Some(source) =>
      match TryU32(OffsetAt(source.bounds.Length(edge) - 1, position))
      case None => None
      case Some(offset) =>
        match Cross(screens, local, edge, offset)
        case None => None
        case Some(transition) => Some((transition.target, offset))
  }

  lemma Within(unit: real, last: real, x: real)
    requires 0.0 <= unit <= 1.0 && last >= 0.0 && x == unit * last
    ensures 0.0 <= x <= last && (unit == 0.0 ==> x == 0.0) && (unit == 1.0 ==> x == last)
  {
  }

  lemma RoundedIsNearest(x: real, maximum: int)
    requires 0.0 <= x <= maximum as real
    ensures 0 <= Rounded(x) <= maximum && -0.5 <= Rounded(x) as real - x <= 0.5
  {
  }

  // The offset a reported position stands for on an edge whose last offset is `maximum`.
  predicate StandsFor(position: real, maximum: int, offset: int) {
    && 0 <= offset <= maximum
    && (0.0 <= position <= 1.0 ==> -0.5 <= offset as real - position * (maximum as real) <= 0.5)
    && (position <= 0.0 ==> offset == 0) && (position >= 1.0 ==> offset == maximum)
  }

  lemma PositionStandsFor(position: real, maximum: int)
    requires 0 <= maximum
    ensures StandsFor(position, maximum, OffsetAt(maximum, position))
  {
    var unit, last := ClampUnit(position), maximum as real;
    var x := unit * last;
    Within(unit, last, x);
    assert OffsetAt(maximum, position) == Rounded(x);
    RoundedIsNearest(x, maximum);
  }

  lemma StandsInside(position: real, maximum: int, offset: int)
    requires StandsFor(position, maximum, offset)
    ensures 0 <= offset <= maximum
  {
  }

  /**
   * A reported position activates the pixel nearest to it on the edge, from the first at 0 to the last at 1, and
   * the target is the screen that the crossing there reaches; there is none exactly when none is reached.
   */
  lemma ReportedPositionIsNearest(screens: seq<ScreenPlacement>, local: NodeId, edge: Edge, position: real)
    returns (offset: int)
    requires WellFormed(screens) && FindScreen(screens, local).Some?
    ensures var maximum := FindScreen(screens, local).value.bounds.Length(edge) - 1;
            var r := ActivationTargetAt(screens, local, edge, position);
            && StandsFor(position, maximum, offset) && offset <= 0xffff_ffff
            && (r.Some? <==> Cross(screens, local, edge, offset).Some?)
            && (r.Some? ==> r.value == (Cross(screens, local, edge, offset).value.target, offset))
  {
    hide WellFormed, Cross, FindScreen, OffsetAt, StandsFor;
    var source := FindScreen(screens, local).value;
    var maximum := source.bounds.Length(edge) - 1;
    assert 0 <= maximum < 0xffff_ffff;
    offset := OffsetAt(maximum, position);
    PositionStandsFor(position, maximum);
    StandsInside(position, maximum, offset);
  }

  lemma {:induction false} ArmedEdgesFilter(edges: seq<Edge>, screens: seq<ScreenPlacement>, local: NodeId,
          enabled: set<Edge>, edge: Edge)
    ensures edge in ArmedEdges(edges, screens, local, enabled) <==>
            edge in edges && edge in enabled && ActivationTarget(screens, local, edge).Some?
  {
    if edges != [] {
      ArmedEdgesFilter(edges[1..], screens, local, enabled, edge);
    }
  }

  /** Capture is armed on exactly the enabled edges through which some offset leads to another node. */
  lemma CaptureEdgesAreExact(screens: seq<ScreenPlacement>, local: NodeId, enabled: set<Edge>, edge: Edge)
    requires WellFormed(screens)
    ensures edge in CaptureEdges(screens, local, enabled) <==>
            edge in enabled && exists offset: U32 :: Cross(screens, local, edge, offset).Some?
  {
    ArmedEdgesFilter(ALL_EDGES, screens, local, enabled, edge);
    assert edge in ALL_EDGES by {
      match edge
      case Left => assert ALL_EDGES[0] == edge;
      case Right => assert ALL_EDGES[1] == edge;
      case Top => assert ALL_EDGES[2] == edge;
      case Bottom => assert ALL_EDGES[3] == edge;
    }
    ActivationTargetCrosses(screens, local, edge);
    var r := ActivationTarget(screens, local, edge);
    if r.Some? {
      assert Cross(screens, local, edge, r.value.1).Some?;
    }
  }

  // ---- Live resizing ----

  datatype ResizeError = NodeNotPresent | CoordinateRange | Rejected(reason: TopologyError)

  // On which side, if any, a neighbour touches the coordinates of a screen along one axis.
  datatype Touch = Apart | Before | After

  function TouchOf(current: Rect, neighbor: Rect, low: Edge): Touch {
    if current.Side(low) == neighbor.Side(low.Opposite()) then Before
    else if current.Side(low.Opposite()) == neighbor.Side(low) then After
    else Apart
  }

  // The last touching neighbour in list order decides.
  function LastTouch(screens: seq<ScreenPlacement>, node: NodeId, current: Rect, low: Edge): Touch {
    if screens == [] then Apart
    else
      var last := screens[|screens| - 1];
      var touch := TouchOf(current, last.bounds, low);
      if last.node != node && touch != Apart then touch
      else LastTouch(screens[..|screens| - 1], node, current, low)
  }

  // Halving that truncates toward zero.
  function Half(x: int): int {
    if x >= 0 then x / 2 else -((-x) / 2)
  }

  // The new start coordinate of a screen of length `old` at `start` that takes length `new'`.
  function Anchored(start: int, old': int, new': int, touch: Touch): int {
    match touch
    case Apart => start + Half(old' - new')
    case Before => start
    case After => start + old' - new'
  }

  function ResizedX(screens: seq<ScreenPlacement>, node: NodeId, current: Rect, size: Size): int {
    Anchored(current.LeftSide(), current.size.width, size.width, LastTouch(screens, node, current, Left))
  }

  function ResizedY(screens: seq<ScreenPlacement>, node: NodeId, current: Rect, size: Size): int {
    Anchored(current.TopSide(), current.size.height, size.height, LastTouch(screens, node, current, Top))
  }

  function Replaced(screens: seq<ScreenPlacement>, node: NodeId, origin: Point,
          layout: DesktopLayout): (r: seq<ScreenPlacement>)
    ensures |r| == |screens|
    ensures forall i :: 0 <= i < |screens| ==>
              r[i] == if screens[i].node == node then ScreenPlacement(node, Rect(origin, layout.size), layout)
                else screens[i]
  {
    seq(|screens|, i requires 0 <= i < |screens| =>
      if screens[i].node == node then ScreenPlacement(node, Rect(origin, layout.size), layout) else screens[i])
  }

  method ResizedOrigin(screens: seq<ScreenPlacement>, node: NodeId, current: Rect, size: Size) returns (x: int, y: int)
    ensures x == ResizedX(screens, node, current, size)
    ensures y == ResizedY(screens, node, current, size)
  {
    var oldWidth: int, oldHeight: int := current.size.width, current.size.height;
    var newWidth: int, newHeight: int := size.width, size.height;
    x := current.LeftSide() + Half(oldWidth - newWidth);
    y := current.TopSide() + Half(oldHeight - newHeight);
    for i := 0 to |screens|
      invariant x == ResizedX(screens[..i], node, current, size)
      invariant y == ResizedY(screens[..i], node, current, size)
    {
      var neighbor := screens[i];
      assert screens[..i + 1][..i] == screens[..i];
      if neighbor.node != node {
        if current.LeftSide() == neighbor.bounds.RightSide() {
          x := current.LeftSide();
        } else if current.RightSide() == neighbor.bounds.LeftSide() {
          x := neighbor.bounds.LeftSide() - newWidth;
        }
        if current.TopSide() == neighbor.bounds.BottomSide() {
          y := current.TopSide();
        } else if current.BottomSide() == neighbor.bounds.TopSide() {
          y := neighbor.bounds.TopSide() - newHeight;
        }
      }
    }
    assert screens[..|screens|] == screens;
  }

  /** Resizing moves only the named screen, to the anchored origin, and yields a valid topology or an error. */
  method ResizeTopologyScreen(screens: seq<ScreenPlacement>, node: NodeId, layout: DesktopLayout)
    returns (r: Result<seq<ScreenPlacement>, ResizeError>)
    requires ValidTopology(screens)
    ensures FindScreen(screens, node).None? ==> r == Err(NodeNotPresent)
    ensures FindScreen(screens, node).Some? ==>
      var current := FindScreen(screens, node).value;
      var x, y :=
        ResizedX(screens, node, current.bounds, layout.size), ResizedY(screens, node, current.bounds, layout.size);
      if current.layout == layout then r == Ok(screens)
      else if TryI32(x).None? || TryI32(y).None? then r == Err(CoordinateRange)
      else
        var moved := Replaced(screens, node, Point(x, y), layout);
        && (r.Ok? <==> ValidTopology(moved))
        && (r.Ok? ==> r.value == moved)
        && (r.Err? ==> r.error.Rejected? && Refuses(moved, r.error.reason))
  {
    var found := FindScreen(screens, node);
    if found.None? {
      return Err(NodeNotPresent);
    }
    var current := found.value;
    if current.layout == layout {
      return Ok(screens);
    }
    var x, y := ResizedOrigin(screens, node, current.bounds, layout.size);
    if TryI32(x).None? || TryI32(y).None? {
      return Err(CoordinateRange);
    }
    var made := NewTopology(Replaced(screens, node, Point(x, y), layout));
    match made {
      case Ok(resized) => return Ok(resized);
      case Err(reason) => return Err(Rejected(reason));
    }
  }

  /**
   * When neighbours touch on both sides the last of them in the arrangement decides which side stays.
   */
  lemma {:induction false} LastTouchDecides(screens: seq<ScreenPlacement>, node: NodeId, current: Rect, low: Edge)
    ensures var touch := LastTouch(screens, node, current, low);
            if touch == Apart then
              forall s :: s in screens && s.node != node ==> TouchOf(current, s.bounds, low) == Apart
            else
              exists i :: 0 <= i < |screens| && screens[i].node != node &&
                TouchOf(current, screens[i].bounds, low) == touch
                && forall k :: i < k < |screens| && screens[k].node != node ==>
                     TouchOf(current, screens[k].bounds, low) == Apart
  {
    hide TouchOf;
    if screens != [] {
      var front, last := screens[..|screens| - 1], screens[|screens| - 1];
      LastTouchDecides(front, node, current, low);
      assert screens == front + [last];
      var touch := LastTouch(screens, node, current, low);
      if last.node != node && TouchOf(current, last.bounds, low) != Apart {
        assert screens[|front|].node != node && TouchOf(current, screens[|front|].bounds, low) == touch;
      } else if touch != Apart {
        var i :| 0 <= i < |front| && front[i].node != node && TouchOf(current, front[i].bounds, low) == touch
          && forall k :: i < k < |front| && front[k].node != node ==> TouchOf(current, front[k].bounds, low) == Apart;
        assert screens[i].node != node && TouchOf(current, screens[i].bounds, low) == touch;
      }
    }
  }

  lemma {:induction false} LastTouchIsSome(screens: seq<ScreenPlacement>, node: NodeId, current: Rect, low: Edge,
          touch: Touch)
    requires touch != Apart
    requires forall s :: s in screens && s.node != node ==> TouchOf(current, s.bounds, low) in {Apart, touch}
    ensures LastTouch(screens, node, current, low) ==
            if exists s :: s in screens && s.node != node && TouchOf(current, s.bounds, low) == touch then touch
              else Apart
  {
    if screens != [] {
      var front := screens[..|screens| - 1];
      var last := screens[|screens| - 1];
      LastTouchIsSome(front, node, current, low, touch);
      assert screens == front + [last];
    }
  }

  /**
   * Along one axis: when every touching neighbour is on one side, that side stays where it was; when
   * none touches, the centre stays, or moves by half a pixel, up when the screen grows and down when it shrinks.
   */
  lemma ResizeKeepsTouchedSide(screens: seq<ScreenPlacement>, node: NodeId, current: Rect, low: Edge, new': int,
          touch: Touch)
    requires low == Left || low == Top
    requires forall s :: s in screens && s.node != node ==> TouchOf(current, s.bounds, low) in {Apart, touch}
    ensures var length := current.Side(low.Opposite()) - current.Side(low);
            var start := Anchored(current.Side(low), length, new', LastTouch(screens, node, current, low));
            var touched := exists s :: s in screens && s.node != node && TouchOf(current, s.bounds, low) == touch;
            && (touch == Before && touched ==> start == current.Side(low))
            && (touch == After && touched ==> start + new' == current.Side(low.Opposite()))
            && (touch == Apart || !touched ==>
                 (2 * start + new') - (current.Side(low) + current.Side(low.Opposite())) ==
                   if (new' - length) % 2 == 0 then 0 else if new' > length then 1 else -1)
  {
    if touch == Apart {
      LastTouchIsSome(screens, node, current, low, Before);
    } else {
      LastTouchIsSome(screens, node, current, low, touch);
    }
  }

  /** In a two-screen topology the shared edge stays flush through a resize. */
  lemma TwoScreensStayFlush(screens: seq<ScreenPlacement>, i: nat, edge: Edge, layout: DesktopLayout)
    requires WellFormed(screens) && |screens| == 2 && i < 2
    requires SharesEdge(screens[i], screens[1 - i], edge)
    ensures var current := screens[i];
            var x := ResizedX(screens, current.node, current.bounds, layout.size);
            var y := ResizedY(screens, current.node, current.bounds, layout.size);
            TryI32(x).Some? && TryI32(y).Some? ==>
              Rect(Point(x, y), layout.size).Side(edge) == screens[1 - i].bounds.Side(edge.Opposite())
  {
    var low := if edge.Vertical() then Left else Top;
    var touch := if edge == low then Before else After;
    var current, other := screens[i], screens[1 - i];
    assert forall s :: s in screens && s.node != current.node ==> s == other;
    assert other in screens && TouchOf(current.bounds, other.bounds, low) == touch;
    LastTouchIsSome(screens, current.node, current.bounds, low, touch);
  }
}
