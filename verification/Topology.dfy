/** Placement of node desktops in one shared pixel space, and the crossing of their edges. */
module Topology {
  import opened Base
  import opened Geometry
  import opened Display

  const COORDINATE_LIMIT: int := I32_MAX + 1

  datatype ScreenPlacement = ScreenPlacement(node: NodeId, bounds: Rect, layout: DesktopLayout) {
    predicate FitsCoordinates() {
      && bounds.size.width <= COORDINATE_LIMIT
      && bounds.size.height <= COORDINATE_LIMIT
      && bounds.RightSide() <= COORDINATE_LIMIT
      && bounds.BottomSide() <= COORDINATE_LIMIT
    }

    ghost predicate Valid() {
      layout.Valid() && layout.size == bounds.size && FitsCoordinates()
    }

    // Whether a pixel of the shared space lies on one of this node's monitors.
    ghost predicate Shows(x: int, y: int) {
      exists m :: m in layout.monitors && m.bounds.ContainsCoordinates(x - bounds.LeftSide(), y - bounds.TopSide())
    }
  }

  datatype Transition = Transition(target: NodeId, localPosition: Point)

  ghost predicate UniqueNodes(screens: seq<ScreenPlacement>) {
    forall i, j :: 0 <= i < j < |screens| ==> screens[i].node != screens[j].node
  }

  ghost predicate Disjoint(screens: seq<ScreenPlacement>) {
    forall i, j :: 0 <= i < j < |screens| ==> !screens[i].bounds.Overlaps(screens[j].bounds)
  }

  // Everything construction checks except connectivity.
  ghost predicate WellFormed(screens: seq<ScreenPlacement>) {
    && screens != []
    && UniqueNodes(screens)
    && (forall i :: 0 <= i < |screens| ==> screens[i].Valid())
    && Disjoint(screens)
  }

  function FindScreen(screens: seq<ScreenPlacement>, node: NodeId): (r: Option<ScreenPlacement>)
    ensures r.Some? ==> r.value in screens && r.value.node == node
    ensures r.None? <==> forall i :: 0 <= i < |screens| ==> screens[i].node != node
  {
    if screens == [] then None
    else if screens[0].node == node then Some(screens[0])
    else FindScreen(screens[1..], node)
  }

  // The entry point just inside `candidate`, when it faces `source` across `edge` at coordinate `axis`.
  function TryEnter(candidate: ScreenPlacement, source: ScreenPlacement, edge: Edge, axis: int): Option<Point> {
    if candidate.node == source.node then None
    else if candidate.bounds.Side(edge.Opposite()) != source.bounds.Side(edge) then None
    else if !ContainsAxis(candidate.bounds.Start(edge), candidate.bounds.End(edge), axis) then None
    else match TryU32(axis - candidate.bounds.Start(edge))
      case None => None
      case Some(along) =>
        if !candidate.layout.ContainsEdgeOffset(edge.Opposite(), along) then None
        else
          var (x, y) := EdgePixel(candidate.bounds.size, edge.Opposite(), along);
          match (TryI32(x), TryI32(y))
          case (Some(px), Some(py)) => Some(Point(px, py))
          case _ => None
  }

  function FirstEntry(screens: seq<ScreenPlacement>, source: ScreenPlacement, edge: Edge, axis: int): Option<Transition>
  {
    if screens == [] then None
    else match TryEnter(screens[0], source, edge, axis)
      case Some(position) => Some(Transition(screens[0].node, position))
      case None => FirstEntry(screens[1..], source, edge, axis)
  }

  function Cross(screens: seq<ScreenPlacement>, current: NodeId, edge: Edge, offset: U32): Option<Transition> {
    match FindScreen(screens, current)
    case None => None
    case Some(source) =>
      if !source.layout.ContainsEdgeOffset(edge, offset) then None
      else if offset >= source.bounds.Length(edge) then None
      else FirstEntry(screens, source, edge, source.bounds.Start(edge) + offset)
  }

  // ---- Finding screens ----

  lemma {:induction false} FindScreenAt(screens: seq<ScreenPlacement>, i: nat)
    requires UniqueNodes(screens) && i < |screens|
    ensures FindScreen(screens, screens[i].node) == Some(screens[i])
  {
    if i != 0 {
      FindScreenAt(screens[1..], i - 1);
    }
  }

  lemma FindScreenIn(screens: seq<ScreenPlacement>, screen: ScreenPlacement)
    requires UniqueNodes(screens) && screen in screens
    ensures FindScreen(screens, screen.node) == Some(screen)
  {
    var i :| 0 <= i < |screens| && screens[i] == screen;
    FindScreenAt(screens, i);
  }

  // ---- One candidate ----

  // The pixel of the shared space at an offset of a screen's edge, and the pixel directly across it.
  function ExitPixel(source: ScreenPlacement, edge: Edge, offset: int): (int, int) {
    var (x, y) := EdgePixel(source.bounds.size, edge, offset);
    (source.bounds.LeftSide() + x, source.bounds.TopSide() + y)
  }

  function AcrossPixel(source: ScreenPlacement, edge: Edge, offset: int): (int, int) {
    var (x, y) := ExitPixel(source, edge, offset);
    match edge
    case Left => (x - 1, y)
    case Right => (x + 1, y)
    case Top => (x, y - 1)
    case Bottom => (x, y + 1)
  }

  // Crossing, stated on pixels alone: a monitor pixel of `source` on `edge`, and directly across it a
  // monitor pixel of another node's screen.
  ghost predicate Faces(source: ScreenPlacement, candidate: ScreenPlacement, edge: Edge, offset: U32) {
    var exit := ExitPixel(source, edge, offset);
    var across := AcrossPixel(source, edge, offset);
    source.node != candidate.node && source.Shows(exit.0, exit.1) && candidate.Shows(across.0, across.1)
  }

  lemma ExposedIsShown(source: ScreenPlacement, edge: Edge, offset: U32)
    requires source.Valid()
    ensures source.layout.ContainsEdgeOffset(edge, offset) <==>
            source.Shows(ExitPixel(source, edge, offset).0, ExitPixel(source, edge, offset).1)
    ensures source.layout.ContainsEdgeOffset(edge, offset) ==> offset < source.bounds.Length(edge)
  {
    ExposedOffsetIsMonitorPixel(source.layout, edge, offset);
    var exit := ExitPixel(source, edge, offset);
    var p := EdgePixel(source.layout.size, edge, offset);
    assert exit.0 - source.bounds.LeftSide() == p.0 && exit.1 - source.bounds.TopSide() == p.1;
  }

  lemma ShownIsContained(screen: ScreenPlacement, x: int, y: int)
    requires screen.Valid() && screen.Shows(x, y)
    ensures screen.bounds.ContainsCoordinates(x, y)
  {
    var m :| m in screen.layout.monitors && m.bounds.ContainsCoordinates(x - screen.bounds.LeftSide(),
      y - screen.bounds.TopSide());
    assert screen.layout.Inside(m);
  }

  lemma NoCommonPixel(a: Rect, b: Rect, x: int, y: int)
    requires !a.Overlaps(b) && a.ContainsCoordinates(x, y)
    ensures !b.ContainsCoordinates(x, y)
  {
  }

  /** Screens that face each other share the coordinate of the sides between them. */
  lemma FacingSidesMeet(source: ScreenPlacement, candidate: ScreenPlacement, edge: Edge, offset: U32)
    requires source.Valid() && candidate.Valid() && !source.bounds.Overlaps(candidate.bounds)
    requires Faces(source, candidate, edge, offset)
    ensures candidate.bounds.Side(edge.Opposite()) == source.bounds.Side(edge)
    ensures ContainsAxis(candidate.bounds.Start(edge), candidate.bounds.End(edge), source.bounds.Start(edge) + offset)
  {
    var exit := ExitPixel(source, edge, offset);
    var across := AcrossPixel(source, edge, offset);
    ShownIsContained(source, exit.0, exit.1);
    ShownIsContained(candidate, across.0, across.1);
    NoCommonPixel(source.bounds, candidate.bounds, exit.0, exit.1);
  }

  lemma EnterMeansFaces(candidate: ScreenPlacement, source: ScreenPlacement, edge: Edge, offset: U32)
    requires candidate.Valid() && source.Valid() && source.layout.ContainsEdgeOffset(edge, offset)
    requires TryEnter(candidate, source, edge, source.bounds.Start(edge) + offset).Some?
    ensures Faces(source, candidate, edge, offset)
    ensures var entry := TryEnter(candidate, source, edge, source.bounds.Start(edge) + offset).value;
            && candidate.bounds.LeftSide() + entry.x == AcrossPixel(source, edge, offset).0
            && candidate.bounds.TopSide() + entry.y == AcrossPixel(source, edge, offset).1
  {
    ExposedIsShown(source, edge, offset);
    var along := source.bounds.Start(edge) + offset - candidate.bounds.Start(edge);
    ExposedIsShown(candidate, edge.Opposite(), along);
    assert ExitPixel(candidate, edge.Opposite(), along) == AcrossPixel(source, edge, offset);
  }

  lemma FacesMeansEnter(candidate: ScreenPlacement, source: ScreenPlacement, edge: Edge, offset: U32)
    requires candidate.Valid() && source.Valid() && !source.bounds.Overlaps(candidate.bounds)
    requires Faces(source, candidate, edge, offset)
    ensures TryEnter(candidate, source, edge, source.bounds.Start(edge) + offset).Some?
  {
    FacingSidesMeet(source, candidate, edge, offset);
    var along := source.bounds.Start(edge) + offset - candidate.bounds.Start(edge);
    ExposedIsShown(candidate, edge.Opposite(), along);
    assert ExitPixel(candidate, edge.Opposite(), along) == AcrossPixel(source, edge, offset);
  }

  /**
   * The candidate test, with all its integer conversions, accepts exactly the screens that face the
   * exit pixel; the entry point is the pixel across, in the candidate's own coordinates.
   */
  lemma TryEnterIsFaces(candidate: ScreenPlacement, source: ScreenPlacement, edge: Edge, offset: U32)
    requires candidate.Valid() && source.Valid() && source.layout.ContainsEdgeOffset(edge, offset)
    requires candidate.node != source.node ==> !source.bounds.Overlaps(candidate.bounds)
    ensures TryEnter(candidate, source, edge, source.bounds.Start(edge) + offset).Some? <==>
            Faces(source, candidate, edge, offset)
    ensures var entry := TryEnter(candidate, source, edge, source.bounds.Start(edge) + offset);
            entry.Some? ==>
              && candidate.bounds.LeftSide() + entry.value.x == AcrossPixel(source, edge, offset).0
              && candidate.bounds.TopSide() + entry.value.y == AcrossPixel(source, edge, offset).1
  {
    if TryEnter(candidate, source, edge, source.bounds.Start(edge) + offset).Some? {
      hide TryEnter, Faces, AcrossPixel;
      EnterMeansFaces(candidate, source, edge, offset);
    } else if Faces(source, candidate, edge, offset) {
      FacesMeansEnter(candidate, source, edge, offset);
    }
  }

  // ---- The search over screens ----

  lemma {:induction false} FirstEntryFinds(screens: seq<ScreenPlacement>, source: ScreenPlacement, edge: Edge,
          axis: int)
    ensures var r := FirstEntry(screens, source, edge, axis);
            && (r.None? <==> forall i :: 0 <= i < |screens| ==> TryEnter(screens[i], source, edge, axis).None?)
            && (r.Some? ==> exists i :: 0 <= i < |screens| && screens[i].node == r.value.target
                                    && TryEnter(screens[i], source, edge, axis) == Some(r.value.localPosition))
  {
    if screens != [] && TryEnter(screens[0], source, edge, axis).None? {
      FirstEntryFinds(screens[1..], source, edge, axis);
      var r := FirstEntry(screens[1..], source, edge, axis);
      if r.Some? {
        var i :| 0 <= i < |screens[1..]| && screens[1..][i].node == r.value.target
                 && TryEnter(screens[1..][i], source, edge, axis) == Some(r.value.localPosition);
        assert screens[i + 1] == screens[1..][i];
      } else {
        forall i | 0 <= i < |screens| ensures TryEnter(screens[i], source, edge, axis).None? {
          if i != 0 { assert screens[i] == screens[1..][i - 1]; }
        }
      }
    }
  }

  /** At most one screen faces a given exit pixel. */
  lemma FacingScreenIsUnique(screens: seq<ScreenPlacement>, source: ScreenPlacement, edge: Edge, offset: U32, i: nat,
          j: nat)
    requires WellFormed(screens) && i < |screens| && j < |screens|
    requires Faces(source, screens[i], edge, offset) && Faces(source, screens[j], edge, offset)
    ensures i == j
  {
    var across := AcrossPixel(source, edge, offset);
    ShownIsContained(screens[i], across.0, across.1);
    ShownIsContained(screens[j], across.0, across.1);
    OverlapIsCommonPixel(screens[i].bounds, screens[j].bounds);
    OverlapIsCommonPixel(screens[j].bounds, screens[i].bounds);
  }

  lemma DisjointPair(screens: seq<ScreenPlacement>, a: ScreenPlacement, b: ScreenPlacement)
    requires WellFormed(screens) && a in screens && b in screens && a.node != b.node
    ensures !a.bounds.Overlaps(b.bounds)
  {
    var i :| 0 <= i < |screens| && screens[i] == a;
    var j :| 0 <= j < |screens| && screens[j] == b;
    OverlapIsCommonPixel(a.bounds, b.bounds);
    OverlapIsCommonPixel(b.bounds, a.bounds);
  }

  // `position` is the pixel across the exit pixel, in the target's own coordinates.
  predicate EntersAt(source: ScreenPlacement, target: ScreenPlacement, edge: Edge, offset: int, position: Point) {
    && target.bounds.LeftSide() + position.x == AcrossPixel(source, edge, offset).0
    && target.bounds.TopSide() + position.y == AcrossPixel(source, edge, offset).1
  }

  // The candidate test at one position of the list.
  lemma SearchTestsFacing(screens: seq<ScreenPlacement>, source: ScreenPlacement, edge: Edge, offset: U32, i: nat)
    requires WellFormed(screens) && source in screens && i < |screens|
    requires source.layout.ContainsEdgeOffset(edge, offset)
    ensures var entry := TryEnter(screens[i], source, edge, source.bounds.Start(edge) + offset);
            && (entry.Some? <==> Faces(source, screens[i], edge, offset))
            && (entry.Some? ==> EntersAt(source, screens[i], edge, offset, entry.value))
  {
    if screens[i].node != source.node { DisjointPair(screens, source, screens[i]); }
    TryEnterIsFaces(screens[i], source, edge, offset);
  }

  lemma SameNodeIsSame(screens: seq<ScreenPlacement>, i: nat, j: nat)
    requires WellFormed(screens) && i < |screens| && j < |screens| && screens[i].node == screens[j].node
    ensures i == j
  {
  }

  lemma SearchReachesFacing(screens: seq<ScreenPlacement>, source: ScreenPlacement, edge: Edge, offset: U32, j: nat)
    requires WellFormed(screens) && source in screens && j < |screens|
    requires source.layout.ContainsEdgeOffset(edge, offset)
    ensures var r := FirstEntry(screens, source, edge, source.bounds.Start(edge) + offset);
            && ((r.Some? && r.value.target == screens[j].node) <==> Faces(source, screens[j], edge, offset))
            && (Faces(source, screens[j], edge, offset) ==>
                 EntersAt(source, screens[j], edge, offset, r.value.localPosition))
  {
    hide TryEnter, FirstEntry, Faces, EntersAt, WellFormed;
    var axis := source.bounds.Start(edge) + offset;
    FirstEntryFinds(screens, source, edge, axis);
    SearchTestsFacing(screens, source, edge, offset, j);
    var r := FirstEntry(screens, source, edge, axis);
    if r.Some? {
      var i :| 0 <= i < |screens| && screens[i].node == r.value.target
               && TryEnter(screens[i], source, edge, axis) == Some(r.value.localPosition);
      SearchTestsFacing(screens, source, edge, offset, i);
      if screens[i].node == screens[j].node {
        SameNodeIsSame(screens, i, j);
      }
      if Faces(source, screens[j], edge, offset) {
        FacingScreenIsUnique(screens, source, edge, offset, i, j);
      }
    }
  }

  lemma CrossIsSearch(screens: seq<ScreenPlacement>, source: ScreenPlacement, edge: Edge, offset: U32)
    requires UniqueNodes(screens) && source in screens && source.Valid()
    ensures Cross(screens, source.node, edge, offset)
            == if source.layout.ContainsEdgeOffset(edge, offset)
               then FirstEntry(screens, source, edge, source.bounds.Start(edge) + offset) else None
  {
    FindScreenIn(screens, source);
    ExposedIsShown(source, edge, offset);
  }

  /**
   * Crossing an edge reaches exactly the screen whose monitor pixel lies directly across the exit
   * pixel, and enters at that pixel. No integer conversion ever turns a crossing away.
   */
  lemma CrossReachesFacingScreen(screens: seq<ScreenPlacement>, source: ScreenPlacement, target: ScreenPlacement,
          edge: Edge, offset: U32)
    requires WellFormed(screens) && source in screens && target in screens
    ensures var r := Cross(screens, source.node, edge, offset);
            && ((r.Some? && r.value.target == target.node) <==> Faces(source, target, edge, offset))
            && (Faces(source, target, edge, offset) ==> EntersAt(source, target, edge, offset, r.value.localPosition))
  {
    CrossIsSearch(screens, source, edge, offset);
    if source.layout.ContainsEdgeOffset(edge, offset) {
      var j :| 0 <= j < |screens| && screens[j] == target;
      SearchReachesFacing(screens, source, edge, offset, j);
    } else {
      ExposedIsShown(source, edge, offset);
    }
  }

  lemma CrossTargetFaces(screens: seq<ScreenPlacement>, source: ScreenPlacement, edge: Edge, offset: U32)
    returns (target: ScreenPlacement)
    requires WellFormed(screens) && source in screens && Cross(screens, source.node, edge, offset).Some?
    ensures target in screens && target.node == Cross(screens, source.node, edge, offset).value.target
    ensures Faces(source, target, edge, offset)
  {
    CrossIsSearch(screens, source, edge, offset);
    hide TryEnter, WellFormed, Faces, FirstEntry, EntersAt, FindScreen;
    FirstEntryFinds(screens, source, edge, source.bounds.Start(edge) + offset);
    var r := Cross(screens, source.node, edge, offset);
    var i :| 0 <= i < |screens| && screens[i].node == r.value.target;
    target := screens[i];
    CrossReachesFacingScreen(screens, source, target, edge, offset);
  }

  /** A crossing exists exactly when some screen faces the exit pixel. */
  lemma CrossIffFaced(screens: seq<ScreenPlacement>, source: ScreenPlacement, edge: Edge, offset: U32)
    requires WellFormed(screens) && source in screens
    ensures Cross(screens, source.node, edge, offset).Some? <==>
            exists target :: target in screens && Faces(source, target, edge, offset)
  {
    if Cross(screens, source.node, edge, offset).Some? {
      var target := CrossTargetFaces(screens, source, edge, offset);
    } else {
      forall target | target in screens ensures !Faces(source, target, edge, offset) {
        CrossReachesFacingScreen(screens, source, target, edge, offset);
      }
    }
  }

  // The offset along `edge` of a point local to a screen.
  function AlongEdge(edge: Edge, position: Point): int {
    if edge.Vertical() then position.y else position.x
  }

  lemma FacesBack(screens: seq<ScreenPlacement>, source: ScreenPlacement, target: ScreenPlacement, edge: Edge,
          offset: U32, position: Point)
    requires WellFormed(screens) && source in screens && target in screens
    requires Faces(source, target, edge, offset) && EntersAt(source, target, edge, offset, position)
    ensures 0 <= AlongEdge(edge, position)
    ensures ExitPixel(target, edge.Opposite(), AlongEdge(edge, position)) == AcrossPixel(source, edge, offset)
    ensures AcrossPixel(target, edge.Opposite(), AlongEdge(edge, position)) == ExitPixel(source, edge, offset)
    ensures Faces(target, source, edge.Opposite(), AlongEdge(edge, position))
  {
    DisjointPair(screens, source, target);
    FacingSidesMeet(source, target, edge, offset);
  }

  // Where a crossing back through the opposite edge must arrive.
  predicate ReturnsTo(back: Option<Transition>, source: ScreenPlacement, edge: Edge, offset: U32) {
    && back.Some?
    && back.value.target == source.node
    && (back.value.localPosition.x, back.value.localPosition.y) == EdgePixel(source.bounds.size, edge, offset)
  }

  lemma FacedCrossBack(screens: seq<ScreenPlacement>, source: ScreenPlacement, target: ScreenPlacement, edge: Edge,
          offset: U32, position: Point)
    requires WellFormed(screens) && source in screens && target in screens
    requires Faces(source, target, edge, offset) && EntersAt(source, target, edge, offset, position)
    ensures 0 <= AlongEdge(edge, position)
    ensures ReturnsTo(Cross(screens, target.node, edge.Opposite(), AlongEdge(edge, position)), source, edge, offset)
  {
    FacesBack(screens, source, target, edge, offset, position);
    CrossReachesFacingScreen(screens, target, source, edge.Opposite(), AlongEdge(edge, position));
  }

  /**
   * Crossing back: from the entry point, the opposite edge leads to the source screen, entered at the
   * pixel that was left.
   */
  lemma CrossBackReturns(screens: seq<ScreenPlacement>, source: ScreenPlacement, edge: Edge, offset: U32)
    requires WellFormed(screens) && source in screens && Cross(screens, source.node, edge, offset).Some?
    ensures var there := Cross(screens, source.node, edge, offset).value;
            && 0 <= AlongEdge(edge, there.localPosition)
            && ReturnsTo(Cross(screens, there.target, edge.Opposite(), AlongEdge(edge, there.localPosition)), source,
                 edge, offset)
  {
    var there := Cross(screens, source.node, edge, offset).value;
    var target := CrossTargetFaces(screens, source, edge, offset);
    CrossReachesFacingScreen(screens, source, target, edge, offset);
    FacedCrossBack(screens, source, target, edge, offset, there.localPosition);
  }

  lemma SameCrossing(a: seq<ScreenPlacement>, b: seq<ScreenPlacement>, source: ScreenPlacement,
          target: ScreenPlacement, edge: Edge, offset: U32)
    requires WellFormed(a) && WellFormed(b) && source in a && source in b && target in a && target in b
    requires Faces(source, target, edge, offset)
    ensures Cross(a, source.node, edge, offset) == Cross(b, source.node, edge, offset)
  {
    CrossReachesFacingScreen(a, source, target, edge, offset);
    CrossReachesFacingScreen(b, source, target, edge, offset);
  }

  /** The result does not depend on the order in which the screens are listed. */
  lemma CrossIgnoresOrder(a: seq<ScreenPlacement>, b: seq<ScreenPlacement>, node: NodeId, edge: Edge, offset: U32)
    requires WellFormed(a) && WellFormed(b) && forall s :: s in a <==> s in b
    ensures Cross(a, node, edge, offset) == Cross(b, node, edge, offset)
  {
    var found := FindScreen(a, node);
    if found.None? {
    } else if s, t :| s in a && s.node == node && t in a && Faces(s, t, edge, offset) {
      SameCrossing(a, b, s, t, edge, offset);
    } else {
      CrossIffFaced(a, found.value, edge, offset);
      CrossIffFaced(b, found.value, edge, offset);
    }
  }
}
