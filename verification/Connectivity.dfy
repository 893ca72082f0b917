/** Which screens share an exposed edge, the search for connected screens, and construction. */
module Connectivity {
  import opened Base
  import opened Geometry
  import opened Display
  import opened Topology

  predicate SegmentsOverlap(first: ScreenPlacement, firstEdge: Edge, second: ScreenPlacement, secondEdge: Edge,
                            firstOrigin: int, secondOrigin: int) {
    exists f, s ::
      && f in first.layout.EdgeSegments(firstEdge)
      && s in second.layout.EdgeSegments(secondEdge)
      && firstOrigin + f.0 < secondOrigin + s.1
      && firstOrigin + f.1 > secondOrigin + s.0
  }

  predicate SharesEdge(first: ScreenPlacement, second: ScreenPlacement, edge: Edge) {
    && first.bounds.Side(edge) == second.bounds.Side(edge.Opposite())
    && SegmentsOverlap(first, edge, second, edge.Opposite(), first.bounds.Start(edge), second.bounds.Start(edge))
  }

  predicate SharesExposedEdge(first: ScreenPlacement, second: ScreenPlacement) {
    || SharesEdge(first, second, Right)
    || SharesEdge(first, second, Left)
    || SharesEdge(first, second, Bottom)
    || SharesEdge(first, second, Top)
  }

  lemma SharesEdgeSymmetric(first: ScreenPlacement, second: ScreenPlacement, edge: Edge)
    requires SharesEdge(first, second, edge)
    ensures SharesEdge(second, first, edge.Opposite())
  {
    var f, s :| f in first.layout.EdgeSegments(edge) && s in second.layout.EdgeSegments(edge.Opposite())
      && first.bounds.Start(edge) + f.0 < second.bounds.Start(edge) + s.1
      && first.bounds.Start(edge) + f.1 > second.bounds.Start(edge) + s.0;
    assert edge.Opposite().Opposite() == edge;
  }

  lemma SharesExposedEdgeSymmetric(first: ScreenPlacement, second: ScreenPlacement)
    ensures SharesExposedEdge(first, second) <==> SharesExposedEdge(second, first)
  {
    forall edge: Edge | SharesEdge(first, second, edge) ensures SharesExposedEdge(second, first) {
      SharesEdgeSymmetric(first, second, edge);
    }
    forall edge: Edge | SharesEdge(second, first, edge) ensures SharesExposedEdge(first, second) {
      SharesEdgeSymmetric(second, first, edge);
    }
  }

  // Exposed offsets at the same coordinate of touching sides face each other, and the other way round.
  lemma TouchingOffsetsFace(first: ScreenPlacement, second: ScreenPlacement, edge: Edge, offset: U32, along: U32)
    requires first.Valid() && second.Valid() && first.node != second.node
    requires first.bounds.Side(edge) == second.bounds.Side(edge.Opposite())
    requires first.bounds.Start(edge) + offset == second.bounds.Start(edge) + along
    ensures Faces(first, second, edge, offset) <==>
            Covered(first.layout.EdgeSegments(edge), offset) &&
              Covered(second.layout.EdgeSegments(edge.Opposite()), along)
  {
    EdgeSegmentsAreEdgeOffsets(first.layout, edge, offset);
    EdgeSegmentsAreEdgeOffsets(second.layout, edge.Opposite(), along);
    ExposedIsShown(first, edge, offset);
    ExposedIsShown(second, edge.Opposite(), along);
    assert ExitPixel(second, edge.Opposite(), along) == AcrossPixel(first, edge, offset);
  }

  lemma SegmentsAreNonEmpty(layout: DesktopLayout, edge: Edge)
    requires layout.Valid()
    ensures forall s :: s in layout.EdgeSegments(edge) ==> s.0 < s.1
  {
    EdgeSegmentsAreEdgeOffsets(layout, edge, 0);
  }

  lemma OverlapGivesFacing(first: ScreenPlacement, second: ScreenPlacement, edge: Edge) returns (offset: U32)
    requires first.Valid() && second.Valid() && first.node != second.node && SharesEdge(first, second, edge)
    ensures Faces(first, second, edge, offset)
  {
    var f, s :| f in first.layout.EdgeSegments(edge) && s in second.layout.EdgeSegments(edge.Opposite())
      && first.bounds.Start(edge) + f.0 < second.bounds.Start(edge) + s.1
      && first.bounds.Start(edge) + f.1 > second.bounds.Start(edge) + s.0;
    SegmentsAreNonEmpty(first.layout, edge);
    SegmentsAreNonEmpty(second.layout, edge.Opposite());
    var axis := Max(first.bounds.Start(edge) + f.0, second.bounds.Start(edge) + s.0);
    offset := axis - first.bounds.Start(edge);
    var along := axis - second.bounds.Start(edge);
    assert ContainsAxis(f.0, f.1, offset) && ContainsAxis(s.0, s.1, along);
    TouchingOffsetsFace(first, second, edge, offset, along);
  }

  lemma FacingGivesOverlap(first: ScreenPlacement, second: ScreenPlacement, edge: Edge, offset: U32)
    requires first.Valid() && second.Valid() && !first.bounds.Overlaps(second.bounds)
    requires Faces(first, second, edge, offset)
    ensures SharesEdge(first, second, edge)
  {
    FacingSidesMeet(first, second, edge, offset);
    var along := first.bounds.Start(edge) + offset - second.bounds.Start(edge);
    TouchingOffsetsFace(first, second, edge, offset, along);
    var f :| f in first.layout.EdgeSegments(edge) && ContainsAxis(f.0, f.1, offset);
    var s :| s in second.layout.EdgeSegments(edge.Opposite()) && ContainsAxis(s.0, s.1, along);
  }

  predicate CrossesAt(screens: seq<ScreenPlacement>, from: NodeId, to: NodeId, edge: Edge, offset: U32) {
    var r := Cross(screens, from, edge, offset);
    r.Some? && r.value.target == to
  }

  // A direct crossing from one node to another.
  ghost predicate Crosses(screens: seq<ScreenPlacement>, from: NodeId, to: NodeId) {
    exists edge: Edge, offset: U32 :: CrossesAt(screens, from, to, edge, offset)
  }

  lemma SharedEdgeCrosses(screens: seq<ScreenPlacement>, a: ScreenPlacement, b: ScreenPlacement)
    requires WellFormed(screens) && a in screens && b in screens && a.node != b.node && SharesExposedEdge(a, b)
    ensures Crosses(screens, a.node, b.node)
  {
    DisjointPair(screens, a, b);
    hide WellFormed, Faces, Cross, SharesEdge;
    var edge: Edge :| SharesEdge(a, b, edge);
    var offset := OverlapGivesFacing(a, b, edge);
    CrossReachesFacingScreen(screens, a, b, edge, offset);
    assert CrossesAt(screens, a.node, b.node, edge, offset);
  }

  lemma CrossingSharesEdge(screens: seq<ScreenPlacement>, a: ScreenPlacement, b: ScreenPlacement, edge: Edge,
          offset: U32)
    requires WellFormed(screens) && a in screens && b in screens && a.node != b.node
    requires CrossesAt(screens, a.node, b.node, edge, offset)
    ensures SharesExposedEdge(a, b)
  {
    DisjointPair(screens, a, b);
    hide WellFormed, Faces, Cross, SharesEdge;
    CrossReachesFacingScreen(screens, a, b, edge, offset);
    FacingGivesOverlap(a, b, edge, offset);
  }

  /** Two screens share an exposed edge exactly when some edge offset crosses from one to the other. */
  lemma SharedEdgeIsCrossable(screens: seq<ScreenPlacement>, a: ScreenPlacement, b: ScreenPlacement)
    requires WellFormed(screens) && a in screens && b in screens && a.node != b.node
    ensures SharesExposedEdge(a, b) <==> Crosses(screens, a.node, b.node)
  {
    hide WellFormed, SharesExposedEdge, CrossesAt;
    if SharesExposedEdge(a, b) {
      SharedEdgeCrosses(screens, a, b);
    }
    forall edge: Edge, offset: U32 | CrossesAt(screens, a.node, b.node, edge, offset) ensures SharesExposedEdge(a, b) {
      CrossingSharesEdge(screens, a, b, edge, offset);
    }
  }

  // ---- Paths of screens ----

  function Below(n: nat): (r: set<nat>)
    ensures forall i: nat :: i in r <==> i < n
    ensures |r| == n
  {
    if n == 0 then {} else Below(n - 1) + {n - 1}
  }

  ghost predicate Path(screens: seq<ScreenPlacement>, p: seq<nat>) {
    && p != []
    && (forall k :: 0 <= k < |p| ==> p[k] < |screens|)
    && (forall k :: 0 <= k < |p| - 1 ==> SharesExposedEdge(screens[p[k]], screens[p[k + 1]]))
  }

  ghost predicate PathBetween(screens: seq<ScreenPlacement>, p: seq<nat>, i: nat, j: nat) {
    Path(screens, p) && p[0] == i && p[|p| - 1] == j
  }

  ghost predicate Linked(screens: seq<ScreenPlacement>, i: nat, j: nat) {
    exists p :: PathBetween(screens, p, i, j)
  }

  lemma LinkedStart(screens: seq<ScreenPlacement>, i: nat)
    requires i < |screens|
    ensures Linked(screens, i, i)
  {
    assert PathBetween(screens, [i], i, i);
  }

  lemma LinkedStep(screens: seq<ScreenPlacement>, i: nat, j: nat, k: nat)
    requires j < |screens| && k < |screens| && Linked(screens, i, j) && SharesExposedEdge(screens[j], screens[k])
    ensures Linked(screens, i, k)
  {
    var p :| PathBetween(screens, p, i, j);
    assert PathBetween(screens, p + [k], i, k);
  }

  lemma {:induction false} ClosedContainsLinked(screens: seq<ScreenPlacement>, closed: set<nat>, p: seq<nat>)
    requires Path(screens, p) && p[0] in closed
    requires forall i, j ::
               i in closed && i < |screens| && 0 <= j < |screens| && SharesExposedEdge(screens[i], screens[j]) ==>
                 j in closed
    ensures p[|p| - 1] in closed
  {
    if |p| > 1 {
      assert SharesExposedEdge(screens[p[0]], screens[p[1]]);
      var tail := p[1..];
      forall k | 0 <= k < |tail| - 1 ensures SharesExposedEdge(screens[tail[k]], screens[tail[k + 1]]) {
        assert tail[k] == p[k + 1] && tail[k + 1] == p[k + 2];
      }
      ClosedContainsLinked(screens, closed, tail);
    }
  }

  // The unvisited screens that one round of the search appends to the queue.
  method UnvisitedNeighbours(screens: seq<ScreenPlacement>, index: nat, connected: set<nat>) returns (found: seq<nat>)
    requires index < |screens|
    ensures forall j: nat :: j in found <==>
            j < |screens| && j !in connected && SharesExposedEdge(screens[index], screens[j])
  {
    hide SharesExposedEdge;
    found := [];
    for candidate := 0 to |screens|
      invariant forall j: nat :: j in found <==>
                j < candidate && j !in connected && SharesExposedEdge(screens[index], screens[j])
    {
      if candidate !in connected && SharesExposedEdge(screens[index], screens[candidate]) {
        found := found + [candidate];
      }
    }
  }

  // Everything adjacent to a visited screen has been visited or is queued.
  ghost predicate Explored(screens: seq<ScreenPlacement>, connected: set<nat>, pending: seq<nat>) {
    && (forall i :: i in connected ==> i < |screens|)
    && (forall i, j: nat :: i in connected && j < |screens| && SharesExposedEdge(screens[i], screens[j]) ==>
         j in connected || j in pending)
  }

  lemma ExploredStep(screens: seq<ScreenPlacement>, connected: set<nat>, pending: seq<nat>, found: seq<nat>)
    requires pending != [] && pending[0] < |screens| && Explored(screens, connected, pending)
    requires forall j: nat :: j in found <==>
             j < |screens| && j !in connected + {pending[0]} && SharesExposedEdge(screens[pending[0]], screens[j])
    ensures Explored(screens, connected + {pending[0]}, pending[1..] + found)
  {
    assert forall j :: j in pending ==> j == pending[0] || j in pending[1..];
  }

  lemma ExploredSkip(screens: seq<ScreenPlacement>, connected: set<nat>, pending: seq<nat>)
    requires pending != [] && pending[0] in connected && Explored(screens, connected, pending)
    ensures Explored(screens, connected, pending[1..])
  {
    assert forall j :: j in pending ==> j == pending[0] || j in pending[1..];
  }

  lemma ExploredAll(screens: seq<ScreenPlacement>, connected: set<nat>)
    requires Explored(screens, connected, []) && 0 in connected
    ensures forall i: nat :: Linked(screens, 0, i) ==> i in connected
  {
    forall i: nat | Linked(screens, 0, i) ensures i in connected {
      var p :| PathBetween(screens, p, 0, i);
      ClosedContainsLinked(screens, connected, p);
    }
  }

  ghost predicate AllLinked(screens: seq<ScreenPlacement>, indexes: seq<nat>) {
    forall i :: i in indexes ==> i < |screens| && Linked(screens, 0, i)
  }

  lemma AllLinkedSplit(screens: seq<ScreenPlacement>, pending: seq<nat>)
    requires pending != [] && AllLinked(screens, pending)
    ensures pending[0] < |screens| && Linked(screens, 0, pending[0]) && AllLinked(screens, pending[1..])
  {
    assert pending[0] in pending;
  }

  lemma AllLinkedJoin(screens: seq<ScreenPlacement>, pending: seq<nat>, found: seq<nat>)
    requires AllLinked(screens, pending) && AllLinked(screens, found)
    ensures AllLinked(screens, pending + found)
  {
  }

  lemma LinkedNeighbours(screens: seq<ScreenPlacement>, index: nat, found: seq<nat>)
    requires index < |screens| && Linked(screens, 0, index)
    requires forall j :: j in found ==> j < |screens| && SharesExposedEdge(screens[index], screens[j])
    ensures AllLinked(screens, found)
  {
    forall j | j in found ensures Linked(screens, 0, j) {
      LinkedStep(screens, 0, index, j);
    }
  }

  /**
   * The breadth-first search terminates although an index may be queued several times, and returns
   * exactly the screens linked to the first one.
   */
  method ConnectedScreenIndexes(screens: seq<ScreenPlacement>) returns (connected: set<nat>)
    requires screens != []
    ensures forall i: nat :: i in connected <==> i < |screens| && Linked(screens, 0, i)
  {
    connected := {};
    var pending: seq<nat> := [0];
    LinkedStart(screens, 0);
    while pending != []
      invariant Explored(screens, connected, pending)
      invariant AllLinked(screens, pending)
      invariant forall i :: i in connected ==> Linked(screens, 0, i)
      invariant 0 in connected || 0 in pending
      decreases |Below(|screens|) - connected|, |pending|
    {
      var index := pending[0];
      AllLinkedSplit(screens, pending);
      if index in connected {
        ExploredSkip(screens, connected, pending);
        pending := pending[1..];
      } else {
        var found := UnvisitedNeighbours(screens, index, connected + {index});
        ExploredStep(screens, connected, pending, found);
        LinkedNeighbours(screens, index, found);
        AllLinkedJoin(screens, pending[1..], found);
        assert Below(|screens|) - (connected + {index}) == (Below(|screens|) - connected) - {index};
        assert index in Below(|screens|) - connected;
        connected, pending := connected + {index}, pending[1..] + found;
      }
    }
    ExploredAll(screens, connected);
  }

  // ---- Construction ----

  ghost predicate Connected(screens: seq<ScreenPlacement>) {
    forall i :: 0 <= i < |screens| ==> Linked(screens, 0, i)
  }

  ghost predicate ValidTopology(screens: seq<ScreenPlacement>) {
    WellFormed(screens) && Connected(screens)
  }

  datatype TopologyError =
    | EmptyTopology
    | DuplicateNode(node: NodeId)
    | OverlappingScreens(first: NodeId, second: NodeId)
    | DesktopSizeMismatch(node: NodeId)
    | InvalidDesktop(layout: LayoutError)
    | CoordinateOverflow(node: NodeId)
    | DisconnectedNode(node: NodeId)

  // What each refusal says about the screens.
  ghost predicate Refuses(screens: seq<ScreenPlacement>, error: TopologyError) {
    match error
    case EmptyTopology => screens == []
    case DuplicateNode(node) => exists i, j :: 0 <= i < j < |screens| && screens[i].node == screens[j].node == node
    case InvalidDesktop(layout) => exists s :: s in screens && s.layout.Explains(layout)
    case DesktopSizeMismatch(node) => exists s :: s in screens && s.node == node && s.layout.size != s.bounds.size
    case CoordinateOverflow(node) => exists s :: s in screens && s.node == node && !s.FitsCoordinates()
    case OverlappingScreens(first, second) =>
      exists i, j :: 0 <= i < j < |screens| && screens[i].node == first && screens[j].node == second
                     && screens[i].bounds.Overlaps(screens[j].bounds)
    case DisconnectedNode(node) => exists i :: 0 <= i < |screens| && screens[i].node == node && !Linked(screens, 0, i)
  }

  method CheckUniqueNodes(screens: seq<ScreenPlacement>) returns (duplicate: Option<NodeId>)
    ensures duplicate.None? <==> UniqueNodes(screens)
    ensures duplicate.Some? ==> Refuses(screens, DuplicateNode(duplicate.value))
  {
    var nodes: set<NodeId> := {};
    for index := 0 to |screens|
      invariant nodes == set s | s in screens[..index] :: s.node
      invariant UniqueNodes(screens[..index])
    {
      if screens[index].node in nodes {
        var i :| 0 <= i < index && screens[i].node == screens[index].node;
        return Some(screens[index].node);
      }
      assert screens[..index + 1] == screens[..index] + [screens[index]];
      nodes := nodes + {screens[index].node};
    }
    assert screens[..|screens|] == screens;
    return None;
  }

  method CheckScreens(screens: seq<ScreenPlacement>) returns (refusal: Option<TopologyError>)
    ensures refusal.None? <==> (forall i :: 0 <= i < |screens| ==> screens[i].Valid()) && Disjoint(screens)
    ensures refusal.Some? ==> Refuses(screens, refusal.value)
  {
    for index := 0 to |screens|
      invariant forall i :: 0 <= i < index ==> screens[i].Valid()
      invariant forall i, j :: 0 <= i < index && i < j < |screens| ==> !screens[i].bounds.Overlaps(screens[j].bounds)
    {
      var first := screens[index];
      var checked := first.layout.Validate();
      if checked.Err? {
        assert first in screens && first.layout.Explains(checked.error);
        return Some(InvalidDesktop(checked.error));
      }
      if first.layout.size != first.bounds.size {
        return Some(DesktopSizeMismatch(first.node));
      }
      if !first.FitsCoordinates() {
        return Some(CoordinateOverflow(first.node));
      }
      for other := index + 1 to |screens|
        invariant forall j :: index < j < other ==> !first.bounds.Overlaps(screens[j].bounds)
      {
        if first.bounds.Overlaps(screens[other].bounds) {
          return Some(OverlappingScreens(first.node, screens[other].node));
        }
      }
    }
    return None;
  }

  lemma {:induction false} SubsetSize(a: set<nat>, b: set<nat>)
    requires a <= b
    ensures |a| <= |b|
  {
    if a != {} {
      var x :| x in a;
      SubsetSize(a - {x}, b - {x});
    }
  }

  lemma FullCardinality(n: nat, s: set<nat>)
    requires forall i :: i in s ==> i < n
    ensures |s| == n <==> forall i :: 0 <= i < n ==> i in s
  {
    var all := Below(n);
    if |s| == n && !(forall i :: 0 <= i < n ==> i in s) {
      var i :| 0 <= i < n && i !in s;
      assert s <= all - {i};
      SubsetSize(s, all - {i});
    }
    if forall i :: 0 <= i < n ==> i in s {
      assert s == all;
    }
  }

  /** Construction accepts exactly the valid arrangements, unchanged, and every refusal names a real defect. */
  method NewTopology(screens: seq<ScreenPlacement>) returns (r: Result<seq<ScreenPlacement>, TopologyError>)
    ensures r.Ok? <==> ValidTopology(screens)
    ensures r.Ok? ==> r.value == screens
    ensures r.Err? ==> Refuses(screens, r.error)
  {
    if screens == [] {
      return Err(EmptyTopology);
    }
    var duplicate := CheckUniqueNodes(screens);
    if duplicate.Some? {
      return Err(DuplicateNode(duplicate.value));
    }
    var refusal := CheckScreens(screens);
    if refusal.Some? {
      return Err(refusal.value);
    }
    var connected := ConnectedScreenIndexes(screens);
    FullCardinality(|screens|, connected);
    if |connected| != |screens| {
      for index := 0 to |screens|
        invariant forall i :: 0 <= i < index ==> i in connected
      {
        if index !in connected {
          return Err(DisconnectedNode(screens[index].node));
        }
      }
    }
    return Ok(screens);
  }

  // ---- Navigation ----

  ghost predicate Route(screens: seq<ScreenPlacement>, nodes: seq<NodeId>, from: NodeId, to: NodeId) {
    && nodes != [] && nodes[0] == from && nodes[|nodes| - 1] == to
    && forall k :: 0 <= k < |nodes| - 1 ==> Crosses(screens, nodes[k], nodes[k + 1])
  }

  ghost predicate Navigable(screens: seq<ScreenPlacement>) {
    forall a, b :: a in screens && b in screens ==> exists nodes :: Route(screens, nodes, a.node, b.node)
  }

  lemma {:induction false} PathGivesRoute(screens: seq<ScreenPlacement>, p: seq<nat>) returns (nodes: seq<NodeId>)
    requires WellFormed(screens) && Path(screens, p)
    ensures Route(screens, nodes, screens[p[0]].node, screens[p[|p| - 1]].node)
  {
    if |p| == 1 {
      nodes := [screens[p[0]].node];
    } else {
      var front := p[..|p| - 1];
      assert Path(screens, front);
      var prefix := PathGivesRoute(screens, front);
      var a, b := screens[p[|p| - 2]], screens[p[|p| - 1]];
      assert SharesExposedEdge(a, b);
      if a.node == b.node {
        nodes := prefix;
      } else {
        SharedEdgeIsCrossable(screens, a, b);
        nodes := prefix + [b.node];
      }
    }
  }

  lemma CrossingStaysInside(screens: seq<ScreenPlacement>, k: nat, to: NodeId) returns (j: nat)
    requires WellFormed(screens) && k < |screens| && Crosses(screens, screens[k].node, to)
    ensures j < |screens| && screens[j].node == to && SharesExposedEdge(screens[k], screens[j])
  {
    var edge: Edge, offset: U32 :| CrossesAt(screens, screens[k].node, to, edge, offset);
    var target := CrossTargetFaces(screens, screens[k], edge, offset);
    j :| 0 <= j < |screens| && screens[j] == target;
    SharedEdgeIsCrossable(screens, screens[k], screens[j]);
  }

  lemma {:induction false} RouteStaysLinked(screens: seq<ScreenPlacement>, nodes: seq<NodeId>, i: nat) returns (j: nat)
    requires WellFormed(screens) && i < |screens| && nodes != []
    requires Route(screens, nodes, screens[i].node, nodes[|nodes| - 1])
    ensures j < |screens| && screens[j].node == nodes[|nodes| - 1] && Linked(screens, i, j)
  {
    if |nodes| == 1 {
      LinkedStart(screens, i);
      j := i;
    } else {
      var front := nodes[..|nodes| - 1];
      assert Route(screens, front, screens[i].node, front[|front| - 1]);
      var k := RouteStaysLinked(screens, front, i);
      assert Crosses(screens, nodes[|nodes| - 2], nodes[|nodes| - 1]);
      j := CrossingStaysInside(screens, k, nodes[|nodes| - 1]);
      LinkedStep(screens, i, k, j);
    }
  }

  lemma {:induction false} PathReverses(screens: seq<ScreenPlacement>, p: seq<nat>) returns (q: seq<nat>)
    requires Path(screens, p)
    ensures PathBetween(screens, q, p[|p| - 1], p[0])
  {
    hide SharesExposedEdge;
    if |p| == 1 {
      q := p;
    } else {
      var tail := p[1..];
      forall k | 0 <= k < |tail| - 1 ensures SharesExposedEdge(screens[tail[k]], screens[tail[k + 1]]) {
        assert tail[k] == p[k + 1] && tail[k + 1] == p[k + 2];
      }
      var back := PathReverses(screens, tail);
      assert SharesExposedEdge(screens[p[0]], screens[p[1]]);
      SharesExposedEdgeSymmetric(screens[p[0]], screens[p[1]]);
      q := back + [p[0]];
    }
  }

  lemma PathsJoin(screens: seq<ScreenPlacement>, p: seq<nat>, q: seq<nat>) returns (r: seq<nat>)
    requires Path(screens, p) && Path(screens, q) && p[|p| - 1] == q[0]
    ensures PathBetween(screens, r, p[0], q[|q| - 1])
  {
    r := p + q[1..];
    forall k | 0 <= k < |r| - 1 ensures SharesExposedEdge(screens[r[k]], screens[r[k + 1]]) {
      if k < |p| - 1 {
        assert r[k] == p[k] && r[k + 1] == p[k + 1];
      } else {
        assert r[k] == q[k - (|p| - 1)] && r[k + 1] == q[k - (|p| - 1) + 1];
      }
    }
  }

  lemma ConnectedGivesRoute(screens: seq<ScreenPlacement>, a: ScreenPlacement, b: ScreenPlacement)
    returns (nodes: seq<NodeId>)
    requires ValidTopology(screens) && a in screens && b in screens
    ensures Route(screens, nodes, a.node, b.node)
  {
    var i :| 0 <= i < |screens| && screens[i] == a;
    var j :| 0 <= j < |screens| && screens[j] == b;
    assert Linked(screens, 0, i) && Linked(screens, 0, j);
    var p :| PathBetween(screens, p, 0, i);
    var q :| PathBetween(screens, q, 0, j);
    var back := PathReverses(screens, p);
    var r := PathsJoin(screens, back, q);
    nodes := PathGivesRoute(screens, r);
  }

  /**
   * Well-formed screens are accepted exactly when every node can be reached from every other one by
   * crossing edges.
   */
  lemma ConnectedIffNavigable(screens: seq<ScreenPlacement>)
    requires WellFormed(screens)
    ensures Connected(screens) <==> Navigable(screens)
  {
    if Connected(screens) {
      forall a, b | a in screens && b in screens ensures exists nodes :: Route(screens, nodes, a.node, b.node) {
        var nodes := ConnectedGivesRoute(screens, a, b);
      }
    }
    if Navigable(screens) {
      forall i | 0 <= i < |screens| ensures Linked(screens, 0, i) {
        var nodes :| Route(screens, nodes, screens[0].node, screens[i].node);
        var j := RouteStaysLinked(screens, nodes, 0);
      }
    }
  }
}
