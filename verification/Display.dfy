/** A node's desktop: monitors inside one aggregate rectangle, and the parts of its edges they reach. */
module Display {
  import opened Base
  import opened Geometry

  const MAX_MONITORS_PER_DESKTOP := 32
  const MAX_MONITOR_NAME_BYTES := 128

  // Scale and rotation are carried by the original but never read by its routing.
  datatype Monitor = Monitor(name: Option<seq<Byte>>, bounds: Rect)

  datatype LayoutError =
    | NoMonitors
    | TooManyMonitors(actual: nat)
    | MonitorNameTooLong(index: nat)
    | MonitorOutsideDesktop(index: nat)
    | DoesNotSpanDesktop

  datatype DesktopLayout = DesktopLayout(size: Size, monitors: seq<Monitor>) {

    // The coordinate of one side of the aggregate desktop.
    function Limit(edge: Edge): int {
      match edge
      case Left => 0
      case Top => 0
      case Right => size.width
      case Bottom => size.height
    }

    predicate Reaches(monitor: Monitor, edge: Edge) {
      monitor.bounds.Side(edge) == Limit(edge)
    }

    predicate ShortName(monitor: Monitor) {
      monitor.name.Some? ==> |monitor.name.value| <= MAX_MONITOR_NAME_BYTES
    }

    predicate Inside(monitor: Monitor) {
      && 0 <= monitor.bounds.origin.x
      && 0 <= monitor.bounds.origin.y
      && monitor.bounds.RightSide() <= size.width
      && monitor.bounds.BottomSide() <= size.height
    }

    ghost predicate Spans(edge: Edge) {
      exists m :: m in monitors && Reaches(m, edge)
    }

    ghost predicate Valid() {
      && 0 < |monitors| <= MAX_MONITORS_PER_DESKTOP
      && (forall m :: m in monitors ==> ShortName(m) && Inside(m))
      && (forall edge: Edge :: Spans(edge))
    }

    // What each refusal says about the layout.
    ghost predicate Explains(error: LayoutError) {
      match error
      case NoMonitors => monitors == []
      case TooManyMonitors(actual) => |monitors| == actual > MAX_MONITORS_PER_DESKTOP
      case MonitorNameTooLong(index) => index < |monitors| && !ShortName(monitors[index])
      case MonitorOutsideDesktop(index) => index < |monitors| && !Inside(monitors[index])
      case DoesNotSpanDesktop => exists edge: Edge :: !Spans(edge)
    }

    ghost predicate SpansWithin(edge: Edge, index: nat)
      requires index <= |monitors|
    {
      exists m :: m in monitors[..index] && Reaches(m, edge)
    }

    lemma SpansGrow(edge: Edge, index: nat)
      requires index < |monitors|
      ensures SpansWithin(edge, index + 1) <==> SpansWithin(edge, index) || Reaches(monitors[index], edge)
    {
      hide Reaches;
      assert monitors[..index + 1] == monitors[..index] + [monitors[index]];
    }

    lemma SpansEnd(edge: Edge)
      ensures SpansWithin(edge, |monitors|) <==> Spans(edge)
      ensures !SpansWithin(edge, 0)
    {
      assert monitors[..|monitors|] == monitors;
    }

    method Validate() returns (r: Result<(), LayoutError>)
      ensures r.Ok? <==> Valid()
      ensures r.Err? ==> Explains(r.error)
    {
      if |monitors| == 0 {
        return Err(NoMonitors);
      }
      if |monitors| > MAX_MONITORS_PER_DESKTOP {
        return Err(TooManyMonitors(|monitors|));
      }
      hide SpansWithin, Reaches, Spans, ShortName, Inside;
      forall edge: Edge { SpansEnd(edge); }
      var reachesLeft, reachesRight, reachesTop, reachesBottom := false, false, false, false;
      for index := 0 to |monitors|
        invariant forall m :: m in monitors[..index] ==> ShortName(m) && Inside(m)
        invariant reachesLeft <==> SpansWithin(Left, index)
        invariant reachesRight <==> SpansWithin(Right, index)
        invariant reachesTop <==> SpansWithin(Top, index)
        invariant reachesBottom <==> SpansWithin(Bottom, index)
      {
        var monitor := monitors[index];
        assert monitors[..index + 1] == monitors[..index] + [monitor];
        forall edge: Edge { SpansGrow(edge, index); }
        if !ShortName(monitor) {
          return Err(MonitorNameTooLong(index));
        }
        if !Inside(monitor) {
          return Err(MonitorOutsideDesktop(index));
        }
        reachesLeft := reachesLeft || Reaches(monitor, Left);
        reachesRight := reachesRight || Reaches(monitor, Right);
        reachesTop := reachesTop || Reaches(monitor, Top);
        reachesBottom := reachesBottom || Reaches(monitor, Bottom);
      }
      assert monitors[..|monitors|] == monitors;
      if !(reachesLeft && reachesRight && reachesTop && reachesBottom) {
        return Err(DoesNotSpanDesktop);
      }
      forall edge: Edge ensures Spans(edge) {
        SpansEnd(edge);
        assert edge == Left || edge == Right || edge == Top || edge == Bottom;
      }
      return Ok(());
    }

    predicate ContainsEdgeOffset(edge: Edge, offset: U32) {
      exists m :: m in monitors && Reaches(m, edge)
        && ContainsAxis(m.bounds.Start(edge), m.bounds.End(edge), offset)
    }

    // One segment per monitor that reaches the edge, when its ends fit u32.
    function EdgeSegments(edge: Edge): (r: seq<(U32, U32)>) {
      SegmentsOf(monitors, edge)
    }

    function SegmentsOf(ms: seq<Monitor>, edge: Edge): (r: seq<(U32, U32)>) {
      if ms == [] then [] else
      var rest := SegmentsOf(ms[1..], edge);
      if !Reaches(ms[0], edge) then rest else
      match (TryU32(ms[0].bounds.Start(edge)), TryU32(ms[0].bounds.End(edge)))
      case (Some(start), Some(end)) => [(start, end)] + rest
      case _ => rest
    }
  }

  // A predicate form of "offset lies in one of the segments".
  predicate Covered(segments: seq<(U32, U32)>, offset: int) {
    exists s :: s in segments && ContainsAxis(s.0, s.1, offset)
  }

  lemma {:induction false} SegmentsOfCover(layout: DesktopLayout, ms: seq<Monitor>, edge: Edge, offset: U32)
    requires forall m :: m in ms ==> layout.Inside(m)
    ensures Covered(layout.SegmentsOf(ms, edge), offset) <==>
            exists m :: m in ms && layout.Reaches(m, edge) &&
              ContainsAxis(m.bounds.Start(edge), m.bounds.End(edge), offset)
    ensures forall s :: s in layout.SegmentsOf(ms, edge) ==> s.0 < s.1
  {
    if ms != [] {
      SegmentsOfCover(layout, ms[1..], edge, offset);
      assert ms == [ms[0]] + ms[1..];
      var rest := layout.SegmentsOf(ms[1..], edge);
      if layout.Reaches(ms[0], edge) {
        assert layout.Inside(ms[0]);
        var s := (ms[0].bounds.Start(edge), ms[0].bounds.End(edge));
        assert layout.SegmentsOf(ms, edge) == [s] + rest;
        assert s in [s] + rest;
        if Covered([s] + rest, offset) && !Covered(rest, offset) {
          assert ContainsAxis(s.0, s.1, offset);
        }
        if Covered(rest, offset) {
          var t :| t in rest && ContainsAxis(t.0, t.1, offset);
          assert t in [s] + rest;
        }
      }
    }
  }

  /**
   * The segments of an edge are those of the monitors that reach it, in the order of the monitors: a list of
   * monitors gives the segments of its parts one after the other, and one monitor its own stretch or nothing.
   */
  lemma {:induction false} SegmentsFollowMonitors(layout: DesktopLayout, a: seq<Monitor>, b: seq<Monitor>, m: Monitor,
          edge: Edge)
    requires layout.Inside(m)
    ensures layout.SegmentsOf(a + b, edge) == layout.SegmentsOf(a, edge) + layout.SegmentsOf(b, edge)
    ensures layout.SegmentsOf([m], edge)
            == if layout.Reaches(m, edge) then [(m.bounds.Start(edge), m.bounds.End(edge))] else []
  {
    assert [m][1..] == [];
    if a == [] {
      assert a + b == b;
    } else {
      SegmentsFollowMonitors(layout, a[1..], b, m, edge);
      assert (a + b)[0] == a[0] && (a + b)[1..] == a[1..] + b;
      var rest := layout.SegmentsOf(a[1..], edge);
      var own := layout.SegmentsOf(a, edge)[..|layout.SegmentsOf(a, edge)| - |rest|];
      Regroup(own, rest, layout.SegmentsOf(b, edge));
    }
  }

  /**
   * The segment list used for connectivity and the offset test used for crossing describe the same
   * stretch of an edge.
   */
  lemma EdgeSegmentsAreEdgeOffsets(layout: DesktopLayout, edge: Edge, offset: U32)
    requires layout.Valid()
    ensures Covered(layout.EdgeSegments(edge), offset) <==> layout.ContainsEdgeOffset(edge, offset)
    ensures forall s :: s in layout.EdgeSegments(edge) ==> s.0 < s.1
  {
    SegmentsOfCover(layout, layout.monitors, edge, offset);
  }

  // The local pixel of a desktop that touches an edge at an offset.
  function EdgePixel(size: Size, edge: Edge, offset: int): (int, int) {
    match edge
    case Left => (0, offset)
    case Right => (size.width - 1, offset)
    case Top => (offset, 0)
    case Bottom => (offset, size.height - 1)
  }

  /** An exposed edge offset is exactly an edge pixel that lies on a monitor. */
  lemma ExposedOffsetIsMonitorPixel(layout: DesktopLayout, edge: Edge, offset: U32)
    requires layout.Valid()
    ensures layout.ContainsEdgeOffset(edge, offset) <==>
            exists m :: m in layout.monitors
              && m.bounds.ContainsCoordinates(EdgePixel(layout.size, edge, offset).0,
                   EdgePixel(layout.size, edge, offset).1)
    ensures layout.ContainsEdgeOffset(edge, offset) ==> offset < Rect(Point(0, 0), layout.size).Length(edge)
  {
    var p := EdgePixel(layout.size, edge, offset);
    forall m | m in layout.monitors
      ensures (layout.Reaches(m, edge) && ContainsAxis(m.bounds.Start(edge), m.bounds.End(edge), offset)) ==
              m.bounds.ContainsCoordinates(p.0, p.1)
    {
      assert layout.Inside(m);
    }
  }
}
