/** What routing one event does: whether it crosses, where the cursor ends up and what is sent, in exact integers. */
module Routing {
  import opened Base
  import opened Geometry
  import opened Topology
  import opened Input
  import opened Coalesce
  import opened Protocol
  import opened Controller
  import opened Cursor
  import opened ControllerInvariant
  import opened FocusMoves

  // ---- Crossing ----

  // Outside a screen of this extent, beyond the given edge; past a corner the left or right edge counts.
  predicate LeavesBy(edge: Edge, x: int, y: int, width: int, height: int) {
    match edge
    case Left => x < 0
    case Right => x >= width
    case Top => 0 <= x < width && y < 0
    case Bottom => 0 <= x < width && y >= height
  }

  lemma LeavesByOne(edge: Edge, x: int, y: int, width: int, height: int)
    requires width > 0 && height > 0
    ensures LeavesBy(edge, x, y, width, height) <==>
              !(0 <= x < width && 0 <= y < height) && edge == ExitEdge(x, y, width, height)
  {
  }

  ghost predicate LeavesAt(s: State, edge: Edge, x: int, y: int, r: Option<(NodeId, Point)>)
    requires FindScreen(s.screens, s.focus).Some?
  {
    var (width, height) := FocusedExtent(s);
    var offset := ExactOffset(edge, x, y, width, height);
    0 <= offset <= 0xffff_ffff && ExactLeave(s, edge, offset, ExactOvershoot(edge, x, y, width, height), r)
  }

  // Where a motion to (x, y) leads: nowhere from inside, and otherwise through the edge it leaves by.
  ghost predicate CrossesExactly(s: State, x: int, y: int, r: Option<(NodeId, Point)>)
    requires FindScreen(s.screens, s.focus).Some?
  {
    var (width, height) := FocusedExtent(s);
    && (0 <= x < width && 0 <= y < height ==> r.None?)
    && forall edge: Edge :: LeavesBy(edge, x, y, width, height) ==> LeavesAt(s, edge, x, y, r)
  }

  lemma LeavesElsewhere(s: State, edge: Edge, x: int, y: int, r: Option<(NodeId, Point)>)
    requires WellFormed(s.screens) && OnScreen(s) && LeavesAt(s, edge, x, y, r)
    ensures r.Some? ==> r.value.0 != s.focus
  {
    hide Cross, WellFormed, Faces, EntersAt, FindScreen, ExactOffset, ExactEntry;
    if r.Some? {
      var (width, height) := FocusedExtent(s);
      var source := FindScreen(s.screens, s.focus).value;
      var target := CrossEntry(s.screens, source, edge, ExactOffset(edge, x, y, width, height));
    }
  }

  lemma DestinationCrosses(s: State, dx: I64, dy: I64)
    requires WellFormed(s.screens) && OnScreen(s)
    ensures PointerDestination(s, dx, dy).Ok?
    ensures var (width, height) := FocusedExtent(s);
            var (x, y) := (s.x + dx, s.y + dy);
            var r := PointerDestination(s, dx, dy).value;
            if 0 <= x < width && 0 <= y < height then r.Some? && r.value.0 == s.focus
            else LeavesAt(s, ExitEdge(x, y, width, height), x, y, r)
  {
    hide FindScreen, WellFormed, PointerDestination, ExactLeave, ExitEdge, ExactOffset;
    PointerDestinationIsExact(s, dx, dy);
  }

  lemma ExtentIsPositive(s: State)
    requires FindScreen(s.screens, s.focus).Some?
    ensures FocusedExtent(s).0 > 0 && FocusedExtent(s).1 > 0
  {
    hide FindScreen;
  }

  /**
   * Which motions cross: exactly the relative ones that leave the focused screen where the edge leads to
   * another screen, at the offset and by the whole pixels that exact integers give.
   */
  lemma CrossingIsExact(s: State, event: InputEvent)
    requires WellFormed(s.screens) && OnScreen(s)
    ensures CrossingOf(s, event).Ok?
    ensures if event.kind.PointerRelative?
            then CrossesExactly(s, s.x + event.kind.dx, s.y + event.kind.dy, CrossingOf(s, event).value)
            else CrossingOf(s, event) == Ok(None)
  {
    hide FindScreen, WellFormed, PointerDestination, LeavesAt, ExitEdge, LeavesBy, FocusedExtent;
    if event.kind.PointerRelative? {
      var (x, y) := (s.x + event.kind.dx, s.y + event.kind.dy);
      var (width, height) := FocusedExtent(s);
      DestinationCrosses(s, event.kind.dx, event.kind.dy);
      ExtentIsPositive(s);
      forall edge: Edge { LeavesByOne(edge, x, y, width, height); }
      if !(0 <= x < width && 0 <= y < height) {
        LeavesElsewhere(s, ExitEdge(x, y, width, height), x, y,
          PointerDestination(s, event.kind.dx, event.kind.dy).value);
      }
    }
  }

  // ---- Accepting ----

  // The micropixel cursor after an event on a screen of this extent.
  function Steered(kind: InputKind, at: (int, int), extent: (int, int)): (int, int) {
    match kind
    case PointerRelative(dx, dy) => (Clamp(at.0 + dx, 0, extent.0 - 1), Clamp(at.1 + dy, 0, extent.1 - 1))
    case PointerAbsolute(p) =>
      (Clamp(p.x * MICROPIXELS_PER_PIXEL, 0, extent.0 - 1), Clamp(p.y * MICROPIXELS_PER_PIXEL, 0, extent.1 - 1))
    case _ => at
  }

  // These events left as the next batch for the focus.
  predicate Delivers(s: State, t: State, actions: seq<Action>, events: seq<InputEvent>) {
    && s.focus in s.deliveries && s.deliveries[s.focus].lastSent < U64_MAX
    && var sequence := s.deliveries[s.focus].lastSent + 1;
       && actions == [Send(s.focus, InputMessage(InputBatch(s.epoch, sequence, events)))]
       && t.deliveries == s.deliveries[s.focus := PeerDelivery(sequence, sequence - 1, [sequence])]
  }

  // The cursor follows the event, on the same screen; nothing else changes but what is buffered and delivered.
  predicate Moves(s: State, event: InputEvent, t: State)
    requires FindScreen(s.screens, s.focus).Some?
  {
    && t == s.(x := t.x, y := t.y, buffer := t.buffer, deliveries := t.deliveries)
    && (t.x, t.y) == Steered(event.kind, (s.x, s.y), FocusedExtent(s))
  }

  lemma ObservedMoves(s: State, event: InputEvent)
    requires WellFormed(s.screens) && OnScreen(s)
    ensures FindScreen(s.screens, s.focus).Some?
    ensures var r := ObservePointer(s, event);
            r.result == Ok([]) && r.state.buffer == s.buffer && r.state.deliveries == s.deliveries &&
              Moves(s, event, r.state)
  {
    hide WellFormed, FindScreen, ObservePointer, Clamp;
    ObservedPositionIsExact(s, event);
  }

  lemma MovesKeepRest(s: State, event: InputEvent, t: State)
    requires FindScreen(s.screens, s.focus).Some? && Moves(s, event, t)
    ensures t == s.(x := t.x, y := t.y, buffer := t.buffer, deliveries := t.deliveries)
  {
  }

  // A flush of a non-empty buffer for a remote focus, by whether the window is free.
  lemma FlushDelivers(s: State)
    requires s.focus != s.local && s.focus in s.deliveries && DeliveryOk(s.deliveries[s.focus]) && s.buffer != []
    ensures var r := Flush(s);
            if Blocked(s) then r == Outcome(s, Ok([]))
            else r.result.Ok? ==>
              && Delivers(s, r.state, r.result.value, s.buffer)
              && r.state == s.(buffer := [], deliveries := r.state.deliveries)
  {
    assert !Blocked(s) ==> s.deliveries[s.focus].pending == [];
    var none: seq<U64> := [];
    assert forall sequence: U64 :: none + [sequence] == [sequence];
  }

  // Observing, buffering and flushing only ever add to the effect of moving.
  lemma MovesOn(s: State, flushed: State, event: InputEvent, observed: State, t: State)
    requires FindScreen(s.screens, s.focus).Some?
    requires flushed == s.(buffer := flushed.buffer, deliveries := flushed.deliveries)
    requires Moves(flushed, event, observed)
    requires t == observed.(buffer := t.buffer, deliveries := t.deliveries)
    ensures Moves(s, event, t)
  {
    hide FindScreen, Clamp;
  }

  lemma CrowdedDelivers(s: State, event: InputEvent)
    requires Inv(s) && s.focus != s.local && s.focus in s.deliveries && Crowded(s, event) && Accept(s, event).result.Ok?
    ensures FindScreen(s.screens, s.focus).Some?
    ensures var r := Accept(s, event);
            && Moves(s, event, r.state)
            && !Blocked(s) && Delivers(s, r.state, r.result.value, s.buffer) && r.state.buffer == [event]
  {
    ObservedMoves(s, event);
    FlushDelivers(s);
    var flushed := Flush(s);
    hide WellFormed, FindScreen, Sound, PeerNodes, Mergeable, ObservePointer, Flush, Moves;
    if flushed.result.Ok? && !Blocked(s) {
      SamePlace(s, flushed.state);
      ObservedMoves(flushed.state, event);
      MovesOn(s, flushed.state, event, ObservePointer(flushed.state, event).state, Accept(s, event).state);
    }
  }

  lemma SameDelivers(s: State, p: State, t: State, result: Result<seq<Action>, Error>, events: seq<InputEvent>)
    requires p.focus == s.focus && p.epoch == s.epoch && p.deliveries == s.deliveries
    ensures result.Ok? ==> (Delivers(p, t, result.value, events) <==> Delivers(s, t, result.value, events))
  {
  }

  lemma RoomyAccept(s: State, event: InputEvent)
    requires !Crowded(s, event) && ObservePointer(s, event).result.Ok?
    ensures var observed := ObservePointer(s, event).state;
            var pushed := observed.(buffer := Push(observed.buffer, event));
            Accept(s, event) ==
              if |pushed.buffer| >= MAX_INPUT_EVENTS_PER_BATCH then Flush(pushed) else Outcome(pushed, Ok([]))
  {
    hide CanCoalesce, Push, ObservePointer, Flush;
    var observed := ObservePointer(s, event).state;
    var pushed := observed.(buffer := Push(observed.buffer, event));
    if Flush(pushed).result.Ok? {
      assert [] + Flush(pushed).result.value == Flush(pushed).result.value;
    }
  }

  lemma RoomyDelivers(s: State, event: InputEvent)
    requires Inv(s) && s.focus != s.local && s.focus in s.deliveries && !Crowded(s, event)
    requires Accept(s, event).result.Ok?
    ensures FindScreen(s.screens, s.focus).Some?
    ensures var r, pushed := Accept(s, event), Push(s.buffer, event);
            && Moves(s, event, r.state)
            && (if |pushed| >= MAX_INPUT_EVENTS_PER_BATCH && !Blocked(s)
                then Delivers(s, r.state, r.result.value, pushed) && r.state.buffer == []
                else r.result.value == [] && r.state.deliveries == s.deliveries && r.state.buffer == pushed)
  {
    ObservedMoves(s, event);
    var observed := ObservePointer(s, event).state;
    var pushed := observed.(buffer := Push(s.buffer, event));
    FlushDelivers(pushed);
    hide WellFormed, FindScreen, Sound, PeerNodes, CanCoalesce, Push, ObservePointer, Flush, Moves, FocusedExtent,
      Delivers;
    MovesKeepRest(s, event, observed);
    RoomyAccept(s, event);
    hide Accept;
    MovesOn(s, s, event, observed, Accept(s, event).state);
    SameDelivers(s, pushed, Accept(s, event).state, Flush(pushed).result, pushed.buffer);
  }

  /**
   * The whole effect of accepting an event on the focused node: the cursor moves exactly and stays on the
   * screen, whatever the buffer holds; the event is merged or appended to the buffer, and the buffer leaves as
   * one batch exactly when it is full and the window is free, before the event when there is no room for it.
   */
  lemma AcceptedExactly(s: State, event: InputEvent)
    requires Inv(s) && s.focus != s.local && CrossingOf(s, event) == Ok(None) && RouteInput(s, event).result.Ok?
    ensures FindScreen(s.screens, s.focus).Some?
    ensures var r, pushed := RouteInput(s, event), Push(s.buffer, event);
            var t, actions := r.state, r.result.value;
            && Moves(s, event, t)
            && (if Crowded(s, event) then !Blocked(s) && Delivers(s, t, actions, s.buffer) && t.buffer == [event]
                else if |pushed| >= MAX_INPUT_EVENTS_PER_BATCH && !Blocked(s)
                then Delivers(s, t, actions, pushed) && t.buffer == []
                else actions == [] && t.deliveries == s.deliveries && t.buffer == pushed)
  {
    hide WellFormed, FindScreen, OnScreen, PeerNodes, CrossingOf, Push, Crowded, Accept, Moves, Delivers;
    OnScreenFocus(s);
    PeerNodesAreScreens(s.screens, s.local, s.focus);
    if Crowded(s, event) {
      CrowdedDelivers(s, event);
    } else {
      RoomyDelivers(s, event);
    }
  }
}
