/** Where the focus and the cursor are after each operation, in exact integers. */
module FocusMoves {
  import opened Base
  import opened Geometry
  import opened Topology
  import opened Input
  import opened Protocol
  import opened Controller
  import opened Cursor
  import opened ControllerInvariant

  // Focus and cursor at a local pixel of `target`, nothing buffered, in the same epoch.
  function Moved(s: State, target: NodeId, position: Point): State {
    s.(focus := target, buffer := [], x := position.x * MICROPIXELS_PER_PIXEL, y := position.y * MICROPIXELS_PER_PIXEL)
  }

  // The announcement of a focus change to every peer.
  function Announcement(s: State, target: NodeId, position: Point): seq<Action>
    requires s.epoch < U64_MAX
  {
    (if target == s.local then [ReleaseCapture] else [])
    + [Broadcast(PeerNodes(s.screens, s.local), FocusChanged(s.epoch + 1, target, position))]
  }

  // A focus change: moved and announced in a new epoch or, with no epoch left, moved and failed.
  function Entering(s: State, target: NodeId, position: Point): Outcome {
    var moved := Moved(s, target, position);
    if s.epoch < U64_MAX then Outcome(moved.(epoch := s.epoch + 1), Ok(Announcement(s, target, position)))
    else Outcome(moved, Err(FocusEpochExhausted))
  }

  // The middle pixel of a desktop, the lower one of two.
  predicate Central(size: Size, position: Point) {
    0 <= size.width - 2 * position.x <= 1 && 0 <= size.height - 2 * position.y <= 1
  }

  lemma CenterIsCentral(screen: ScreenPlacement)
    requires screen.FitsCoordinates()
    ensures Central(screen.bounds.size, ScreenCenter(screen))
  {
  }

  lemma InsideIsKept(screen: ScreenPlacement, position: Point)
    requires InsideSize(screen.bounds.size, position) && screen.FitsCoordinates()
    ensures ClampLocalPosition(screen, position) == position
    ensures LocalPoint(position.x * MICROPIXELS_PER_PIXEL, position.y * MICROPIXELS_PER_PIXEL) == position
  {
  }

  /** A new controller has local focus, the cursor at the middle of the local screen and nothing sent to anyone. */
  lemma NewCentres(screens: seq<ScreenPlacement>, local: NodeId)
    requires WellFormed(screens) && New(screens, local).Ok?
    ensures FindScreen(screens, local).Some?
    ensures var s := New(screens, local).value;
            && s.screens == screens && s.local == s.focus == local && s.epoch == 1 && s.buffer == []
            && Central(FindScreen(screens, local).value.bounds.size, FocusPosition(s))
            && s.x == FocusPosition(s).x * MICROPIXELS_PER_PIXEL && s.y == FocusPosition(s).y * MICROPIXELS_PER_PIXEL
            && s.deliveries.Keys == PeerNodes(screens, local)
            && forall node :: node in s.deliveries ==> s.deliveries[node] == PeerDelivery(0, 0, [])
  {
    hide WellFormed, FindScreen, PeerNodes, ScreenCenter, ClampLocalPosition, LocalPoint;
    var screen := FindScreen(screens, local).value;
    FoundFits(screens, local);
    CenterInside(screen);
    CenterIsCentral(screen);
    InsideIsKept(screen, ScreenCenter(screen));
  }

  /** The position a focus message announces is the pixel the cursor is in. */
  lemma AnnouncedIsPixel(s: State)
    requires WellFormed(s.screens) && OnScreen(s)
    ensures var p := FocusPosition(s);
            && p.x * MICROPIXELS_PER_PIXEL <= s.x < (p.x + 1) * MICROPIXELS_PER_PIXEL
            && p.y * MICROPIXELS_PER_PIXEL <= s.y < (p.y + 1) * MICROPIXELS_PER_PIXEL
  {
    hide WellFormed, FindScreen;
    FocusedFits(s);
  }

  lemma MovedAdvances(s: State, target: NodeId, position: Point)
    requires FocusPosition(Moved(s, target, position)) == position
    ensures var r, peers := Entering(s, target, position), PeerNodes(s.screens, s.local);
            After([], AdvanceEpochAndBroadcast(Moved(s, target, position), peers)) == r
  {
    hide PeerNodes, FocusPosition;
    var actions := if s.epoch < U64_MAX then Announcement(s, target, position) else [];
    assert [] + actions == actions;
  }

  lemma FlushNothing(s: State)
    requires s.buffer == []
    ensures Flush(s) == Outcome(s, Ok([]))
  {
  }

  lemma ChangeFocusEnters(s: State, target: NodeId, position: Point)
    requires Inv(s) && s.buffer == [] && FindScreen(s.screens, target).Some?
    requires InsideSize(FindScreen(s.screens, target).value.bounds.size, position)
    ensures ChangeFocus(s, target, position) == Entering(s, target, position)
    ensures FocusPosition(Moved(s, target, position)) == position
  {
    FoundFits(s.screens, target);
    InsideIsKept(FindScreen(s.screens, target).value, position);
    hide WellFormed, OnScreen, PeerNodes, ClampLocalPosition, LocalPoint, FindScreen, Sound;
    FlushNothing(s);
    hide Flush;
    MovedAdvances(s, target, position);
  }

  lemma EntryInside(screens: seq<ScreenPlacement>, node: NodeId, edge: Edge, offset: U32)
    requires WellFormed(screens) && Cross(screens, node, edge, offset).Some?
    ensures var t := Cross(screens, node, edge, offset).value;
            && FindScreen(screens, t.target).Some?
            && InsideSize(FindScreen(screens, t.target).value.bounds.size, t.localPosition)
  {
    var source := FindScreen(screens, node).value;
    hide Cross, Faces, EntersAt;
    var target := CrossEntry(screens, source, edge, offset);
    FacingEntry(source, target, edge, offset, Cross(screens, node, edge, offset).value.localPosition);
  }

  lemma SamePosition(s: State, epoch: U64)
    ensures epoch < U64_MAX ==> FocusPosition(s.(epoch := epoch + 1)) == FocusPosition(s)
  {
  }

  /**
   * Activating an edge moves the focus across it, to the facing node at the facing pixel, announced to every
   * peer, exactly when focus is local, the edge leads somewhere and an epoch is left. With no epoch left the
   * focus and the cursor move all the same, unannounced, and the operation fails; other failures change nothing.
   */
  lemma ActivateEnters(s: State, edge: Edge, offset: U32)
    requires Inv(s)
    ensures var r := Activate(s, edge, offset);
            var crossing := Cross(s.screens, s.local, edge, offset);
            && (r.result.Ok? <==> s.focus == s.local && crossing.Some? && s.epoch < U64_MAX)
            && (s.focus == s.local && crossing.Some? ==>
                  && r == Entering(s, crossing.value.target, crossing.value.localPosition)
                  && FocusPosition(r.state) == crossing.value.localPosition)
            && (s.focus != s.local ==> r == Outcome(s, Err(CaptureAlreadyActive(s.focus))))
            && (s.focus == s.local && crossing.None? ==> r == Outcome(s, Err(NoAdjacentScreen(edge, offset))))
  {
    hide WellFormed, FindScreen, OnScreen, PeerNodes, Cross, ChangeFocus, FocusPosition;
    var crossing := Cross(s.screens, s.local, edge, offset);
    if s.focus == s.local && crossing.Some? {
      EntryInside(s.screens, s.local, edge, offset);
      ChangeFocusEnters(s, crossing.value.target, crossing.value.localPosition);
      SamePosition(Moved(s, crossing.value.target, crossing.value.localPosition), s.epoch);
    }
  }

  lemma DestinationInside(s: State, dx: I64, dy: I64)
    requires WellFormed(s.screens) && OnScreen(s)
    requires var r := PointerDestination(s, dx, dy); r.Ok? && r.value.Some? && r.value.value.0 != s.focus
    ensures var (node, position) := PointerDestination(s, dx, dy).value.value;
            FindScreen(s.screens, node).Some? && InsideSize(FindScreen(s.screens, node).value.bounds.size, position)
  {
    hide FindScreen, Cross, WellFormed, PointerDestination;
    PointerDestinationIsExact(s, dx, dy);
  }

  // A flush for a remote focus: held back, out of numbers, or done with nothing left buffered.
  lemma FlushExactly(s: State)
    requires Inv(s) && s.focus != s.local
    ensures var r := Flush(s);
            if s.buffer != [] && Blocked(s) then r == Outcome(s, Ok([]))
            else if s.buffer != [] && Exhausted(s) then r == Outcome(s, Err(SequenceExhausted(s.focus)))
            else
              && r.result.Ok? && MaybeSends(s, r.state, r.result.value) && Inv(r.state) && r.state.buffer == []
              && r.state == s.(buffer := [], deliveries := r.state.deliveries)
  {
    hide WellFormed, FindScreen, OnScreen, PeerNodes, MaybeSends;
    PeerNodesAreScreens(s.screens, s.local, s.focus);
    OnScreenFocus(s);
    FlushSound(s);
    FlushResult(s);
    if s.buffer != [] {
      FlushFailsExactly(s);
    }
  }

  lemma CrossingInside(s: State, event: InputEvent)
    requires WellFormed(s.screens) && OnScreen(s) && CrossingOf(s, event).Ok? && CrossingOf(s, event).value.Some?
    ensures var (node, position) := CrossingOf(s, event).value.value;
            FindScreen(s.screens, node).Some? && InsideSize(FindScreen(s.screens, node).value.bounds.size, position)
  {
    hide WellFormed, FindScreen, OnScreen, PointerDestination;
    DestinationInside(s, event.kind.dx, event.kind.dy);
  }

  /**
   * A motion that crosses does nothing at all when something is buffered behind an occupied window, and
   * fails without effect when it would need a sequence number and none is left. Otherwise it sends what is
   * buffered and then moves the focus to the node and pixel it reaches. With no epoch left it fails after the
   * move: the focus has moved unannounced, and the batch that was counted as sent is in no action.
   */
  lemma RouteCrossingEnters(s: State, event: InputEvent)
    requires Inv(s) && s.focus != s.local
    ensures CrossingOf(s, event).Ok?
    ensures CrossingOf(s, event).value.Some? ==>
              var (node, position) := CrossingOf(s, event).value.value;
              var r, flushed := RouteInput(s, event), Flush(s);
              if s.buffer != [] && Blocked(s) then r == Outcome(s, Ok([]))
              else if s.buffer != [] && Exhausted(s) then r == Outcome(s, Err(SequenceExhausted(s.focus)))
              else
                && MaybeSends(s, flushed.state, flushed.result.value)
                && (s.epoch < U64_MAX ==>
                      r == Outcome(Entering(flushed.state, node, position).state,
                                   Ok(flushed.result.value + Announcement(s, node, position))))
                && (s.epoch == U64_MAX ==> r == Outcome(Moved(flushed.state, node, position), Err(FocusEpochExhausted)))
  {
    hide WellFormed, FindScreen, OnScreen, PeerNodes, ChangeFocus, CrossingOf, Flush, MaybeSends;
    CrossingIsScreen(s, event);
    if CrossingOf(s, event).value.Some? {
      var (node, position) := CrossingOf(s, event).value.value;
      CrossingInside(s, event);
      FlushExactly(s);
      var flushed := Flush(s);
      if s.buffer != [] && Blocked(s) {
        ChangeFocusHeld(s, node, position);
        var none: seq<Action> := [];
        assert none + none == none;
      } else if flushed.result.Ok? {
        ChangeFocusEnters(flushed.state, node, position);
      }
    }
  }

  /**
   * Returning a remote focus drops what is buffered and puts the cursor at the centre of the local screen,
   * announced in a new epoch; with no epoch left it fails after the move. A local focus stays as it is.
   */
  lemma ReturnCentres(s: State)
    requires Inv(s)
    ensures var r := ReturnToLocal(s);
            && (r.result.Ok? <==> s.focus == s.local || s.epoch < U64_MAX)
            && (s.focus == s.local ==> r == Outcome(s, Ok([])))
            && (s.focus != s.local ==>
                  var center := ScreenCenter(FindScreen(s.screens, s.local).value);
                  && r == Entering(s, s.local, center) && FocusPosition(r.state) == center
                  && Central(FindScreen(s.screens, s.local).value.bounds.size, center))
  {
    hide WellFormed, FindScreen, OnScreen, PeerNodes, ChangeFocus, ScreenCenter, FocusPosition;
    if s.focus != s.local {
      var screen := FindScreen(s.screens, s.local).value;
      FoundFits(s.screens, s.local);
      CenterInside(screen);
      CenterIsCentral(screen);
      SamePlace(s, s.(buffer := []));
      ChangeFocusEnters(s.(buffer := []), s.local, ScreenCenter(screen));
      SamePosition(Moved(s, s.local, ScreenCenter(screen)), s.epoch);
    }
  }

  lemma SaturatedClamps(x: int, length: int)
    requires 0 < length <= COORDINATE_LIMIT
    ensures Clamp(SaturateI64(x), 0, length * MICROPIXELS_PER_PIXEL - 1) ==
            Clamp(x, 0, length * MICROPIXELS_PER_PIXEL - 1)
  {
  }

  lemma ClampIsExact(s: State, size: Size)
    requires size.width <= COORDINATE_LIMIT && size.height <= COORDINATE_LIMIT
    ensures ClampFocusPosition(s, size) == s.(x := Clamp(s.x, 0, size.width * MICROPIXELS_PER_PIXEL - 1),
                                              y := Clamp(s.y, 0, size.height * MICROPIXELS_PER_PIXEL - 1))
  {
    FitsMicropixels(size);
  }

  /** Observing a motion moves the cursor exactly, then keeps it on the focused screen; other events leave it. */
  lemma ObservedPositionIsExact(s: State, event: InputEvent)
    requires WellFormed(s.screens) && OnScreen(s)
    ensures var (width, height) := FocusedExtent(s);
            ObservePointer(s, event) == Outcome(
              match event.kind
              case PointerRelative(dx, dy) =>
                s.(x := Clamp(s.x + dx, 0, width - 1), y := Clamp(s.y + dy, 0, height - 1))
              case PointerAbsolute(p) =>
                s.(x := Clamp(p.x * MICROPIXELS_PER_PIXEL, 0, width - 1),
                  y := Clamp(p.y * MICROPIXELS_PER_PIXEL, 0, height - 1))
              case _ => s,
              Ok([]))
  {
    hide WellFormed, ClampFocusPosition, Clamp;
    FocusedFits(s);
    var size := FindScreen(s.screens, s.focus).value.bounds.size;
    match event.kind
    case PointerRelative(dx, dy) =>
      ClampIsExact(s.(x := SaturatingAdd(s.x, dx), y := SaturatingAdd(s.y, dy)), size);
      SaturatedClamps(s.x + dx, size.width);
      SaturatedClamps(s.y + dy, size.height);
    case PointerAbsolute(p) => ClampIsExact(SetFocusPosition(s, p), size);
    case _ =>
  }

  /**
   * A topology change keeps the focus on a surviving node, with the cursor pulled inside its new size, and
   * otherwise returns it to the centre of the local screen. Surviving peers keep their progress.
   */
  lemma ReconcilePlaces(s: State, screens: seq<ScreenPlacement>)
    requires Inv(s) && WellFormed(screens) && ReconcileTopology(s, screens).result.Ok?
    ensures FindScreen(screens, s.local).Some?
    ensures var t := ReconcileTopology(s, screens).state;
            && t.screens == screens && t.local == s.local && t.epoch == s.epoch + 1
            && match FindScreen(screens, s.focus)
               case None =>
                 var center := ScreenCenter(FindScreen(screens, s.local).value);
                 && t.focus == s.local && Central(FindScreen(screens, s.local).value.bounds.size, center)
                 && (t.x, t.y) == (center.x * MICROPIXELS_PER_PIXEL, center.y * MICROPIXELS_PER_PIXEL)
               case Some(screen) =>
                 var size := screen.bounds.size;
                 && t.focus == s.focus
                 && (t.x, t.y) == (Clamp(s.x, 0, size.width * MICROPIXELS_PER_PIXEL - 1),
                                   Clamp(s.y, 0, size.height * MICROPIXELS_PER_PIXEL - 1))
  {
    hide WellFormed, OnScreen, PeerNodes, ScreenCenter, Flush, ClampFocusPosition, ReconcileTopology, Clamp;
    ReconcileIsRefitted(s, screens);
    FlushResult(s);
    FoundFits(screens, s.local);
    CenterIsCentral(FindScreen(screens, s.local).value);
    if FindScreen(screens, s.focus).Some? {
      FoundFits(screens, s.focus);
      ClampIsExact(Flush(s).state, FindScreen(screens, s.focus).value.bounds.size);
    }
  }

  /**
   * A topology change is refused, with nothing changed, when the local node has no screen in it or what is
   * buffered can no longer be numbered; with no epoch left it fails too; in every other case it succeeds.
   */
  lemma ReconcileFailsExactly(s: State, screens: seq<ScreenPlacement>)
    requires Inv(s)
    ensures var r := ReconcileTopology(s, screens);
            && (FindScreen(screens, s.local).None? ==> r == Outcome(s, Err(LocalNodeMissing(s.local))))
            && (FindScreen(screens, s.local).Some? ==>
                  if s.buffer != [] && Exhausted(s) then r == Outcome(s, Err(SequenceExhausted(s.focus)))
                  else if s.epoch == U64_MAX then r.result == Err(FocusEpochExhausted)
                  else r.result.Ok?)
  {
    hide WellFormed, FindScreen, OnScreen, PeerNodes, ScreenCenter, Flush, MaybeSends, FocusPosition, Clamp;
    if s.focus != s.local {
      FlushExactly(s);
    } else {
      FlushNothing(s);
    }
    FlushResult(s);
  }
}
