/** What every controller operation keeps, and which errors can occur. */
module ControllerInvariant {
  import opened Base
  import opened Geometry
  import opened Topology
  import opened Input
  import opened Coalesce
  import opened Protocol
  import opened Controller
  import opened Cursor

  // The window of a peer holds at most the batch after the last acknowledged one.
  predicate DeliveryOk(d: PeerDelivery) {
    && d.lastAcknowledged <= d.lastSent <= d.lastAcknowledged + 1
    && d.pending == if d.lastSent == d.lastAcknowledged then [] else [d.lastSent]
  }

  // Everything except where buffered events may be.
  ghost predicate Sound(s: State) {
    && WellFormed(s.screens)
    && FindScreen(s.screens, s.local).Some?
    && OnScreen(s)
    && |s.buffer| < MAX_INPUT_EVENTS_PER_BATCH + 1
    && s.deliveries.Keys == PeerNodes(s.screens, s.local)
    && (forall node :: node in s.deliveries ==> DeliveryOk(s.deliveries[node]))
    && 1 <= s.epoch
  }

  ghost predicate Inv(s: State) {
    Sound(s) && (s.focus == s.local ==> s.buffer == [])
  }

  // The focused peer's window is occupied, so a flush sends nothing.
  predicate Blocked(s: State) {
    s.focus in s.deliveries && s.deliveries[s.focus].pending != []
  }

  lemma PeerNodesAreScreens(screens: seq<ScreenPlacement>, local: NodeId, node: NodeId)
    ensures node in PeerNodes(screens, local) <==> node != local && FindScreen(screens, node).Some?
  {
    var found := FindScreen(screens, node);
    if found.Some? {
      assert found.value in screens;
    }
    if node in PeerNodes(screens, local) {
      var s :| s in screens && s.node != local && s.node == node;
      var i :| 0 <= i < |screens| && screens[i] == s;
    }
  }

  // ---- Positions ----

  lemma SetInside(s: State, position: Point)
    requires var found := FindScreen(s.screens, s.focus);
             && found.Some?
             && 0 <= position.x < found.value.bounds.size.width
             && 0 <= position.y < found.value.bounds.size.height
    ensures OnScreen(SetFocusPosition(s, position))
  {
  }

  lemma ClampInside(s: State, size: Size)
    requires size.width <= COORDINATE_LIMIT && size.height <= COORDINATE_LIMIT
    requires var found := FindScreen(s.screens, s.focus); found.Some? && found.value.bounds.size == size
    ensures OnScreen(ClampFocusPosition(s, size))
  {
    FitsMicropixels(size);
  }

  // The entry position a focus message carries lies inside the focused screen.
  predicate InsideSize(size: Size, position: Point) {
    0 <= position.x < size.width && 0 <= position.y < size.height
  }

  lemma FocusPositionInside(s: State)
    requires WellFormed(s.screens) && OnScreen(s)
    ensures InsideSize(FindScreen(s.screens, s.focus).value.bounds.size, FocusPosition(s))
  {
    FocusedFits(s);
  }

  lemma CenterInside(screen: ScreenPlacement)
    requires screen.FitsCoordinates()
    ensures InsideSize(screen.bounds.size, ScreenCenter(screen))
    ensures forall p :: InsideSize(screen.bounds.size, ClampLocalPosition(screen, p))
  {
  }

  lemma FoundFits(screens: seq<ScreenPlacement>, node: NodeId)
    requires WellFormed(screens) && FindScreen(screens, node).Some?
    ensures FindScreen(screens, node).value.FitsCoordinates()
  {
  }

  // ---- The three things an operation can do ----

  // Only the cursor and the buffer may differ.
  ghost predicate Stays(s: State, t: State) {
    t == s.(x := t.x, y := t.y, buffer := t.buffer) && Inv(t)
  }

  // The whole buffer leaves as the next batch for the focused peer, whose window was free.
  ghost predicate Sends(s: State, t: State, actions: seq<Action>) {
    && Inv(s) && Inv(t)
    && s.focus != s.local && s.focus in s.deliveries && s.buffer != [] && !Blocked(s)
    && s.deliveries[s.focus].lastSent < U64_MAX
    && var sequence := s.deliveries[s.focus].lastSent + 1;
       && t == s.(buffer := [], deliveries := s.deliveries[s.focus := PeerDelivery(sequence, sequence - 1, [sequence])])
       && actions == [Send(s.focus, InputMessage(InputBatch(s.epoch, sequence, s.buffer)))]
  }

  ghost predicate MaybeSends(s: State, t: State, actions: seq<Action>) {
    (t == s && actions == []) || Sends(s, t, actions)
  }

  // One new epoch is announced to every peer, old and new, with an entry position inside its target.
  ghost predicate Broadcasts(s: State, t: State, actions: seq<Action>) {
    && t.local == s.local && s.epoch < U64_MAX && t.epoch == s.epoch + 1 && Inv(t)
    && InsideSize(FindScreen(t.screens, t.focus).value.bounds.size, FocusPosition(t))
    && actions == (if t.focus == t.local then [ReleaseCapture] else [])
                  + [Broadcast(PeerNodes(s.screens, s.local) + PeerNodes(t.screens, t.local),
                    FocusChanged(t.epoch, t.focus, FocusPosition(t)))]
    && forall node :: node in t.deliveries ==>
         t.deliveries[node] == if node in s.deliveries then s.deliveries[node] else NEW_DELIVERY
  }

  ghost predicate MaybeBroadcasts(s: State, t: State, actions: seq<Action>) {
    (Stays(s, t) && actions == []) || Broadcasts(s, t, actions)
  }

  // Every successful operation stays, then may send one batch, then may announce one epoch.
  ghost predicate Shape(s: State, m: State, sent: State, t: State, first: seq<Action>, second: seq<Action>,
          actions: seq<Action>)
  {
    Stays(s, m) && MaybeSends(m, sent, first) && MaybeBroadcasts(sent, t, second) && actions == first + second
  }

  // ---- Preservation ----

  lemma NewSound(screens: seq<ScreenPlacement>, local: NodeId)
    requires WellFormed(screens)
    ensures New(screens, local).Ok? <==> FindScreen(screens, local).Some?
    ensures New(screens, local).Ok? ==> Inv(New(screens, local).value)
  {
    hide WellFormed, FindScreen, ScreenCenter;
    if FindScreen(screens, local).Some? {
      FoundFits(screens, local);
      CenterInside(FindScreen(screens, local).value);
    }
  }

  lemma OnScreenFocus(s: State)
    requires OnScreen(s)
    ensures FindScreen(s.screens, s.focus).Some?
  {
  }

  lemma SamePlace(s: State, t: State)
    requires OnScreen(s) && t.screens == s.screens && t.focus == s.focus && t.x == s.x && t.y == s.y
    ensures OnScreen(t)
  {
  }

  /** Flushing sends the whole buffer as the next batch to the focused peer, or changes nothing. */
  lemma FlushSound(s: State)
    requires Inv(s)
    ensures var r := Flush(s);
            && Inv(r.state)
            && (r.result.Ok? ==>
                 MaybeSends(s, r.state, r.result.value) && (r.state.buffer == [] || (Blocked(s) && r.state == s)))
            && (r.result.Err? ==> r.state == s && r.result.error == SequenceExhausted(s.focus))
  {
    hide WellFormed, FindScreen, OnScreen;
    PeerNodesAreScreens(s.screens, s.local, s.focus);
    OnScreenFocus(s);
    SamePlace(s, Flush(s).state);
  }

  lemma AdvanceSound(s: State, t: State, recipients: set<NodeId>)
    requires Inv(t) && t.local == s.local && t.epoch == s.epoch
    requires recipients == PeerNodes(s.screens, s.local) + PeerNodes(t.screens, t.local)
    requires forall node :: node in t.deliveries ==>
               t.deliveries[node] == if node in s.deliveries then s.deliveries[node] else NEW_DELIVERY
    ensures var r := AdvanceEpochAndBroadcast(t, recipients);
            && Inv(r.state)
            && (r.result.Ok? ==> Broadcasts(s, r.state, r.result.value))
            && (r.result.Err? ==> r.result.error == FocusEpochExhausted)
  {
    hide WellFormed, FindScreen, OnScreen, PeerNodes;
    var r := AdvanceEpochAndBroadcast(t, recipients);
    SamePlace(t, r.state);
    FocusPositionInside(r.state);
  }

  lemma MovedSound(s: State, target: NodeId, position: Point) returns (moved: State)
    requires Inv(s) && s.buffer == [] && FindScreen(s.screens, target).Some?
    ensures moved == SetFocusPosition(s.(focus := target),
            ClampLocalPosition(FindScreen(s.screens, target).value, position))
    ensures Inv(moved)
  {
    hide WellFormed;
    FoundFits(s.screens, target);
    var screen := FindScreen(s.screens, target).value;
    CenterInside(screen);
    moved := SetFocusPosition(s.(focus := target), ClampLocalPosition(screen, position));
    SetInside(s.(focus := target), ClampLocalPosition(screen, position));
  }

  // A focus change either is held back with the buffer intact, or announces the target.
  lemma ChangeFocusShape(s: State, target: NodeId, position: Point)
    returns (sent: State, first: seq<Action>, second: seq<Action>)
    requires Inv(s) && FindScreen(s.screens, target).Some?
    ensures var r := ChangeFocus(s, target, position);
            && Inv(r.state)
            && (r.result.Ok? ==>
                 MaybeSends(s, sent, first) && MaybeBroadcasts(sent, r.state, second) &&
                 r.result.value == first + second)
            && (r.result.Err? ==> r.result.error in {SequenceExhausted(s.focus), FocusEpochExhausted})
  {
    hide WellFormed, FindScreen, OnScreen, PeerNodes, ClampLocalPosition;
    FlushSound(s);
    var flushed := Flush(s);
    sent, first, second := flushed.state, [], [];
    if flushed.result.Ok? {
      first := flushed.result.value;
      if flushed.state.buffer == [] {
        var moved := MovedSound(sent, target, position);
        AdvanceSound(sent, moved, PeerNodes(s.screens, s.local));
        var advanced := AdvanceEpochAndBroadcast(moved, PeerNodes(s.screens, s.local));
        if advanced.result.Ok? {
          second := advanced.result.value;
        }
      }
    }
  }

  lemma FindScreenNode(screens: seq<ScreenPlacement>, source: NodeId, edge: Edge, offset: U32)
    requires WellFormed(screens) && Cross(screens, source, edge, offset).Some?
    ensures FindScreen(screens, Cross(screens, source, edge, offset).value.target).Some?
  {
    var target := CrossEntry(screens, FindScreen(screens, source).value, edge, offset);
  }

  lemma LocalChangeNeverSends(s: State, target: NodeId, position: Point)
    requires Inv(s) && s.buffer == []
    ensures var r := ChangeFocus(s, target, position);
            r.result.Err? ==> r.result.error in {UnknownPeer(target), FocusEpochExhausted}
  {
  }

  // With nothing buffered there is nothing to flush first.
  lemma ChangeFocusEmpty(s: State, target: NodeId, position: Point)
    requires Inv(s) && s.buffer == [] && FindScreen(s.screens, target).Some?
    ensures var r := ChangeFocus(s, target, position);
            && Inv(r.state)
            && (r.result.Ok? ==> Broadcasts(s, r.state, r.result.value))
            && (r.result.Err? ==> r.result.error == FocusEpochExhausted)
  {
    hide WellFormed, FindScreen, OnScreen, PeerNodes, ClampLocalPosition;
    var moved := MovedSound(s, target, position);
    AdvanceSound(s, moved, PeerNodes(s.screens, s.local));
  }

  lemma ActivateShape(s: State, edge: Edge, offset: U32)
    returns (m: State, sent: State, first: seq<Action>, second: seq<Action>)
    requires Inv(s)
    ensures var r := Activate(s, edge, offset);
            && Inv(r.state)
            && (r.result.Ok? ==>
                  && Shape(s, m, sent, r.state, first, second, r.result.value)
                  && m == sent == s && first == [] && Broadcasts(s, r.state, second))
            && (r.result.Err? ==>
                 r.result.error in {CaptureAlreadyActive(s.focus), NoAdjacentScreen(edge, offset), FocusEpochExhausted})
  {
    hide WellFormed, FindScreen, OnScreen, PeerNodes, Cross, ChangeFocus;
    m, sent, first, second := s, s, [], [];
    var crossing := Cross(s.screens, s.local, edge, offset);
    if s.focus == s.local && crossing.Some? {
      FindScreenNode(s.screens, s.local, edge, offset);
      ChangeFocusEmpty(s, crossing.value.target, crossing.value.localPosition);
      LocalChangeNeverSends(s, crossing.value.target, crossing.value.localPosition);
      second := if Activate(s, edge, offset).result.Ok? then Activate(s, edge, offset).result.value else [];
    }
  }

  lemma ObserveStays(s: State, event: InputEvent)
    requires Inv(s)
    ensures var r := ObservePointer(s, event); r.result == Ok([]) && Stays(s, r.state) && r.state.buffer == s.buffer
  {
    hide WellFormed, PeerNodes, FindScreen;
    FocusedFits(s);
    match event.kind
    case PointerRelative(dx, dy) =>
      ClampInside(s.(x := SaturatingAdd(s.x, dx), y := SaturatingAdd(s.y, dy)),
        FindScreen(s.screens, s.focus).value.bounds.size);
    case PointerAbsolute(position) =>
      ClampInside(SetFocusPosition(s, position), FindScreen(s.screens, s.focus).value.bounds.size);
    case _ =>
  }

  lemma PushStays(s: State, event: InputEvent)
    requires Inv(s) && s.focus != s.local && (|s.buffer| < MAX_INPUT_EVENTS_PER_BATCH || CanCoalesce(s.buffer, event))
    ensures Stays(s, s.(buffer := Push(s.buffer, event)))
  {
    hide WellFormed, PeerNodes, FindScreen;
  }

  lemma StaysTransitive(s: State, t: State, u: State)
    requires Stays(s, t) && Stays(t, u)
    ensures Stays(s, u)
  {
    hide Inv;
  }

  // An event on a full buffer that cannot be merged, while the peer's window is occupied.
  predicate Overloaded(s: State, event: InputEvent) {
    |s.buffer| >= MAX_INPUT_EVENTS_PER_BATCH && !CanCoalesce(s.buffer, event) && Blocked(s)
  }

  lemma BufferBound(s: State)
    requires Inv(s)
    ensures |s.buffer| <= MAX_INPUT_EVENTS_PER_BATCH
  {
  }

  lemma PushLength(events: seq<InputEvent>, event: InputEvent)
    ensures |Push(events, event)| == if CanCoalesce(events, event) then |events| else |events| + 1
    ensures CanCoalesce(events, event) ==> events != []
  {
  }

  lemma AcceptShape(s: State, event: InputEvent)
    returns (m: State, sent: State, first: seq<Action>, second: seq<Action>)
    requires Inv(s) && s.focus != s.local
    ensures var r := Accept(s, event);
            && Inv(r.state)
            && (r.result.Ok? ==> Shape(s, m, sent, r.state, first, second, r.result.value))
            && (r.result == Err(Backpressure(s.focus, MAX_INPUT_EVENTS_PER_BATCH)) <==> Overloaded(s, event))
            && (Overloaded(s, event) ==> r.state == s)
            && (r.result.Err? && !Overloaded(s, event) ==> r.result.error == SequenceExhausted(s.focus))
  {
    hide WellFormed, FindScreen, OnScreen, PeerNodes, Sound, ObservePointer, Push, CanCoalesce;
    m, sent, first, second := s, s, [], [];
    BufferBound(s);
    if |s.buffer| >= MAX_INPUT_EVENTS_PER_BATCH && !CanCoalesce(s.buffer, event) {
      FlushSound(s);
      var flushed := Flush(s);
      if flushed.result.Ok? && flushed.state.buffer == [] {
        sent, first := flushed.state, flushed.result.value;
        ObserveStays(sent, event);
        var observed := ObservePointer(sent, event).state;
        PushStays(observed, event);
        PushLength(observed.buffer, event);
        StaysTransitive(sent, observed, observed.(buffer := Push(observed.buffer, event)));
      }
    } else {
      ObserveStays(s, event);
      var observed := ObservePointer(s, event).state;
      PushStays(observed, event);
      m := observed.(buffer := Push(observed.buffer, event));
      StaysTransitive(s, observed, m);
      sent := m;
      if |m.buffer| >= MAX_INPUT_EVENTS_PER_BATCH {
        FlushSound(m);
        if Flush(m).result.Ok? {
          sent, first := Flush(m).state, Flush(m).result.value;
        }
      }
    }
  }

  lemma DestinationIsScreen(s: State, dx: I64, dy: I64)
    requires WellFormed(s.screens) && OnScreen(s)
    ensures var r := PointerDestination(s, dx, dy);
            r.Ok? && (r.value.Some? ==> FindScreen(s.screens, r.value.value.0).Some?)
  {
    hide Cross, FindScreen, WellFormed;
    PointerDestinationIsExact(s, dx, dy);
    OnScreenFocus(s);
  }

  lemma CrossingIsScreen(s: State, event: InputEvent)
    requires WellFormed(s.screens) && OnScreen(s)
    ensures var r := CrossingOf(s, event);
            r.Ok? && (r.value.Some? ==>
              event.kind.PointerRelative? && r.value.value.0 != s.focus && FindScreen(s.screens, r.value.value.0).Some?)
  {
    hide FindScreen, WellFormed, PointerDestination, OnScreen;
    if event.kind.PointerRelative? {
      DestinationIsScreen(s, event.kind.dx, event.kind.dy);
    }
  }

  // A blocked focus change changes nothing at all.
  lemma ChangeFocusHeld(s: State, target: NodeId, position: Point)
    requires Flush(s) == Outcome(s, Ok([])) && s.buffer != []
    ensures ChangeFocus(s, target, position) == Outcome(s, Ok([]))
  {
  }

  lemma RouteCrossingShape(s: State, event: InputEvent)
    returns (sent: State, first: seq<Action>, second: seq<Action>)
    requires Inv(s) && s.focus != s.local && CrossingOf(s, event).Ok? && CrossingOf(s, event).value.Some?
    ensures var r := RouteInput(s, event);
            && Inv(r.state)
            && (r.result.Ok? ==> Shape(s, s, sent, r.state, first, second, r.result.value))
            && (r.result.Err? ==> r.result.error in {SequenceExhausted(s.focus), FocusEpochExhausted})
  {
    hide WellFormed, FindScreen, OnScreen, PeerNodes, ChangeFocus, CrossingOf;
    CrossingIsScreen(s, event);
    FlushSound(s);
    var crossing, flushed := CrossingOf(s, event).value.value, Flush(s);
    sent, first, second := flushed.state, [], [];
    if flushed.result.Ok? {
      if flushed.state.buffer == [] {
        first := flushed.result.value;
        ChangeFocusEmpty(sent, crossing.0, crossing.1);
        LocalChangeNeverSends(sent, crossing.0, crossing.1);
        var changed := ChangeFocus(sent, crossing.0, crossing.1);
        second := if changed.result.Ok? then changed.result.value else [];
      } else {
        ChangeFocusHeld(s, crossing.0, crossing.1);
      }
    }
  }

  /** Routing never loses its footing: the only errors are local focus, overload, and exhausted counters. */
  lemma RouteInputShape(s: State, event: InputEvent)
    returns (m: State, sent: State, first: seq<Action>, second: seq<Action>)
    requires Inv(s)
    ensures var r := RouteInput(s, event);
            && Inv(r.state)
            && (r.result.Ok? ==> Shape(s, m, sent, r.state, first, second, r.result.value))
            && (r.result == Err(InputWhileLocal) <==> s.focus == s.local)
            && (r.result == Err(Backpressure(s.focus, MAX_INPUT_EVENTS_PER_BATCH)) <==>
                  s.focus != s.local && CrossingOf(s, event) == Ok(None) && Overloaded(s, event))
            && (r.result.Err? ==> r.result.error in {InputWhileLocal, Backpressure(s.focus, MAX_INPUT_EVENTS_PER_BATCH),
                                                      SequenceExhausted(s.focus), FocusEpochExhausted})
            && (r.result.Err? && (r.result.error.InputWhileLocal? || r.result.error.Backpressure?) ==> r.state == s)
  {
    hide WellFormed, FindScreen, OnScreen, PeerNodes, Accept, ChangeFocus, CrossingOf, Overloaded;
    m, sent, first, second := s, s, [], [];
    CrossingIsScreen(s, event);
    if s.focus != s.local {
      match CrossingOf(s, event).value
      case None =>
        m, sent, first, second := AcceptShape(s, event);
      case Some(crossing) =>
        sent, first, second := RouteCrossingShape(s, event);
    }
  }

  lemma ChangeFocusTarget(s: State, target: NodeId, position: Point)
    requires s.buffer == []
    ensures var r := ChangeFocus(s, target, position); r.result.Ok? ==> r.state.focus == target
  {
  }

  lemma ReturnToLocalShape(s: State) returns (m: State, sent: State, first: seq<Action>, second: seq<Action>)
    requires Inv(s)
    ensures var r := ReturnToLocal(s);
            && Inv(r.state)
            && (r.result.Ok? ==>
                 Shape(s, m, sent, r.state, first, second, r.result.value) && first == [] && r.state.focus == s.local)
            && (r.result.Err? ==> r.result.error == FocusEpochExhausted)
  {
    hide WellFormed, FindScreen, OnScreen, PeerNodes, ChangeFocus;
    m, sent, first, second := s, s, [], [];
    if s.focus != s.local {
      m := s.(buffer := []);
      sent := m;
      SamePlace(s, m);
      var screen := FindScreen(s.screens, s.local).value;
      ChangeFocusEmpty(m, s.local, ScreenCenter(screen));
      ChangeFocusTarget(m, s.local, ScreenCenter(screen));
      second := if ReturnToLocal(s).result.Ok? then ReturnToLocal(s).result.value else [];
    }
  }

  lemma DropLast(pending: seq<U64>, through: U64)
    requires |pending| == 1 && pending[0] <= through
    ensures DropThrough(pending, through) == []
  {
    assert pending[1..] == [];
  }

  lemma AcknowledgeSound(s: State, peer: NodeId, through: U64)
    requires Sound(s)
    ensures Sound(Acknowledge(s, peer, through).0) && (Inv(s) ==> Inv(Acknowledge(s, peer, through).0))
    ensures var (t, r) := Acknowledge(s, peer, through);
            && (r.Ok? <==> peer in s.deliveries && through <= s.deliveries[peer].lastSent)
            && (r.Ok? ==>
                  var d := s.deliveries[peer];
                  var acknowledged := Max(d.lastAcknowledged, through);
                  && t == s.(deliveries := s.deliveries[peer :=
                       PeerDelivery(d.lastSent, acknowledged, if d.lastSent == acknowledged then [] else [d.lastSent])])
                  && r.value == acknowledged - d.lastAcknowledged)
            && (r.Err? ==> t == s)
            && (r.Err? ==>
                  r.error == if peer !in s.deliveries then UnknownPeer(peer)
                             else AcknowledgementBeyondSent(peer, through, s.deliveries[peer].lastSent))
  {
    hide WellFormed, FindScreen, OnScreen, PeerNodes;
    var t := Acknowledge(s, peer, through).0;
    SamePlace(s, t);
    if peer in s.deliveries {
      var d := s.deliveries[peer];
      assert DeliveryOk(d);
      if d.lastAcknowledged < through <= d.lastSent {
        DropLast(d.pending, through);
        assert t.deliveries.Keys == s.deliveries.Keys;
      } else {
        assert s.deliveries == s.deliveries[peer := d];
      }
    }
  }

  // Resetting one peer forgets its numbering and frees its window, and touches nothing else.
  lemma ResetPeerSound(s: State, peer: NodeId)
    requires Sound(s)
    ensures Sound(ResetPeer(s, peer).0) && (Inv(s) ==> Inv(ResetPeer(s, peer).0))
    ensures ResetPeer(s, peer).1.Ok? <==> peer in s.deliveries
    ensures peer !in s.deliveries ==> ResetPeer(s, peer).0 == s
    ensures var t := ResetPeer(s, peer).0;
            && t == s.(deliveries := t.deliveries)
            && (forall node :: node in t.deliveries && node != peer ==>
                 node in s.deliveries && t.deliveries[node] == s.deliveries[node])
            && (peer in s.deliveries && s.focus == peer && s.focus != s.local && s.buffer != [] ==>
                  Flush(t).result == Ok([Send(peer, InputMessage(InputBatch(s.epoch, 1, s.buffer)))]))
  {
    hide WellFormed, FindScreen, OnScreen, PeerNodes;
    var t := ResetPeer(s, peer).0;
    SamePlace(s, t);
    if peer in s.deliveries {
      assert t.deliveries.Keys == s.deliveries.Keys;
    }
  }

  // The state a topology change leaves before it announces the new epoch.
  function Refitted(s: State, screens: seq<ScreenPlacement>): State
    requires FindScreen(screens, s.local).Some?
  {
    var flushed := Flush(s).state;
    var focused := match FindScreen(screens, s.focus)
      case None => SetFocusPosition(flushed.(focus := s.local), ScreenCenter(FindScreen(screens, s.local).value))
      case Some(screen) => ClampFocusPosition(flushed, screen.bounds.size);
    focused.(screens := screens,
             deliveries := map node | node in PeerNodes(screens, s.local) ::
               if node in focused.deliveries then focused.deliveries[node] else NEW_DELIVERY)
  }

  lemma RefittedOnScreen(s: State, screens: seq<ScreenPlacement>)
    requires WellFormed(screens) && FindScreen(screens, s.local).Some?
    ensures OnScreen(Refitted(s, screens))
  {
    hide WellFormed, PeerNodes, FindScreen;
    var flushed := Flush(s).state;
    if FindScreen(screens, s.focus).None? {
      FoundFits(screens, s.local);
      CenterInside(FindScreen(screens, s.local).value);
      SetInside(flushed.(focus := s.local, screens := screens), ScreenCenter(FindScreen(screens, s.local).value));
    } else {
      FoundFits(screens, s.focus);
      ClampInside(flushed.(screens := screens), FindScreen(screens, s.focus).value.bounds.size);
    }
  }

  // The focused node disappears while its window is occupied and events are still buffered.
  predicate Strands(s: State, screens: seq<ScreenPlacement>) {
    FindScreen(screens, s.focus).None? && Blocked(s) && s.buffer != []
  }

  lemma FlushResult(s: State)
    ensures var t := Flush(s).state;
            t == s.(buffer := t.buffer, deliveries := t.deliveries) && |t.buffer| <= |s.buffer|
            && (Flush(s).result.Ok? && s.buffer != [] && Blocked(s) ==> t == s)
  {
  }

  lemma RefittedFields(s: State, screens: seq<ScreenPlacement>)
    requires FindScreen(screens, s.local).Some?
    ensures var t := Refitted(s, screens);
            && t.screens == screens && t.local == s.local && t.epoch == s.epoch && t.buffer == Flush(s).state.buffer
            && t.focus == (if FindScreen(screens, s.focus).Some? then s.focus else s.local)
            && t.deliveries.Keys == PeerNodes(screens, s.local)
            && forall node :: node in t.deliveries ==>
                 t.deliveries[node] ==
                   if node in Flush(s).state.deliveries then Flush(s).state.deliveries[node] else NEW_DELIVERY
  {
    hide PeerNodes, ScreenCenter, Flush, FindScreen;
    FlushResult(s);
  }

  lemma RefittedSound(s: State, screens: seq<ScreenPlacement>)
    requires Inv(s) && WellFormed(screens) && FindScreen(screens, s.local).Some?
    requires Flush(s).result.Ok?
    ensures var t := Refitted(s, screens);
            && Sound(t)
            && (Inv(t) <==> !Strands(s, screens))
            && t.local == s.local && t.epoch == s.epoch
            && forall node :: node in t.deliveries ==>
                 t.deliveries[node] ==
                   if node in Flush(s).state.deliveries then Flush(s).state.deliveries[node] else NEW_DELIVERY
  {
    hide WellFormed, OnScreen, PeerNodes, Flush, Refitted;
    FlushSound(s);
    FlushResult(s);
    RefittedOnScreen(s, screens);
    RefittedFields(s, screens);
  }

  /** A topology change announces one new epoch to old and new peers alike. */
  lemma ReconcileShape(s: State, screens: seq<ScreenPlacement>)
    returns (sent: State, first: seq<Action>, second: seq<Action>)
    requires Inv(s) && WellFormed(screens) && FindScreen(screens, s.local).Some? && !Strands(s, screens)
    ensures var r := ReconcileTopology(s, screens);
            && Inv(r.state)
            && (r.result.Ok? ==>
                  && MaybeSends(s, sent, first) && Broadcasts(sent, r.state, second)
                  && r.result.value == first + second && r.state.screens == screens)
            && (r.result.Err? ==> r.result.error in {SequenceExhausted(s.focus), FocusEpochExhausted})
  {
    hide WellFormed, FindScreen, OnScreen, PeerNodes, Strands;
    FlushSound(s);
    sent, first, second := Flush(s).state, [], [];
    if Flush(s).result.Ok? {
      first := Flush(s).result.value;
      RefittedSound(s, screens);
      var t := Refitted(s, screens);
      AdvanceSound(sent, t, PeerNodes(s.screens, s.local) + PeerNodes(screens, s.local));
      var advanced := AdvanceEpochAndBroadcast(t, PeerNodes(s.screens, s.local) + PeerNodes(screens, s.local));
      second := if advanced.result.Ok? then advanced.result.value else [];
    }
  }

  lemma FlushOk(s: State, screens: seq<ScreenPlacement>)
    requires ReconcileTopology(s, screens).result.Ok?
    ensures Flush(s).result.Ok? && FindScreen(screens, s.local).Some?
  {
  }

  lemma ReconcileIsRefitted(s: State, screens: seq<ScreenPlacement>)
    requires ReconcileTopology(s, screens).result.Ok?
    ensures FindScreen(screens, s.local).Some? && Refitted(s, screens).epoch < U64_MAX
    ensures ReconcileTopology(s, screens).state == Refitted(s, screens).(epoch := Refitted(s, screens).epoch + 1)
  {
    hide PeerNodes;
  }

  lemma NewEpochSound(s: State, epoch: U64)
    requires Sound(s) && s.epoch <= epoch
    ensures Sound(s.(epoch := epoch))
  {
    hide WellFormed, PeerNodes;
    SamePlace(s, s.(epoch := epoch));
  }

  lemma StrandedState(s: State, screens: seq<ScreenPlacement>)
    requires Strands(s, screens) && FindScreen(screens, s.local).Some? && Flush(s).result.Ok?
    ensures Refitted(s, screens).focus == s.local == Refitted(s, screens).local
    ensures Refitted(s, screens).buffer == s.buffer != []
  {
    hide PeerNodes;
    FlushResult(s);
  }

  /**
   * A topology change keeps "local focus has nothing buffered" exactly when it does not strand input.
   * When it does, the next flush discards the stranded events and fails.
   */
  lemma ReconcileStrandsInput(s: State, screens: seq<ScreenPlacement>)
    requires Inv(s) && WellFormed(screens) && ReconcileTopology(s, screens).result.Ok?
    ensures var t := ReconcileTopology(s, screens).state;
            && Sound(t)
            && (Inv(t) <==> !Strands(s, screens))
            && (Strands(s, screens) ==>
                  && t.focus == t.local && t.buffer == s.buffer
                  && Flush(t) == Outcome(t.(buffer := []), Err(InputWhileLocal)))
  {
    hide WellFormed, OnScreen, PeerNodes, Sound, Blocked;
    ReconcileIsRefitted(s, screens);
    FlushOk(s, screens);
    RefittedSound(s, screens);
    var refitted := Refitted(s, screens);
    NewEpochSound(refitted, refitted.epoch + 1);
    if Strands(s, screens) {
      StrandedState(s, screens);
    }
  }

  // Input that a topology change left behind with local focus.
  predicate Stranded(s: State) {
    s.focus == s.local && s.buffer != []
  }

  /**
   * Stranded input is never sent: the only operation that still succeeds is to return a focus that is local
   * already, which does nothing.
   */
  lemma StrandedStays(s: State, edge: Edge, offset: U32, event: InputEvent, screens: seq<ScreenPlacement>)
    requires Stranded(s)
    ensures Activate(s, edge, offset).result.Err? && RouteInput(s, event).result.Err?
    ensures Flush(s) == Outcome(s.(buffer := []), Err(InputWhileLocal)) && ReconcileTopology(s, screens).result.Err?
    ensures ReturnToLocal(s) == Outcome(s, Ok([]))
  {
    hide Cross, FindScreen;
  }

  // ---- What routing leaves behind when it fails ----

  // The focused peer's sequence numbers are used up while its window is free.
  predicate Exhausted(s: State) {
    s.focus in s.deliveries && !Blocked(s) && s.deliveries[s.focus].lastSent == U64_MAX
  }

  predicate Crowded(s: State, event: InputEvent) {
    |s.buffer| >= MAX_INPUT_EVENTS_PER_BATCH && !CanCoalesce(s.buffer, event)
  }

  lemma FlushFailsExactly(s: State)
    requires s.focus != s.local && s.focus in s.deliveries && s.buffer != []
    ensures Flush(s).result.Err? <==> Exhausted(s)
    ensures Exhausted(s) ==> Flush(s) == Outcome(s, Err(SequenceExhausted(s.focus)))
    ensures Flush(s).result.Ok? ==> if Blocked(s) then Flush(s) == Outcome(s, Ok([]))
            else Flush(s).state == s.(buffer := [], deliveries := Flush(s).state.deliveries)
  {
  }

  lemma CrowdedAccepts(s: State, event: InputEvent)
    requires Inv(s) && s.focus != s.local && s.focus in s.deliveries && Crowded(s, event)
    ensures var r := Accept(s, event);
            if Exhausted(s) then r == Outcome(s, Err(SequenceExhausted(s.focus)))
            else if Blocked(s) then r == Outcome(s, Err(Backpressure(s.focus, MAX_INPUT_EVENTS_PER_BATCH)))
            else r.result.Ok?
  {
    hide WellFormed, FindScreen, OnScreen, PeerNodes, Sound, Push, CanCoalesce, ObservePointer, Flush;
    FlushFailsExactly(s);
    FlushSound(s);
    var flushed := Flush(s).state;
    if !Exhausted(s) && !Blocked(s) {
      ObserveStays(flushed, event);
      PushLength(flushed.buffer, event);
    }
  }

  lemma RoomyAccepts(s: State, event: InputEvent)
    requires Inv(s) && s.focus != s.local && s.focus in s.deliveries && !Crowded(s, event)
    ensures var r, pushed := Accept(s, event), Push(s.buffer, event);
            if Exhausted(s) && |pushed| >= MAX_INPUT_EVENTS_PER_BATCH
            then r == Outcome(ObservePointer(s, event).state.(buffer := pushed), Err(SequenceExhausted(s.focus)))
            else r.result.Ok?
  {
    hide WellFormed, FindScreen, OnScreen, PeerNodes, Sound, Push, CanCoalesce, ObservePointer, Flush;
    ObserveStays(s, event);
    var observed := ObservePointer(s, event).state.(buffer := Push(s.buffer, event));
    FlushFailsExactly(observed);
  }

  /**
   * An event for the focused node fails for want of sequence numbers exactly when it would fill the buffer,
   * the window is free and the last number is used; the event is then buffered all the same, and the cursor
   * moved, unless the buffer was already full. It meets backpressure exactly on a full buffer that cannot
   * merge it behind an occupied window. Otherwise it is accepted.
   */
  lemma RouteAcceptsExactly(s: State, event: InputEvent)
    requires Inv(s) && s.focus != s.local && CrossingOf(s, event) == Ok(None)
    ensures var r, pushed := RouteInput(s, event), Push(s.buffer, event);
            && (r.result == Err(SequenceExhausted(s.focus)) <==> Exhausted(s) && |pushed| >= MAX_INPUT_EVENTS_PER_BATCH)
            && (r.result.Err? && r.result.error.SequenceExhausted? ==>
                  r.state == if Crowded(s, event) then s else ObservePointer(s, event).state.(buffer := pushed))
            && (r.result == Err(Backpressure(s.focus, MAX_INPUT_EVENTS_PER_BATCH)) <==> Crowded(s, event) && Blocked(s))
            && (r.result.Err? ==> r.result.error.SequenceExhausted? || r.result.error.Backpressure?)
  {
    hide WellFormed, FindScreen, OnScreen, PeerNodes, CrossingOf, Push, CanCoalesce, ObservePointer;
    BufferBound(s);
    PeerNodesAreScreens(s.screens, s.local, s.focus);
    OnScreenFocus(s);
    PushLength(s.buffer, event);
    ObserveStays(s, event);
    if Crowded(s, event) {
      CrowdedAccepts(s, event);
    } else {
      RoomyAccepts(s, event);
    }
  }
}
