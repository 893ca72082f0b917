/** What becomes of input that is still buffered behind an occupied window when the topology or the focus changes. */
module TopologyChange {
  import opened Base
  import opened Geometry
  import opened Topology
  import opened Input
  import opened Controller
  import opened ControllerInvariant

  // Crossing an edge, then two discrete events with a flush in between: the second waits for the first.
  function Waiting(start: State, edge: Edge, offset: U32, first: InputEvent, second: InputEvent): State {
    var entered := Activate(start, edge, offset).state;
    var sent := Flush(RouteInput(entered, first).state).state;
    RouteInput(sent, second).state
  }

  lemma CrossTarget(screens: seq<ScreenPlacement>, source: ScreenPlacement, edge: Edge, offset: U32)
    returns (target: ScreenPlacement)
    requires WellFormed(screens) && source in screens && Cross(screens, source.node, edge, offset).Some?
    ensures target.node == Cross(screens, source.node, edge, offset).value.target != source.node
    ensures FindScreen(screens, target.node) == Some(target)
  {
    target := CrossTargetFaces(screens, source, edge, offset);
    FindScreenIn(screens, target);
  }

  lemma EntersPeer(start: State, edge: Edge, offset: U32)
    requires WellFormed(start.screens) && New(start.screens, start.local) == Ok(start)
    requires Cross(start.screens, start.local, edge, offset).Some?
    ensures var entered := Activate(start, edge, offset).state;
            && entered.screens == start.screens && entered.local == start.local
            && entered.deliveries == start.deliveries
            && entered.focus != start.local && entered.epoch == 2 && entered.buffer == []
            && entered.focus in entered.deliveries && entered.deliveries[entered.focus] == NEW_DELIVERY
            && FindScreen(start.screens, start.local).Some? && FindScreen(start.screens, entered.focus).Some?
  {
    var source := FindScreen(start.screens, start.local).value;
    hide WellFormed, Cross;
    var target := CrossTarget(start.screens, source, edge, offset);
    PeerNodesAreScreens(start.screens, start.local, target.node);
  }

  lemma DiscreteIsBuffered(s: State, event: InputEvent)
    requires s.focus != s.local && s.buffer == [] && !event.kind.Motion()
    ensures RouteInput(s, event) == Outcome(s.(buffer := [event]), Ok([]))
  {
    hide FindScreen, Cross;
  }

  lemma FirstIsSent(s: State, event: InputEvent)
    requires s.focus != s.local && s.buffer == [event]
    requires s.focus in s.deliveries && s.deliveries[s.focus] == NEW_DELIVERY
    ensures Flush(s).state == s.(buffer := [], deliveries := s.deliveries[s.focus := PeerDelivery(1, 0, [1])])
  {
    assert [] + [1] == [1];
  }

  /** From any start, on any topology with a crossing, two events are enough to fill the window and wait behind it. */
  lemma SecondEventWaits(start: State, edge: Edge, offset: U32, first: InputEvent, second: InputEvent)
    requires WellFormed(start.screens) && New(start.screens, start.local) == Ok(start)
    requires Cross(start.screens, start.local, edge, offset).Some? && !first.kind.Motion() && !second.kind.Motion()
    ensures var s := Waiting(start, edge, offset, first, second);
            && s.screens == start.screens && s.local == start.local
            && s.focus != s.local && s.epoch == 2 && s.buffer == [second] && Blocked(s)
            && FindScreen(s.screens, s.local).Some? && FindScreen(s.screens, s.focus).Some?
  {
    hide WellFormed, Cross, Activate, RouteInput, Flush, New;
    EntersPeer(start, edge, offset);
    var entered := Activate(start, edge, offset).state;
    DiscreteIsBuffered(entered, first);
    FirstIsSent(entered.(buffer := [first]), first);
    DiscreteIsBuffered(Flush(RouteInput(entered, first).state).state, second);
  }

  lemma BlockedReconcile(s: State, screens: seq<ScreenPlacement>)
    requires Blocked(s) && s.buffer != [] && s.focus != s.local && s.epoch < U64_MAX
    requires FindScreen(screens, s.local).Some?
    ensures var r := ReconcileTopology(s, screens);
            && r.result.Ok? && r.state.epoch == s.epoch + 1 && r.state.buffer == s.buffer && r.state.local == s.local
            && r.state.focus == if FindScreen(screens, s.focus).Some? then s.focus else s.local
  {
    hide PeerNodes, ScreenCenter, FocusPosition, FindScreen;
  }

  /** A topology change then moves the waiting event into the next epoch ... */
  lemma WaitingEventChangesEpoch(start: State, edge: Edge, offset: U32, first: InputEvent, second: InputEvent)
    requires WellFormed(start.screens) && New(start.screens, start.local) == Ok(start)
    requires Cross(start.screens, start.local, edge, offset).Some? && !first.kind.Motion() && !second.kind.Motion()
    ensures var r := ReconcileTopology(Waiting(start, edge, offset, first, second), start.screens);
            r.result.Ok? && r.state.epoch == 3 && r.state.buffer == [second]
            && r.state.focus == Waiting(start, edge, offset, first, second).focus
  {
    hide WellFormed, Cross, Waiting, PeerNodes, New, ReconcileTopology;
    SecondEventWaits(start, edge, offset, first, second);
    BlockedReconcile(Waiting(start, edge, offset, first, second), start.screens);
  }

  /** ... or, when it removes the focused node, loses it: the next flush fails and discards it. */
  lemma WaitingEventIsLost(start: State, edge: Edge, offset: U32, first: InputEvent, second: InputEvent)
    requires WellFormed(start.screens) && New(start.screens, start.local) == Ok(start)
    requires Cross(start.screens, start.local, edge, offset).Some? && !first.kind.Motion() && !second.kind.Motion()
    ensures var alone := [FindScreen(start.screens, start.local).value];
            var r := ReconcileTopology(Waiting(start, edge, offset, first, second), alone);
            && r.result.Ok? && r.state.focus == r.state.local && r.state.buffer == [second]
            && Flush(r.state) == Outcome(r.state.(buffer := []), Err(InputWhileLocal))
  {
    hide WellFormed, Cross, Waiting, PeerNodes, New, ReconcileTopology;
    SecondEventWaits(start, edge, offset, first, second);
    BlockedReconcile(Waiting(start, edge, offset, first, second), [FindScreen(start.screens, start.local).value]);
  }

  lemma BlockedReturn(s: State)
    requires s.focus != s.local && s.epoch < U64_MAX && FindScreen(s.screens, s.local).Some?
    ensures var r := ReturnToLocal(s);
            && r.result.Ok? && r.state.focus == s.local && r.state.epoch == s.epoch + 1 && r.state.buffer == []
            && r.state.local == s.local && r.state.deliveries == s.deliveries
            && (forall a :: a in r.result.value ==> !a.Send?)
  {
    hide PeerNodes, ScreenCenter, FocusPosition, FindScreen, ClampLocalPosition;
  }

  /** Returning focus instead drops the waiting event: it is in no batch, and nothing is buffered any more. */
  lemma WaitingEventIsDropped(start: State, edge: Edge, offset: U32, first: InputEvent, second: InputEvent)
    requires WellFormed(start.screens) && New(start.screens, start.local) == Ok(start)
    requires Cross(start.screens, start.local, edge, offset).Some? && !first.kind.Motion() && !second.kind.Motion()
    ensures var r := ReturnToLocal(Waiting(start, edge, offset, first, second));
            && r.result.Ok? && r.state.focus == r.state.local && r.state.epoch == 3 && r.state.buffer == []
            && r.state.deliveries == Waiting(start, edge, offset, first, second).deliveries
            && (forall a :: a in r.result.value ==> !a.Send?)
  {
    hide WellFormed, Cross, Waiting, PeerNodes, New, ReturnToLocal;
    SecondEventWaits(start, edge, offset, first, second);
    BlockedReturn(Waiting(start, edge, offset, first, second));
  }
}
