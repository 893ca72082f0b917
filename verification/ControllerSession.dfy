/** The controller as the object it is: every method updates the fields and meets its specification function. */
module ControllerSessions {
  import opened Base
  import opened Geometry
  import opened Topology
  import opened Input
  import opened Coalesce
  import opened Protocol
  import opened Controller

  class ControllerSession {
    var screens: seq<ScreenPlacement>
    const localNode: NodeId
    var focus: NodeId
    var focusEpoch: U64
    var focusX: I64
    var focusY: I64
    const buffer: EventBuffer
    var deliveries: map<NodeId, PeerDelivery>

    function Current(): State
      reads this, buffer
    {
      State(screens, localNode, focus, focusEpoch, focusX, focusY, buffer.events, deliveries)
    }

    constructor (screens: seq<ScreenPlacement>, localNode: NodeId, screen: ScreenPlacement)
      requires FindScreen(screens, localNode) == Some(screen)
      ensures New(screens, localNode) == Ok(Current()) && fresh(buffer)
    {
      var position := ScreenCenter(screen);
      this.screens, this.localNode, this.focus, this.focusEpoch := screens, localNode, localNode, 1;
      this.focusX, this.focusY := position.x * MICROPIXELS_PER_PIXEL, position.y * MICROPIXELS_PER_PIXEL;
      this.deliveries := map node | node in PeerNodes(screens, localNode) :: NEW_DELIVERY;
      this.buffer := new EventBuffer();
    }

    static method Open(screens: seq<ScreenPlacement>, localNode: NodeId) returns (r: Result<ControllerSession, Error>)
      ensures r.Ok? ==> fresh(r.value) && fresh(r.value.buffer) && New(screens, localNode) == Ok(r.value.Current())
      ensures r.Err? ==> New(screens, localNode) == Err(r.error)
    {
      match FindScreen(screens, localNode)
      case None => return Err(LocalNodeMissing(localNode));
      case Some(screen) =>
        var session := new ControllerSession(screens, localNode, screen);
        return Ok(session);
    }

    method SetPosition(position: Point)
      modifies this`focusX, this`focusY
      ensures Current() == SetFocusPosition(old(Current()), position)
    {
      focusX := position.x * MICROPIXELS_PER_PIXEL;
      focusY := position.y * MICROPIXELS_PER_PIXEL;
    }

    method ClampPosition(size: Size)
      modifies this`focusX, this`focusY
      ensures Current() == ClampFocusPosition(old(Current()), size)
    {
      var maximumX := SaturatingAdd(SaturatingMul(size.width, MICROPIXELS_PER_PIXEL), -1);
      var maximumY := SaturatingAdd(SaturatingMul(size.height, MICROPIXELS_PER_PIXEL), -1);
      focusX := Clamp(focusX, 0, maximumX);
      focusY := Clamp(focusY, 0, maximumY);
    }

    method FlushEvents() returns (r: Result<seq<Action>, Error>)
      modifies this`deliveries, buffer
      ensures Outcome(Current(), r) == Flush(old(Current()))
    {
      if buffer.events == [] {
        return Ok([]);
      }
      if focus == localNode {
        var discarded := buffer.Take();
        return Err(InputWhileLocal);
      }
      if focus !in deliveries {
        return Err(UnknownPeer(focus));
      }
      var delivery := deliveries[focus];
      if |delivery.pending| >= MAX_IN_FLIGHT_BATCHES_PER_PEER {
        return Ok([]);
      }
      if delivery.lastSent == U64_MAX {
        return Err(SequenceExhausted(focus));
      }
      var sequence := delivery.lastSent + 1;
      var events := buffer.Take();
      var batch := InputBatch(focusEpoch, sequence, events);
      deliveries :=
        deliveries[focus := PeerDelivery(sequence, delivery.lastAcknowledged, delivery.pending + [sequence])];
      return Ok([Send(focus, InputMessage(batch))]);
    }

    method AdvanceEpoch(recipients: set<NodeId>) returns (r: Result<seq<Action>, Error>)
      modifies this`focusEpoch
      ensures Outcome(Current(), r) == AdvanceEpochAndBroadcast(old(Current()), recipients)
    {
      if focusEpoch == U64_MAX {
        return Err(FocusEpochExhausted);
      }
      focusEpoch := focusEpoch + 1;
      var actions: seq<Action> := [];
      if focus == localNode {
        actions := [ReleaseCapture];
      }
      actions := actions + [Broadcast(recipients, FocusChanged(focusEpoch, focus, LocalPoint(focusX, focusY)))];
      return Ok(actions);
    }

    method MoveFocus(target: NodeId, position: Point) returns (r: Result<seq<Action>, Error>)
      modifies this, buffer
      ensures Outcome(Current(), r) == ChangeFocus(old(Current()), target, position)
    {
      var flushed := FlushEvents();
      if flushed.Err? {
        return flushed;
      }
      if buffer.events != [] {
        return flushed;
      }
      match FindScreen(screens, target) {
        case None => return Err(UnknownPeer(target));
        case Some(screen) =>
          focus := target;
          SetPosition(ClampLocalPosition(screen, position));
          var advanced := AdvanceEpoch(PeerNodes(screens, localNode));
          if advanced.Err? {
            return advanced;
          }
          return Ok(flushed.value + advanced.value);
      }
    }

    method ActivateEdge(edge: Edge, offset: U32) returns (r: Result<seq<Action>, Error>)
      modifies this, buffer
      ensures Outcome(Current(), r) == Activate(old(Current()), edge, offset)
    {
      if focus != localNode {
        return Err(CaptureAlreadyActive(focus));
      }
      match Cross(screens, localNode, edge, offset) {
        case None => return Err(NoAdjacentScreen(edge, offset));
        case Some(transition) => r := MoveFocus(transition.target, transition.localPosition);
      }
    }

    method Observe(event: InputEvent) returns (r: Result<seq<Action>, Error>)
      modifies this`focusX, this`focusY
      ensures Outcome(Current(), r) == ObservePointer(old(Current()), event)
    {
      match event.kind {
        case PointerRelative(dx, dy) =>
          focusX := SaturatingAdd(focusX, dx);
          focusY := SaturatingAdd(focusY, dy);
        case PointerAbsolute(position) => SetPosition(position);
        case _ => return Ok([]);
      }
      match FindScreen(screens, focus) {
        case None => return Err(UnknownPeer(focus));
        case Some(screen) => ClampPosition(screen.bounds.size);
      }
      return Ok([]);
    }

    method AcceptEvent(event: InputEvent) returns (r: Result<seq<Action>, Error>)
      modifies this, buffer
      ensures Outcome(Current(), r) == Accept(old(Current()), event)
    {
      var actions: seq<Action> := [];
      if |buffer.events| >= MAX_INPUT_EVENTS_PER_BATCH && !CanCoalesce(buffer.events, event) {
        var flushed := FlushEvents();
        if flushed.Err? {
          return flushed;
        }
        actions := flushed.value;
        if |buffer.events| >= MAX_INPUT_EVENTS_PER_BATCH {
          return Err(Backpressure(focus, MAX_INPUT_EVENTS_PER_BATCH));
        }
      }
      var observed := Observe(event);
      if observed.Err? {
        return observed;
      }
      var full := buffer.PushEvent(event);
      if full {
        var flushed := FlushEvents();
        if flushed.Err? {
          return flushed;
        }
        actions := actions + flushed.value;
      }
      return Ok(actions);
    }

    method Route(event: InputEvent) returns (r: Result<seq<Action>, Error>)
      modifies this, buffer
      ensures Outcome(Current(), r) == RouteInput(old(Current()), event)
    {
      if focus == localNode {
        return Err(InputWhileLocal);
      }
      match CrossingOf(Current(), event) {
        case Err(error) => return Err(error);
        case Ok(Some(crossing)) =>
          var flushed := FlushEvents();
          if flushed.Err? {
            return flushed;
          }
          var moved := MoveFocus(crossing.0, crossing.1);
          if moved.Err? {
            return moved;
          }
          return Ok(flushed.value + moved.value);
        case Ok(None) => r := AcceptEvent(event);
      }
    }

    /** Pops every pending sequence up to the acknowledged one. */
    method AcknowledgeThrough(peer: NodeId, through: U64) returns (r: Result<nat, Error>)
      modifies this`deliveries
      ensures (Current(), r) == Acknowledge(old(Current()), peer, through)
    {
      if peer !in deliveries {
        return Err(UnknownPeer(peer));
      }
      var delivery := deliveries[peer];
      if through > delivery.lastSent {
        return Err(AcknowledgementBeyondSent(peer, through, delivery.lastSent));
      }
      if through <= delivery.lastAcknowledged {
        return Ok(0);
      }
      var pending := delivery.pending;
      var original := |pending|;
      while pending != [] && pending[0] <= through
        invariant DropThrough(pending, through) == DropThrough(delivery.pending, through)
        invariant |pending| <= original
        decreases |pending|
      {
        pending := pending[1..];
      }
      deliveries := deliveries[peer := PeerDelivery(delivery.lastSent, through, pending)];
      return Ok(original - |pending|);
    }

    method Reset(peer: NodeId) returns (r: Result<(), Error>)
      modifies this`deliveries
      ensures (Current(), r) == ResetPeer(old(Current()), peer)
    {
      if peer !in deliveries {
        return Err(UnknownPeer(peer));
      }
      deliveries := deliveries[peer := NEW_DELIVERY];
      return Ok(());
    }

    method ReturnFocus() returns (r: Result<seq<Action>, Error>)
      modifies this, buffer
      ensures Outcome(Current(), r) == ReturnToLocal(old(Current()))
    {
      if focus == localNode {
        return Ok([]);
      }
      var discarded := buffer.Take();
      match FindScreen(screens, localNode) {
        case None => return Err(LocalNodeMissing(localNode));
        case Some(screen) => r := MoveFocus(localNode, ScreenCenter(screen));
      }
    }

    method Reconcile(topology: seq<ScreenPlacement>) returns (r: Result<seq<Action>, Error>)
      modifies this, buffer
      ensures Outcome(Current(), r) == ReconcileTopology(old(Current()), topology)
    {
      var localScreen := FindScreen(topology, localNode);
      if localScreen.None? {
        return Err(LocalNodeMissing(localNode));
      }
      var flushed := FlushEvents();
      if flushed.Err? {
        return flushed;
      }
      var nextPeers := PeerNodes(topology, localNode);
      var recipients := PeerNodes(screens, localNode) + nextPeers;
      match FindScreen(topology, focus) {
        case None =>
          focus := localNode;
          SetPosition(ScreenCenter(localScreen.value));
        case Some(screen) => ClampPosition(screen.bounds.size);
      }
      screens := topology;
      deliveries := map node | node in nextPeers :: if node in deliveries then deliveries[node] else NEW_DELIVERY;
      var advanced := AdvanceEpoch(recipients);
      if advanced.Err? {
        return advanced;
      }
      return Ok(flushed.value + advanced.value);
    }
  }
}
