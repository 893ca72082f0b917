/** The controller's state and what each of its operations does to it. */
module Controller {
  import opened Base
  import opened Geometry
  import opened Topology
  import opened Input
  import opened Coalesce
  import opened Protocol

  const MICROPIXELS_PER_PIXEL: I64 := 1_000_000
  const MAX_IN_FLIGHT_BATCHES_PER_PEER := 1

  datatype PeerDelivery = PeerDelivery(lastSent: U64, lastAcknowledged: U64, pending: seq<U64>)

  const NEW_DELIVERY := PeerDelivery(0, 0, [])

  datatype State = State(
    screens: seq<ScreenPlacement>,
    local: NodeId,
    focus: NodeId,
    epoch: U64,
    x: I64,
    y: I64,
    buffer: seq<InputEvent>,
    deliveries: map<NodeId, PeerDelivery>)

  // A broadcast carries the set of its recipients: the original lists them in identifier order.
  datatype Action =
    | Send(peer: NodeId, message: Session)
    | Broadcast(peers: set<NodeId>, message: Session)
    | ReleaseCapture

  datatype Error =
    | LocalNodeMissing(node: NodeId)
    | UnknownPeer(node: NodeId)
    | CaptureAlreadyActive(node: NodeId)
    | NoAdjacentScreen(edge: Edge, offset: U32)
    | InputWhileLocal
    | Backpressure(node: NodeId, buffered: nat)
    | SequenceExhausted(node: NodeId)
    | FocusEpochExhausted
    | AcknowledgementBeyondSent(node: NodeId, acknowledged: U64, lastSent: U64)
    | PointerCoordinateOverflow

  datatype Outcome = Outcome(state: State, result: Result<seq<Action>, Error>)

  // ---- Positions ----

  function PeerNodes(screens: seq<ScreenPlacement>, local: NodeId): set<NodeId> {
    set s | s in screens && s.node != local :: s.node
  }

  function OrMaxI32(x: int): I32 {
    match TryI32(x) case Some(v) => v case None => I32_MAX
  }

  function ScreenCenter(screen: ScreenPlacement): Point {
    Point(OrMaxI32(screen.bounds.size.width / 2), OrMaxI32(screen.bounds.size.height / 2))
  }

  function ClampLocalPosition(screen: ScreenPlacement, position: Point): Point {
    Point(Clamp(position.x, 0, OrMaxI32(screen.bounds.size.width - 1)),
          Clamp(position.y, 0, OrMaxI32(screen.bounds.size.height - 1)))
  }

  function LocalPoint(x: int, y: int): Point {
    Point(OrMaxI32(x / MICROPIXELS_PER_PIXEL), OrMaxI32(y / MICROPIXELS_PER_PIXEL))
  }

  function SaturatingMul(x: int, y: int): I64 {
    SaturateI64(x * y)
  }

  function FocusPosition(s: State): Point {
    LocalPoint(s.x, s.y)
  }

  function SetFocusPosition(s: State, position: Point): State {
    s.(x := position.x * MICROPIXELS_PER_PIXEL, y := position.y * MICROPIXELS_PER_PIXEL)
  }

  function ClampFocusPosition(s: State, size: Size): State {
    var maximumX := SaturatingAdd(SaturatingMul(size.width, MICROPIXELS_PER_PIXEL), -1);
    var maximumY := SaturatingAdd(SaturatingMul(size.height, MICROPIXELS_PER_PIXEL), -1);
    s.(x := Clamp(s.x, 0, maximumX), y := Clamp(s.y, 0, maximumY))
  }

  // ---- Operations ----

  function New(screens: seq<ScreenPlacement>, local: NodeId): Result<State, Error> {
    match FindScreen(screens, local)
    case None => Err(LocalNodeMissing(local))
    case Some(screen) =>
      var deliveries := map node | node in PeerNodes(screens, local) :: NEW_DELIVERY;
      Ok(SetFocusPosition(State(screens, local, local, 1, 0, 0, [], deliveries), ScreenCenter(screen)))
  }

  function Flush(s: State): Outcome {
    if s.buffer == [] then Outcome(s, Ok([]))
    else if s.focus == s.local then Outcome(s.(buffer := []), Err(InputWhileLocal))
    else if s.focus !in s.deliveries then Outcome(s, Err(UnknownPeer(s.focus)))
    else
      var delivery := s.deliveries[s.focus];
      if |delivery.pending| >= MAX_IN_FLIGHT_BATCHES_PER_PEER then Outcome(s, Ok([]))
      else if delivery.lastSent == U64_MAX then Outcome(s, Err(SequenceExhausted(s.focus)))
      else
        var sequence := delivery.lastSent + 1;
        var sent := delivery.(lastSent := sequence, pending := delivery.pending + [sequence]);
        Outcome(s.(buffer := [], deliveries := s.deliveries[s.focus := sent]),
                Ok([Send(s.focus, InputMessage(InputBatch(s.epoch, sequence, s.buffer)))]))
  }

  function AdvanceEpochAndBroadcast(s: State, recipients: set<NodeId>): Outcome {
    if s.epoch == U64_MAX then Outcome(s, Err(FocusEpochExhausted))
    else
      var next := s.(epoch := s.epoch + 1);
      var release := if s.focus == s.local then [ReleaseCapture] else [];
      Outcome(next, Ok(release + [Broadcast(recipients, FocusChanged(next.epoch, s.focus, FocusPosition(s)))]))
  }

  // Actions already collected come first; an error discards them.
  function After(actions: seq<Action>, outcome: Outcome): Outcome {
    match outcome.result
    case Ok(more) => Outcome(outcome.state, Ok(actions + more))
    case Err(_) => outcome
  }

  function ChangeFocus(s: State, target: NodeId, position: Point): Outcome {
    var flushed := Flush(s);
    if flushed.result.Err? || flushed.state.buffer != [] then flushed
    else match FindScreen(s.screens, target)
      case None => Outcome(flushed.state, Err(UnknownPeer(target)))
      case Some(screen) =>
        var moved := SetFocusPosition(flushed.state.(focus := target), ClampLocalPosition(screen, position));
        After(flushed.result.value, AdvanceEpochAndBroadcast(moved, PeerNodes(s.screens, s.local)))
  }

  function Activate(s: State, edge: Edge, offset: U32): Outcome {
    if s.focus != s.local then Outcome(s, Err(CaptureAlreadyActive(s.focus)))
    else match Cross(s.screens, s.local, edge, offset)
      case None => Outcome(s, Err(NoAdjacentScreen(edge, offset)))
      case Some(transition) => ChangeFocus(s, transition.target, transition.localPosition)
  }

  function ExitEdge(x: int, y: int, width: int, height: int): Edge {
    if x < 0 then Left else if x >= width then Right else if y < 0 then Top else Bottom
  }

  function EnterAt(entry: Point, size: Size, overshoot: (I64, I64)): Point {
    var targetX := SaturatingAdd(SaturatingMul(entry.x, MICROPIXELS_PER_PIXEL), overshoot.0);
    var targetY := SaturatingAdd(SaturatingMul(entry.y, MICROPIXELS_PER_PIXEL), overshoot.1);
    var maximumX := SaturatingAdd(SaturatingMul(size.width, MICROPIXELS_PER_PIXEL), -1);
    var maximumY := SaturatingAdd(SaturatingMul(size.height, MICROPIXELS_PER_PIXEL), -1);
    LocalPoint(Clamp(targetX, 0, maximumX), Clamp(targetY, 0, maximumY))
  }

  function LeaveThrough(s: State, edge: Edge, along: U32, overshoot: (I64, I64)): Result<Option<(NodeId, Point)>, Error>
  {
    match Cross(s.screens, s.focus, edge, along)
    case None => Ok(None)
    case Some(transition) =>
      match FindScreen(s.screens, transition.target)
      case None => Err(UnknownPeer(transition.target))
      case Some(destination) =>
        Ok(Some((transition.target, EnterAt(transition.localPosition, destination.bounds.size, overshoot))))
  }

  // How far beyond the crossed edge the motion goes, in micropixels.
  function Overshoot(edge: Edge, x: I64, y: I64, width: I64, height: I64): (I64, I64) {
    match edge
    case Left => (x, 0)
    case Right => (SaturateI64(x - width), 0)
    case Top => (0, y)
    case Bottom => (0, SaturateI64(y - height))
  }

  // Where a relative motion would take the pointer: a node and a local pixel, or nowhere.
  function PointerDestination(s: State, dx: I64, dy: I64): Result<Option<(NodeId, Point)>, Error> {
    match FindScreen(s.screens, s.focus)
    case None => Err(UnknownPeer(s.focus))
    case Some(current) =>
      var x, y := SaturatingAdd(s.x, dx), SaturatingAdd(s.y, dy);
      var width := SaturatingMul(current.bounds.size.width, MICROPIXELS_PER_PIXEL);
      var height := SaturatingMul(current.bounds.size.height, MICROPIXELS_PER_PIXEL);
      if 0 <= x < width && 0 <= y < height then Ok(Some((current.node, LocalPoint(x, y))))
      else
        var edge := ExitEdge(x, y, width, height);
        var offset := if edge.Vertical() then Clamp(y, 0, SaturatingAdd(height, -1)) / MICROPIXELS_PER_PIXEL
                      else Clamp(x, 0, SaturatingAdd(width, -1)) / MICROPIXELS_PER_PIXEL;
        match TryU32(offset)
        case None => Err(PointerCoordinateOverflow)
        case Some(along) => LeaveThrough(s, edge, along, Overshoot(edge, x, y, width, height))
  }

  function ObservePointer(s: State, event: InputEvent): Outcome {
    var moved := match event.kind
      case PointerRelative(dx, dy) => s.(x := SaturatingAdd(s.x, dx), y := SaturatingAdd(s.y, dy))
      case PointerAbsolute(position) => SetFocusPosition(s, position)
      case _ => s;
    if !event.kind.Motion() then Outcome(s, Ok([]))
    else match FindScreen(s.screens, s.focus)
      case None => Outcome(moved, Err(UnknownPeer(s.focus)))
      case Some(screen) => Outcome(ClampFocusPosition(moved, screen.bounds.size), Ok([]))
  }

  // The buffering half of routing, for an event that stays on the focused node.
  function Accept(s: State, event: InputEvent): Outcome {
    var crowded := |s.buffer| >= MAX_INPUT_EVENTS_PER_BATCH && !CanCoalesce(s.buffer, event);
    var flushed := if crowded then Flush(s) else Outcome(s, Ok([]));
    if flushed.result.Err? then flushed
    else if crowded && |flushed.state.buffer| >= MAX_INPUT_EVENTS_PER_BATCH then
      Outcome(flushed.state, Err(Backpressure(s.focus, MAX_INPUT_EVENTS_PER_BATCH)))
    else
      var observed := ObservePointer(flushed.state, event);
      if observed.result.Err? then observed
      else
        var pushed := observed.state.(buffer := Push(observed.state.buffer, event));
        if |pushed.buffer| >= MAX_INPUT_EVENTS_PER_BATCH then After(flushed.result.value, Flush(pushed))
        else Outcome(pushed, flushed.result)
  }

  // The node a motion would cross to, when it differs from the focused one.
  function CrossingOf(s: State, event: InputEvent): Result<Option<(NodeId, Point)>, Error> {
    match event.kind
    case PointerRelative(dx, dy) =>
      var destination := PointerDestination(s, dx, dy);
      if destination.Ok? && destination.value.Some? && destination.value.value.0 == s.focus then Ok(None)
        else destination
    case _ => Ok(None)
  }

  function RouteInput(s: State, event: InputEvent): Outcome {
    if s.focus == s.local then Outcome(s, Err(InputWhileLocal))
    else match CrossingOf(s, event)
      case Err(error) => Outcome(s, Err(error))
      case Ok(Some((target, position))) =>
        var flushed := Flush(s);
        if flushed.result.Err? then flushed
        else After(flushed.result.value, ChangeFocus(flushed.state, target, position))
      case Ok(None) => Accept(s, event)
  }

  function DropThrough(pending: seq<U64>, through: U64): seq<U64> {
    if pending != [] && pending[0] <= through then DropThrough(pending[1..], through) else pending
  }

  lemma {:induction false} DropThroughShrinks(pending: seq<U64>, through: U64)
    ensures |DropThrough(pending, through)| <= |pending|
  {
    if pending != [] && pending[0] <= through {
      DropThroughShrinks(pending[1..], through);
    }
  }

  // The number of batches an acknowledgement frees.
  function Acknowledge(s: State, peer: NodeId, through: U64): (State, Result<nat, Error>) {
    if peer !in s.deliveries then (s, Err(UnknownPeer(peer)))
    else
      var delivery := s.deliveries[peer];
      if through > delivery.lastSent then (s, Err(AcknowledgementBeyondSent(peer, through, delivery.lastSent)))
      else if through <= delivery.lastAcknowledged then (s, Ok(0))
      else
        var left := DropThrough(delivery.pending, through);
        DropThroughShrinks(delivery.pending, through);
        (s.(deliveries := s.deliveries[peer := delivery.(lastAcknowledged := through, pending := left)]),
         Ok(|delivery.pending| - |left|))
  }

  function ResetPeer(s: State, peer: NodeId): (State, Result<(), Error>) {
    if peer !in s.deliveries then (s, Err(UnknownPeer(peer)))
    else (s.(deliveries := s.deliveries[peer := NEW_DELIVERY]), Ok(()))
  }

  function ReturnToLocal(s: State): Outcome {
    if s.focus == s.local then Outcome(s, Ok([]))
    else
      var emptied := s.(buffer := []);
      match FindScreen(s.screens, s.local)
      case None => Outcome(emptied, Err(LocalNodeMissing(s.local)))
      case Some(screen) => ChangeFocus(emptied, s.local, ScreenCenter(screen))
  }

  function ReconcileTopology(s: State, screens: seq<ScreenPlacement>): Outcome {
    match FindScreen(screens, s.local)
    case None => Outcome(s, Err(LocalNodeMissing(s.local)))
    case Some(localScreen) =>
      var flushed := Flush(s);
      if flushed.result.Err? then flushed
      else
        var nextPeers := PeerNodes(screens, s.local);
        var recipients := PeerNodes(s.screens, s.local) + nextPeers;
        var focused := match FindScreen(screens, s.focus)
          case None => SetFocusPosition(flushed.state.(focus := s.local), ScreenCenter(localScreen))
          case Some(screen) => ClampFocusPosition(flushed.state, screen.bounds.size);
        var deliveries := map node | node in nextPeers ::
          if node in focused.deliveries then focused.deliveries[node] else NEW_DELIVERY;
        After(flushed.result.value,
              AdvanceEpochAndBroadcast(focused.(screens := screens, deliveries := deliveries), recipients))
  }
}
