/**
 * One controller, its agents, and a first-in first-out channel each way per agent. An agent takes no new
 * control message while a batch awaits application.
 */
module Delivery {
  import opened Base
  import opened Geometry
  import opened Topology
  import opened Input
  import opened Protocol
  import opened Controller
  import opened ControllerInvariant
  import Agent

  // `sent` and `applied` record the batches handed to the channel and confirmed by the agent.
  datatype Link = Link(
    toAgent: seq<Session>,
    agent: Agent.State,
    toController: seq<Session>,
    sent: seq<InputBatch>,
    applied: seq<InputBatch>)

  datatype Focus = Focus(target: NodeId, position: Point)

  // `epochs` records what was announced: entry i belongs to epoch i + 2.
  datatype Net = Net(links: map<NodeId, Link>, epochs: seq<Focus>)

  datatype System = System(controller: State, net: Net)

  // ---- Channels ----

  function Enqueue(link: Link, message: Session): Link {
    link.(toAgent := link.toAgent + [message], sent := if message.InputMessage? then link.sent + [message.batch]
      else link.sent)
  }

  function Emit(net: Net, action: Action): Net {
    match action
    case ReleaseCapture => net
    case Send(peer, message) =>
      if peer in net.links then net.(links := net.links[peer := Enqueue(net.links[peer], message)]) else net
    case Broadcast(peers, message) =>
      Net(map node | node in net.links :: if node in peers then Enqueue(net.links[node], message) else net.links[node],
          if message.FocusChanged? then net.epochs + [Focus(message.target, message.entryPosition)] else net.epochs)
  }

  function EmitAll(net: Net, actions: seq<Action>): Net
    decreases |actions|
  {
    if actions == [] then net else EmitAll(Emit(net, actions[0]), actions[1..])
  }

  lemma {:induction false} EmitAllJoins(net: Net, a: seq<Action>, b: seq<Action>)
    ensures EmitAll(net, a + b) == EmitAll(EmitAll(net, a), b)
    decreases |a|
  {
    if a == [] {
      assert a + b == b;
    } else {
      EmitAllJoins(Emit(net, a[0]), a[1..], b);
      assert (a + b)[1..] == a[1..] + b;
    }
  }

  // The agent's replies that travel back.
  function Replies(actions: seq<Agent.Action>): seq<Session> {
    if actions == [] then []
    else (if actions[0].Send? then [actions[0].message] else []) + Replies(actions[1..])
  }

  // ---- Steps ----

  datatype Step =
    | ActivateEdge(edge: Edge, offset: U32)
    | Route(event: InputEvent)
    | FlushBuffer
    | ReturnControl
    | Rearrange(screens: seq<ScreenPlacement>)
    | SendAside(node: NodeId, message: Session)
    | ToAgent(node: NodeId)
    | Applied(node: NodeId)
    | ToController(node: NodeId)

  // Control traffic that carries neither focus nor input.
  predicate Aside(message: Session) {
    message.Heartbeat? || message.HeartbeatAcknowledged? || message.Clipboard?
  }

  function PeerSize(screens: seq<ScreenPlacement>, node: NodeId): Option<Size> {
    match FindScreen(screens, node) case None => None case Some(screen) => Some(screen.bounds.size)
  }

  // A new arrangement of the same nodes in which every peer keeps its desktop size.
  ghost predicate SamePeers(s: State, screens: seq<ScreenPlacement>) {
    && WellFormed(screens) && FindScreen(screens, s.local).Some?
    && PeerNodes(screens, s.local) == PeerNodes(s.screens, s.local)
    && forall node :: node in PeerNodes(screens, s.local) ==> PeerSize(screens, node) == PeerSize(s.screens, node)
  }

  function Operation(c: State, step: Step): Outcome
    requires step.ActivateEdge? || step.Route? || step.FlushBuffer? || step.ReturnControl? || step.Rearrange?
  {
    match step
    case ActivateEdge(edge, offset) => Activate(c, edge, offset)
    case Route(event) => RouteInput(c, event)
    case FlushBuffer => Flush(c)
    case ReturnControl => ReturnToLocal(c)
    case Rearrange(screens) => ReconcileTopology(c, screens)
  }

  // Whether the environment may take a step; whether it then succeeds is what has to be shown.
  ghost predicate Enabled(s: System, step: Step) {
    match step
    case Rearrange(screens) => SamePeers(s.controller, screens)
    case SendAside(node, message) => node in s.net.links && Aside(message)
    case ToAgent(node) =>
      node in s.net.links && s.net.links[node].toAgent != [] && s.net.links[node].agent.pendingBatch.None?
    case Applied(node) => node in s.net.links && s.net.links[node].agent.pendingBatch.Some?
    case ToController(node) => node in s.net.links && s.net.links[node].toController != []
    case _ => true
  }

  function Handled(link: Link): Agent.Outcome
    requires link.toAgent != []
  {
    Agent.Handle(link.agent, link.toAgent[0])
  }

  function Confirmed(link: Link): Agent.Outcome
    requires link.agent.pendingBatch.Some?
  {
    Agent.ConfirmApplied(link.agent, link.agent.pendingBatch.value.sequence)
  }

  function Received(link: Link): Link
    requires link.toAgent != [] && Handled(link).result.Ok?
  {
    var r := Handled(link);
    link.(toAgent := link.toAgent[1..], agent := r.state, toController := link.toController + Replies(r.result.value))
  }

  function Completed(link: Link): Link
    requires link.agent.pendingBatch.Some? && Confirmed(link).result.Ok?
  {
    var r := Confirmed(link);
    link.(agent := r.state, toController := link.toController + Replies(r.result.value),
          applied := link.applied + [link.agent.pendingBatch.value])
  }

  function Acknowledged(c: State, node: NodeId, link: Link): (State, Result<nat, Error>)
    requires link.toController != []
  {
    match link.toController[0]
    case InputAcknowledged(through) => Acknowledge(c, node, through)
    case _ => (c, Ok(0))
  }

  // A failing operation ends the run, so only successful steps have a successor.
  ghost predicate Next(s: System, step: Step, t: System) {
    Enabled(s, step) &&
    match step
    case SendAside(node, message) =>
      t == s.(net := s.net.(links := s.net.links[node := Enqueue(s.net.links[node], message)]))
    case ToAgent(node) =>
      var link := s.net.links[node];
      Handled(link).result.Ok? && t == s.(net := s.net.(links := s.net.links[node := Received(link)]))
    case Applied(node) =>
      var link := s.net.links[node];
      Confirmed(link).result.Ok? && t == s.(net := s.net.(links := s.net.links[node := Completed(link)]))
    case ToController(node) =>
      var link := s.net.links[node];
      var (c, r) := Acknowledged(s.controller, node, link);
      && r.Ok?
      && t == System(c, s.net.(links := s.net.links[node := link.(toController := link.toController[1..])]))
    case _ =>
      var r := Operation(s.controller, step);
      r.result.Ok? && t == System(r.state, EmitAll(s.net, r.result.value))
  }

  ghost predicate Init(s: System) {
    && WellFormed(s.controller.screens)
    && New(s.controller.screens, s.controller.local) == Ok(s.controller)
    && s.net.epochs == []
    && s.net.links.Keys == PeerNodes(s.controller.screens, s.controller.local)
    && forall node :: node in s.net.links ==>
         PeerSize(s.controller.screens, node).Some?
         && s.net.links[node] == Link([], Agent.New(node, PeerSize(s.controller.screens, node).value), [], [], [])
  }

  ghost predicate Run(states: seq<System>, steps: seq<Step>) {
    && |states| == |steps| + 1
    && Init(states[0])
    && forall i :: 0 <= i < |steps| ==> Next(states[i], steps[i], states[i + 1])
  }

  // ---- The invariant of one link ----

  // What an agent will have seen of focus and input.
  datatype View = View(highest: int, active: Option<U64>, received: nat)

  function AgentView(a: Agent.State): View {
    View(a.highestFocusEpoch, a.activeFocusEpoch, a.lastAppliedSequence + if a.pendingBatch.Some? then 1 else 0)
  }

  // What the controller believes the agent will have seen once its channel is empty.
  function ControllerView(epoch: U64, focus: NodeId, delivery: PeerDelivery, node: NodeId): View {
    View(if epoch == 1 then 0 else epoch, if focus == node then Some(epoch) else None, delivery.lastSent)
  }

  predicate Announced(epochs: seq<Focus>, epoch: int, target: NodeId, position: Point) {
    2 <= epoch < |epochs| + 2 && epochs[epoch - 2] == Focus(target, position)
  }

  // What one message does to a view.
  function Seen(node: NodeId, v: View, message: Session): View {
    match message
    case FocusChanged(epoch, target, _) => View(epoch, if target == node then Some(epoch) else None, v.received)
    case InputMessage(_) => v.(received := v.received + 1)
    case _ => v
  }

  // A message an agent at view `v` takes without error.
  predicate Welcome(node: NodeId, size: Size, epochs: seq<Focus>, sent: seq<InputBatch>, v: View, message: Session) {
    match message
    case FocusChanged(epoch, target, position) =>
      epoch > v.highest && Announced(epochs, epoch, target, position) &&
        (target == node ==> Agent.ContainsLocal(size, position))
    case InputMessage(batch) =>
      v.received < |sent| && batch == sent[v.received] && v.active == Some(batch.focusEpoch) &&
        v.highest == batch.focusEpoch
    case _ => Aside(message)
  }

  // Feeding the messages to an agent at view `v` raises no error and ends at view `end`.
  ghost predicate Leads(node: NodeId, size: Size, epochs: seq<Focus>, sent: seq<InputBatch>, v: View,
          messages: seq<Session>, end: View)
    decreases |messages|
  {
    if messages == [] then v == end
    else
      && Welcome(node, size, epochs, sent, v, messages[0])
      && Leads(node, size, epochs, sent, Seen(node, v, messages[0]), messages[1..], end)
  }

  // The acknowledgements under way continue where the controller stopped and end at `last`.
  ghost predicate AcksLead(acknowledged: int, messages: seq<Session>, last: int)
    decreases |messages|
  {
    if messages == [] then acknowledged == last
    else match messages[0]
      case InputAcknowledged(through) => through == acknowledged + 1 && AcksLead(acknowledged + 1, messages[1..], last)
      case _ => AcksLead(acknowledged, messages[1..], last)
  }

  // A batch numbered by its position, of a focused epoch whose target is this node.
  predicate SentOk(node: NodeId, epochs: seq<Focus>, sent: seq<InputBatch>, i: nat)
    requires i < |sent|
  {
    && sent[i].sequence == i + 1
    && 0 < |sent[i].events| <= MAX_INPUT_EVENTS_PER_BATCH
    && 2 <= sent[i].focusEpoch < |epochs| + 2
    && epochs[sent[i].focusEpoch - 2].target == node
  }

  ghost predicate LinkOk(node: NodeId, size: Size, epochs: seq<Focus>, epoch: U64, focus: NodeId,
          delivery: PeerDelivery, link: Link)
  {
    var a := link.agent;
    && Agent.Inv(a) && !a.closed && a.localNode == node && a.displaySize == size
    && |link.sent| == delivery.lastSent
    && (forall i :: 0 <= i < |link.sent| ==> SentOk(node, epochs, link.sent, i))
    && a.lastAppliedSequence <= |link.sent| && link.applied == link.sent[..a.lastAppliedSequence]
    && (a.pendingBatch.Some? ==>
         a.lastAppliedSequence < |link.sent| && a.pendingBatch.value == link.sent[a.lastAppliedSequence])
    && (a.lastFocus.Some? ==>
         Announced(epochs, a.lastFocus.value.epoch, a.lastFocus.value.target, a.lastFocus.value.entryPosition))
    && (a.lastFocus.None? ==> a.highestFocusEpoch == 0)
    && Leads(node, size, epochs, link.sent, AgentView(a), link.toAgent, ControllerView(epoch, focus, delivery, node))
    && AcksLead(delivery.lastAcknowledged, link.toController, a.lastAppliedSequence)
  }

  ghost predicate LinkIn(s: System, node: NodeId) {
    && node in s.net.links && node in s.controller.deliveries
    && PeerSize(s.controller.screens, node).Some?
    && LinkOk(node, PeerSize(s.controller.screens, node).value, s.net.epochs, s.controller.epoch, s.controller.focus,
              s.controller.deliveries[node], s.net.links[node])
  }

  ghost predicate EpochsOk(c: State, epochs: seq<Focus>) {
    && |epochs| == c.epoch - 1
    && c.focus == if epochs == [] then c.local else epochs[|epochs| - 1].target
  }

  ghost predicate SystemInv(s: System) {
    && Inv(s.controller)
    && s.net.links.Keys == s.controller.deliveries.Keys
    && EpochsOk(s.controller, s.net.epochs)
    && forall node :: node in s.net.links ==> LinkIn(s, node)
  }

  // ---- Channel lemmas ----

  lemma {:induction false} LeadsAppend(node: NodeId, size: Size, epochs: seq<Focus>, sent: seq<InputBatch>, v: View,
          messages: seq<Session>, mid: View, message: Session)
    requires Leads(node, size, epochs, sent, v, messages, mid) && Welcome(node, size, epochs, sent, mid, message)
    ensures Leads(node, size, epochs, sent, v, messages + [message], Seen(node, mid, message))
    decreases |messages|
  {
    if messages == [] {
      assert messages + [message] == [message];
    } else {
      assert (messages + [message])[1..] == messages[1..] + [message];
      LeadsAppend(node, size, epochs, sent, Seen(node, v, messages[0]), messages[1..], mid, message);
    }
  }

  lemma {:induction false} LeadsGrow(node: NodeId, size: Size, epochs: seq<Focus>, epochs': seq<Focus>,
          sent: seq<InputBatch>, sent': seq<InputBatch>, v: View, messages: seq<Session>, end: View)
    requires Leads(node, size, epochs, sent, v, messages, end) && epochs <= epochs' && sent <= sent'
    ensures Leads(node, size, epochs', sent', v, messages, end)
    decreases |messages|
  {
    if messages != [] {
      LeadsGrow(node, size, epochs, epochs', sent, sent', Seen(node, v, messages[0]), messages[1..], end);
    }
  }

  lemma {:induction false} AcksAppend(acknowledged: int, messages: seq<Session>, last: int, message: Session)
    requires AcksLead(acknowledged, messages, last)
    requires message.InputAcknowledged? ==> message.throughSequence == last + 1
    ensures AcksLead(acknowledged, messages + [message], if message.InputAcknowledged? then last + 1 else last)
    decreases |messages|
  {
    if messages == [] {
      assert messages + [message] == [message];
    } else {
      assert (messages + [message])[1..] == messages[1..] + [message];
      AcksAppend(if messages[0].InputAcknowledged? then acknowledged + 1
        else acknowledged, messages[1..], last, message);
    }
  }

  // ---- Each step keeps each link ----

  lemma {:induction false} NoReplies(actions: seq<Agent.Action>)
    requires forall a :: a in actions ==> !a.Send?
    ensures Replies(actions) == []
  {
    if actions != [] {
      NoReplies(actions[1..]);
    }
  }

  lemma LinkReceivesFocus(node: NodeId, size: Size, epochs: seq<Focus>, epoch: U64, focus: NodeId,
          delivery: PeerDelivery, link: Link)
    requires LinkOk(node, size, epochs, epoch, focus, delivery, link)
    requires link.toAgent != [] && link.agent.pendingBatch.None? && link.toAgent[0].FocusChanged?
    ensures Handled(link).result.Ok? && LinkOk(node, size, epochs, epoch, focus, delivery, Received(link))
  {
    hide AcksLead, Announced, Replies;
    var r := Handled(link);
    assert r.result.Ok?;
    NoReplies(r.result.value);
    assert link.toController + [] == link.toController;
  }

  lemma LinkReceivesInput(node: NodeId, size: Size, epochs: seq<Focus>, epoch: U64, focus: NodeId,
          delivery: PeerDelivery, link: Link)
    requires LinkOk(node, size, epochs, epoch, focus, delivery, link)
    requires link.toAgent != [] && link.agent.pendingBatch.None? && link.toAgent[0].InputMessage?
    ensures Handled(link).result.Ok? && LinkOk(node, size, epochs, epoch, focus, delivery, Received(link))
  {
    hide AcksLead, Announced, Replies;
    var r := Handled(link);
    assert SentOk(node, epochs, link.sent, link.agent.lastAppliedSequence);
    assert r.result == Ok([Agent.ApplyInput(link.toAgent[0].batch)]);
    NoReplies(r.result.value);
    assert link.toController + [] == link.toController;
  }

  lemma LinkReceivesAside(node: NodeId, size: Size, epochs: seq<Focus>, epoch: U64, focus: NodeId,
          delivery: PeerDelivery, link: Link)
    requires LinkOk(node, size, epochs, epoch, focus, delivery, link)
    requires link.toAgent != [] && Aside(link.toAgent[0])
    ensures Handled(link).result.Ok? && LinkOk(node, size, epochs, epoch, focus, delivery, Received(link))
  {
    var r := Handled(link);
    if link.toAgent[0].Heartbeat? {
      var reply := HeartbeatAcknowledged(link.toAgent[0].nonce);
      assert Replies(r.result.value) == [reply];
      AcksAppend(delivery.lastAcknowledged, link.toController, link.agent.lastAppliedSequence, reply);
    } else {
      NoReplies(r.result.value);
      assert link.toController + [] == link.toController;
    }
  }

  lemma LinkReceives(node: NodeId, size: Size, epochs: seq<Focus>, epoch: U64, focus: NodeId, delivery: PeerDelivery,
          link: Link)
    requires LinkOk(node, size, epochs, epoch, focus, delivery, link)
    requires link.toAgent != [] && link.agent.pendingBatch.None?
    ensures Handled(link).result.Ok? && LinkOk(node, size, epochs, epoch, focus, delivery, Received(link))
  {
    if link.toAgent[0].FocusChanged? {
      LinkReceivesFocus(node, size, epochs, epoch, focus, delivery, link);
    } else if link.toAgent[0].InputMessage? {
      LinkReceivesInput(node, size, epochs, epoch, focus, delivery, link);
    } else {
      LinkReceivesAside(node, size, epochs, epoch, focus, delivery, link);
    }
  }

  lemma LinkConfirms(node: NodeId, size: Size, epochs: seq<Focus>, epoch: U64, focus: NodeId, delivery: PeerDelivery,
          link: Link)
    requires LinkOk(node, size, epochs, epoch, focus, delivery, link)
    requires link.agent.pendingBatch.Some?
    ensures Confirmed(link).result.Ok? && LinkOk(node, size, epochs, epoch, focus, delivery, Completed(link))
  {
    var r := Confirmed(link);
    var sequence := link.agent.pendingBatch.value.sequence;
    AcksAppend(delivery.lastAcknowledged, link.toController, link.agent.lastAppliedSequence,
      InputAcknowledged(sequence));
    assert Replies(r.result.value) == [InputAcknowledged(sequence)];
  }

  lemma {:induction false} AcksBound(acknowledged: int, messages: seq<Session>, last: int)
    requires AcksLead(acknowledged, messages, last)
    ensures acknowledged <= last
    decreases |messages|
  {
    if messages != [] {
      AcksBound(if messages[0].InputAcknowledged? then acknowledged + 1 else acknowledged, messages[1..], last);
    }
  }

  lemma LinkAcknowledges(node: NodeId, size: Size, epochs: seq<Focus>, epoch: U64, focus: NodeId,
          delivery: PeerDelivery, link: Link)
    requires LinkOk(node, size, epochs, epoch, focus, delivery, link) && DeliveryOk(delivery)
    requires link.toController != []
    ensures var message := link.toController[0];
            var left := link.(toController := link.toController[1..]);
            if message.InputAcknowledged? then
              && delivery.lastAcknowledged + 1 == message.throughSequence == delivery.lastSent
              && LinkOk(node, size, epochs, epoch, focus, PeerDelivery(delivery.lastSent, delivery.lastSent, []), left)
            else LinkOk(node, size, epochs, epoch, focus, delivery, left)
  {
    if link.toController[0].InputAcknowledged? {
      AcksBound(delivery.lastAcknowledged + 1, link.toController[1..], link.agent.lastAppliedSequence);
    }
  }

  lemma LinkSendsAside(node: NodeId, size: Size, epochs: seq<Focus>, epoch: U64, focus: NodeId, delivery: PeerDelivery,
          link: Link, message: Session)
    requires LinkOk(node, size, epochs, epoch, focus, delivery, link) && Aside(message)
    ensures LinkOk(node, size, epochs, epoch, focus, delivery, Enqueue(link, message))
  {
    LeadsAppend(node, size, epochs, link.sent, AgentView(link.agent), link.toAgent,
      ControllerView(epoch, focus, delivery, node), message);
  }

  lemma LinkSendsBatch(node: NodeId, size: Size, epochs: seq<Focus>, epoch: U64, delivery: PeerDelivery, link: Link,
          batch: InputBatch)
    requires LinkOk(node, size, epochs, epoch, node, delivery, link) && delivery.lastSent < U64_MAX
    requires 2 <= epoch == |epochs| + 1 && epochs[epoch - 2].target == node
    requires batch.focusEpoch == epoch && batch.sequence == delivery.lastSent + 1
    requires 0 < |batch.events| <= MAX_INPUT_EVENTS_PER_BATCH
    ensures LinkOk(node, size, epochs, epoch, node,
            PeerDelivery(batch.sequence, delivery.lastAcknowledged, [batch.sequence]),
                   Enqueue(link, InputMessage(batch)))
  {
    var sent := link.sent + [batch];
    var end := ControllerView(epoch, node, delivery, node);
    LeadsGrow(node, size, epochs, epochs, link.sent, sent, AgentView(link.agent), link.toAgent, end);
    LeadsAppend(node, size, epochs, sent, AgentView(link.agent), link.toAgent, end, InputMessage(batch));
    forall i | 0 <= i < |sent| ensures SentOk(node, epochs, sent, i) {
      if i < |link.sent| {
        assert SentOk(node, epochs, link.sent, i);
      }
    }
  }

  lemma LinkAnnounces(node: NodeId, size: Size, epochs: seq<Focus>, epoch: U64, focus: NodeId, delivery: PeerDelivery,
          link: Link, next: Focus)
    requires LinkOk(node, size, epochs, epoch, focus, delivery, link)
    requires 1 <= epoch == |epochs| + 1 && epoch < U64_MAX
    requires next.target == node ==> Agent.ContainsLocal(size, next.position)
    ensures LinkOk(node, size, epochs + [next], epoch + 1, next.target, delivery,
                   Enqueue(link, FocusChanged(epoch + 1, next.target, next.position)))
  {
    var epochs' := epochs + [next];
    var end := ControllerView(epoch, focus, delivery, node);
    LeadsGrow(node, size, epochs, epochs', link.sent, link.sent, AgentView(link.agent), link.toAgent, end);
    LeadsAppend(node, size, epochs', link.sent, AgentView(link.agent), link.toAgent, end,
      FocusChanged(epoch + 1, next.target, next.position));
    forall i | 0 <= i < |link.sent| ensures SentOk(node, epochs', link.sent, i) {
      assert SentOk(node, epochs, link.sent, i);
    }
  }

  // ---- Each primitive of a controller operation keeps the system ----

  lemma StaysKeeps(s: System, c: State)
    requires SystemInv(s) && Stays(s.controller, c)
    ensures SystemInv(System(c, s.net))
  {
    hide Inv, LinkOk, PeerSize;
    forall node | node in s.net.links ensures LinkIn(System(c, s.net), node) {
      assert LinkIn(s, node);
    }
  }

  lemma DeliveryKnown(c: State, node: NodeId)
    requires Inv(c) && node in c.deliveries
    ensures DeliveryOk(c.deliveries[node]) && node != c.local && FindScreen(c.screens, node).Some?
  {
    PeerNodesAreScreens(c.screens, c.local, node);
  }

  lemma EmitOne(net: Net, action: Action)
    ensures EmitAll(net, [action]) == Emit(net, action)
  {
    assert [action][1..] == [];
    assert EmitAll(Emit(net, action), []) == Emit(net, action);
  }

  lemma SendsKeeps(s: System, c: State, actions: seq<Action>)
    requires SystemInv(s) && Sends(s.controller, c, actions)
    ensures SystemInv(System(c, EmitAll(s.net, actions)))
  {
    hide LinkOk, PeerSize, Sound;
    var peer := s.controller.focus;
    var net := EmitAll(s.net, actions);
    EmitOne(s.net, actions[0]);
    assert actions == [actions[0]];
    assert LinkIn(s, peer);
    var batch := actions[0].message.batch;
    BufferBound(s.controller);
    LinkSendsBatch(peer, PeerSize(s.controller.screens, peer).value, s.net.epochs, s.controller.epoch,
                   s.controller.deliveries[peer], s.net.links[peer], batch);
    DeliveryKnown(s.controller, peer);
    forall node | node in net.links ensures LinkIn(System(c, net), node) {
      assert LinkIn(s, node);
    }
  }

  // The arrangement may change, but not the peers or their sizes.
  ghost predicate SameDesktops(a: State, b: State) {
    && b.local == a.local
    && PeerNodes(a.screens, a.local) == PeerNodes(b.screens, b.local)
    && forall node :: node in PeerNodes(a.screens, a.local) ==> PeerSize(b.screens, node) == PeerSize(a.screens, node)
  }

  lemma EmitBroadcast(net: Net, release: bool, peers: set<NodeId>, message: Session)
    requires net.links.Keys == peers && message.FocusChanged?
    ensures EmitAll(net, (if release then [ReleaseCapture] else []) + [Broadcast(peers, message)])
            == Net(map node | node in net.links ::
              Enqueue(net.links[node], message), net.epochs + [Focus(message.target, message.entryPosition)])
  {
    var tail := [Broadcast(peers, message)];
    assert tail[1..] == [] && ([ReleaseCapture] + tail)[1..] == tail && [] + tail == tail;
    assert Emit(net, tail[0]).links == map node | node in net.links :: Enqueue(net.links[node], message);
    assert EmitAll(net, tail) == Emit(net, tail[0]);
  }

  lemma BroadcastReachesLink(s: System, c: State, node: NodeId, net: Net)
    requires LinkIn(s, node) && EpochsOk(s.controller, s.net.epochs) && 1 <= s.controller.epoch < U64_MAX
    requires c.epoch == s.controller.epoch + 1
    requires node in c.deliveries && c.deliveries[node] == s.controller.deliveries[node]
    requires PeerSize(c.screens, node) == PeerSize(s.controller.screens, node)
    requires c.focus == node ==>
             PeerSize(c.screens, node).Some? && InsideSize(PeerSize(c.screens, node).value, FocusPosition(c))
    requires node in net.links && net.epochs == s.net.epochs + [Focus(c.focus, FocusPosition(c))]
    requires net.links[node] == Enqueue(s.net.links[node], FocusChanged(c.epoch, c.focus, FocusPosition(c)))
    ensures LinkIn(System(c, net), node)
  {
    hide LinkOk, FocusPosition, PeerSize;
    LinkAnnounces(node, PeerSize(s.controller.screens, node).value, s.net.epochs, s.controller.epoch,
      s.controller.focus, s.controller.deliveries[node], s.net.links[node], Focus(c.focus, FocusPosition(c)));
  }

  lemma LinkPlaced(s: System, node: NodeId)
    requires LinkIn(s, node)
    ensures node in s.controller.deliveries && PeerSize(s.controller.screens, node).Some?
  {
  }

  lemma InvKeys(c: State)
    requires Inv(c)
    ensures c.deliveries.Keys == PeerNodes(c.screens, c.local) && 1 <= c.epoch
  {
  }

  lemma BroadcastNet(s: System, c: State, actions: seq<Action>)
    requires SystemInv(s) && Broadcasts(s.controller, c, actions) && SameDesktops(s.controller, c)
    ensures var message := FocusChanged(c.epoch, c.focus, FocusPosition(c));
            EmitAll(s.net, actions)
            == Net(map node | node in s.net.links :: Enqueue(s.net.links[node], message),
                   s.net.epochs + [Focus(c.focus, FocusPosition(c))])
  {
    hide LinkIn, Inv, FocusPosition, FindScreen, PeerNodes, PeerSize, EmitAll, EpochsOk;
    InvKeys(s.controller);
    InvKeys(c);
    var peers := PeerNodes(s.controller.screens, s.controller.local) + PeerNodes(c.screens, c.local);
    EmitBroadcast(s.net, c.focus == c.local, peers, FocusChanged(c.epoch, c.focus, FocusPosition(c)));
  }

  lemma BroadcastLink(s: System, c: State, actions: seq<Action>, node: NodeId)
    requires SystemInv(s) && Broadcasts(s.controller, c, actions) && SameDesktops(s.controller, c)
    requires node in s.net.links
    ensures LinkIn(System(c, EmitAll(s.net, actions)), node)
  {
    hide LinkIn, Inv, FocusPosition, FindScreen, PeerNodes, EmitAll, LinkOk;
    InvKeys(s.controller);
    InvKeys(c);
    LinkPlaced(s, node);
    BroadcastNet(s, c, actions);
    BroadcastReachesLink(s, c, node, EmitAll(s.net, actions));
  }

  lemma BroadcastsKeeps(s: System, c: State, actions: seq<Action>)
    requires SystemInv(s) && Broadcasts(s.controller, c, actions) && SameDesktops(s.controller, c)
    ensures SystemInv(System(c, EmitAll(s.net, actions)))
  {
    hide LinkIn, Inv, FocusPosition, FindScreen, PeerNodes, PeerSize, EmitAll;
    InvKeys(s.controller);
    InvKeys(c);
    BroadcastNet(s, c, actions);
    forall node | node in s.net.links ensures LinkIn(System(c, EmitAll(s.net, actions)), node) {
      BroadcastLink(s, c, actions, node);
    }
  }

  lemma SendsPlace(s: State, t: State, actions: seq<Action>)
    requires Sends(s, t, actions)
    ensures t.screens == s.screens && t.local == s.local
  {
  }

  lemma ShapeKeeps(s: System, m: State, sent: State, t: State, first: seq<Action>, second: seq<Action>,
          actions: seq<Action>)
    requires SystemInv(s) && Shape(s.controller, m, sent, t, first, second, actions) && SameDesktops(s.controller, t)
    ensures SystemInv(System(t, EmitAll(s.net, actions)))
  {
    hide Inv, Sends, Broadcasts, SystemInv, PeerSize, PeerNodes;
    StaysKeeps(s, m);
    var middle := System(sent, EmitAll(s.net, first));
    if Sends(m, sent, first) {
      SendsKeeps(System(m, s.net), sent, first);
      SendsPlace(m, sent, first);
    }
    assert SystemInv(middle) && sent.screens == s.controller.screens && sent.local == s.controller.local;
    if Broadcasts(sent, t, second) {
      BroadcastsKeeps(middle, t, second);
    } else {
      StaysKeeps(middle, t);
    }
    EmitAllJoins(s.net, first, second);
  }
}
