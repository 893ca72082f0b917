/**
 * The same controller and agents over a network that may lose, repeat and reorder messages: any message
 * ever sent can arrive at any time, and an agent's display may change. A refused message changes nothing.
 */
module LossyDelivery {
  import opened Base
  import opened Geometry
  import opened Topology
  import opened Input
  import opened Cursor
  import opened Protocol
  import opened Controller
  import opened ControllerInvariant
  import opened Delivery
  import opened DeliveryTheorems

  datatype LossyLink = LossyLink(
    toAgent: set<Session>,
    agent: Agent.State,
    toController: set<Session>,
    sent: seq<InputBatch>,
    applied: seq<InputBatch>)

  datatype LossyNet = LossyNet(links: map<NodeId, LossyLink>, epochs: seq<Focus>)

  datatype LossySystem = LossySystem(controller: State, net: LossyNet)

  function Post(link: LossyLink, message: Session): LossyLink {
    link.(toAgent := link.toAgent + {message}, sent := if message.InputMessage? then link.sent + [message.batch]
      else link.sent)
  }

  function PostAction(net: LossyNet, action: Action): LossyNet {
    match action
    case ReleaseCapture => net
    case Send(peer, message) =>
      if peer in net.links then net.(links := net.links[peer := Post(net.links[peer], message)]) else net
    case Broadcast(peers, message) =>
      LossyNet(map node | node in net.links :: if node in peers then Post(net.links[node], message)
        else net.links[node],
               if message.FocusChanged? then net.epochs + [Focus(message.target, message.entryPosition)]
                 else net.epochs)
  }

  function PostAll(net: LossyNet, actions: seq<Action>): LossyNet
    decreases |actions|
  {
    if actions == [] then net else PostAll(PostAction(net, actions[0]), actions[1..])
  }

  function RepliesOf(result: Result<seq<Agent.Action>, Agent.Error>): set<Session> {
    match result
    case Ok(actions) => set a | a in actions && a.Send? :: a.message
    case Err(_) => {}
  }

  datatype LossyStep =
    | Operate(step: Step)
    | Arrives(node: NodeId, message: Session)
    | Confirms(node: NodeId, sequence: U64)
    | DisplayChanges(node: NodeId, size: Size)
    | Returns(node: NodeId, message: Session)

  ghost predicate OperationAllowed(c: State, step: Step) {
    && (step.ActivateEdge? || step.Route? || step.FlushBuffer? || step.ReturnControl? || step.Rearrange?)
    && (step.Rearrange? ==> SamePeers(c, step.screens))
  }

  ghost predicate LossyNext(s: LossySystem, step: LossyStep, t: LossySystem) {
    match step
    case Operate(op) =>
      && OperationAllowed(s.controller, op)
      && var r := Operation(s.controller, op);
         r.result.Ok? && t == LossySystem(r.state, PostAll(s.net, r.result.value))
    case Arrives(node, message) =>
      && node in s.net.links && message in s.net.links[node].toAgent
      && var link := s.net.links[node];
         var r := Agent.Handle(link.agent, message);
         t == s.(net := s.net.(links := s.net.links[node :=
                link.(agent := r.state, toController := link.toController + RepliesOf(r.result))]))
    case Confirms(node, sequence) =>
      && node in s.net.links
      && var link := s.net.links[node];
         var r := Agent.ConfirmApplied(link.agent, sequence);
         t == s.(net := s.net.(links := s.net.links[node :=
                link.(agent := r.state, toController := link.toController + RepliesOf(r.result),
                      applied := if r.result.Ok? then link.applied + [link.agent.pendingBatch.value]
                        else link.applied)]))
    case DisplayChanges(node, size) =>
      && node in s.net.links
      && var link := s.net.links[node];
         t == s.(net := s.net.(links := s.net.links[node :=
           link.(agent := Agent.ReconcileDisplay(link.agent, size).0)]))
    case Returns(node, message) =>
      && node in s.net.links && message in s.net.links[node].toController && message.InputAcknowledged?
      && t == s.(controller := Acknowledge(s.controller, node, message.throughSequence).0)
  }

  ghost predicate LossyInit(s: LossySystem) {
    && WellFormed(s.controller.screens)
    && New(s.controller.screens, s.controller.local) == Ok(s.controller)
    && s.net.epochs == []
    && s.net.links.Keys == PeerNodes(s.controller.screens, s.controller.local)
    && forall node :: node in s.net.links ==>
         exists size :: s.net.links[node] == LossyLink({}, Agent.New(node, size), {}, [], [])
  }

  ghost predicate LossyRun(states: seq<LossySystem>, steps: seq<LossyStep>) {
    && |states| == |steps| + 1
    && LossyInit(states[0])
    && forall i :: 0 <= i < |steps| ==> LossyNext(states[i], steps[i], states[i + 1])
  }

  // ---- Invariant ----

  // Every message ever sent to a node is a record of the past.
  predicate Posted(epochs: seq<Focus>, sent: seq<InputBatch>, message: Session) {
    match message
    case FocusChanged(epoch, target, position) => Announced(epochs, epoch, target, position)
    case InputMessage(batch) => 1 <= batch.sequence <= |sent| && batch == sent[batch.sequence - 1]
    case _ => false
  }

  ghost predicate LossyLinkOk(node: NodeId, epochs: seq<Focus>, delivery: PeerDelivery, link: LossyLink) {
    var a := link.agent;
    && Agent.Inv(a) && a.localNode == node
    && |link.sent| == delivery.lastSent
    && (forall i :: 0 <= i < |link.sent| ==> SentOk(node, epochs, link.sent, i))
    && (forall m :: m in link.toAgent ==> Posted(epochs, link.sent, m))
    && a.lastAppliedSequence <= |link.sent| && link.applied == link.sent[..a.lastAppliedSequence]
    && (a.pendingBatch.Some? ==>
         a.lastAppliedSequence < |link.sent| && a.pendingBatch.value == link.sent[a.lastAppliedSequence])
    && (a.activeFocusEpoch.Some? ==> exists position :: Announced(epochs, a.activeFocusEpoch.value, node, position))
    && (forall m :: m in link.toController && m.InputAcknowledged? ==> m.throughSequence <= a.lastAppliedSequence)
    && delivery.lastAcknowledged <= a.lastAppliedSequence
  }

  ghost predicate LossyInv(s: LossySystem) {
    && Inv(s.controller)
    && s.net.links.Keys == s.controller.deliveries.Keys
    && EpochsOk(s.controller, s.net.epochs)
    && forall node :: node in s.net.links ==>
         LossyLinkOk(node, s.net.epochs, s.controller.deliveries[node], s.net.links[node])
  }

  lemma ArrivesKeeps(node: NodeId, epochs: seq<Focus>, delivery: PeerDelivery, link: LossyLink, message: Session)
    requires LossyLinkOk(node, epochs, delivery, link) && message in link.toAgent
    ensures var r := Agent.Handle(link.agent, message);
            LossyLinkOk(node, epochs, delivery, link.(agent := r.state,
              toController := link.toController + RepliesOf(r.result)))
  {
    hide SentOk;
    Agent.HandleKeepsInv(link.agent, message);
    assert Posted(epochs, link.sent, message);
  }

  lemma ConfirmsKeeps(node: NodeId, epochs: seq<Focus>, delivery: PeerDelivery, link: LossyLink, sequence: U64)
    requires LossyLinkOk(node, epochs, delivery, link)
    ensures var r := Agent.ConfirmApplied(link.agent, sequence);
            && (r.result.Ok? ==> link.agent.pendingBatch.Some?)
            && LossyLinkOk(node, epochs, delivery,
                 link.(agent := r.state, toController := link.toController + RepliesOf(r.result),
                       applied := if r.result.Ok? then link.applied + [link.agent.pendingBatch.value]
                         else link.applied))
  {
    hide SentOk, Posted, Announced;
    Agent.ConfirmKeepsInv(link.agent, sequence);
  }

  lemma PostKeeps(node: NodeId, epochs: seq<Focus>, epochs': seq<Focus>, delivery: PeerDelivery,
          delivery': PeerDelivery, link: LossyLink, message: Session)
    requires LossyLinkOk(node, epochs, delivery, link) && epochs <= epochs'
    requires delivery'.lastAcknowledged == delivery.lastAcknowledged
    requires message.FocusChanged? ==>
               delivery'.lastSent == delivery.lastSent &&
                 Announced(epochs', message.focusEpoch, message.target, message.entryPosition)
    requires message.InputMessage? ==>
               && delivery'.lastSent == message.batch.sequence == delivery.lastSent + 1
               && SentOk(node, epochs', link.sent + [message.batch], |link.sent|)
    requires message.FocusChanged? || message.InputMessage?
    ensures LossyLinkOk(node, epochs', delivery', Post(link, message))
  {
    var posted := Post(link, message);
    forall i | 0 <= i < |posted.sent| ensures SentOk(node, epochs', posted.sent, i) {
      if i < |link.sent| {
        assert SentOk(node, epochs, link.sent, i);
      }
    }
    forall m | m in posted.toAgent ensures Posted(epochs', posted.sent, m) {
      if m != message {
        assert Posted(epochs, link.sent, m);
      }
    }
    if link.agent.activeFocusEpoch.Some? {
      var position :| Announced(epochs, link.agent.activeFocusEpoch.value, node, position);
      assert Announced(epochs', link.agent.activeFocusEpoch.value, node, position);
    }
  }

  // ---- Controller operations ----

  lemma LossyStays(s: LossySystem, c: State)
    requires LossyInv(s) && Stays(s.controller, c)
    ensures LossyInv(LossySystem(c, s.net))
  {
    hide Inv, LossyLinkOk;
  }

  lemma PostOne(net: LossyNet, action: Action)
    ensures PostAll(net, [action]) == PostAction(net, action)
  {
    assert [action][1..] == [];
    assert PostAll(PostAction(net, action), []) == PostAction(net, action);
  }

  lemma {:induction false} PostAllJoins(net: LossyNet, a: seq<Action>, b: seq<Action>)
    ensures PostAll(net, a + b) == PostAll(PostAll(net, a), b)
    decreases |a|
  {
    if a == [] {
      assert a + b == b;
    } else {
      PostAllJoins(PostAction(net, a[0]), a[1..], b);
      assert (a + b)[1..] == a[1..] + b;
    }
  }

  lemma SentNext(node: NodeId, epochs: seq<Focus>, delivery: PeerDelivery, link: LossyLink, batch: InputBatch)
    requires LossyLinkOk(node, epochs, delivery, link)
    requires 2 <= batch.focusEpoch == |epochs| + 1 && epochs[batch.focusEpoch - 2].target == node
    requires batch.sequence == delivery.lastSent + 1 && 0 < |batch.events| <= MAX_INPUT_EVENTS_PER_BATCH
    ensures SentOk(node, epochs, link.sent + [batch], |link.sent|)
  {
  }

  lemma LossySends(s: LossySystem, c: State, actions: seq<Action>)
    requires LossyInv(s) && Sends(s.controller, c, actions)
    ensures LossyInv(LossySystem(c, PostAll(s.net, actions)))
  {
    hide LossyLinkOk, Sound;
    var peer := s.controller.focus;
    var batch := actions[0].message.batch;
    PostOne(s.net, actions[0]);
    assert actions == [actions[0]];
    BufferBound(s.controller);
    DeliveryKnown(s.controller, peer);
    SentNext(peer, s.net.epochs, s.controller.deliveries[peer], s.net.links[peer], batch);
    PostKeeps(peer, s.net.epochs, s.net.epochs, s.controller.deliveries[peer], c.deliveries[peer], s.net.links[peer],
      actions[0].message);
  }

  lemma PostBroadcast(net: LossyNet, release: bool, peers: set<NodeId>, message: Session)
    requires net.links.Keys == peers && message.FocusChanged?
    ensures PostAll(net, (if release then [ReleaseCapture] else []) + [Broadcast(peers, message)])
            == LossyNet(map node | node in net.links ::
              Post(net.links[node], message), net.epochs + [Focus(message.target, message.entryPosition)])
  {
    var tail := [Broadcast(peers, message)];
    assert tail[1..] == [] && ([ReleaseCapture] + tail)[1..] == tail && [] + tail == tail;
    assert PostAction(net, tail[0]).links == map node | node in net.links :: Post(net.links[node], message);
    assert PostAll(net, tail) == PostAction(net, tail[0]);
  }

  lemma LossyBroadcasts(s: LossySystem, c: State, actions: seq<Action>)
    requires LossyInv(s) && Broadcasts(s.controller, c, actions) && SameDesktops(s.controller, c)
    ensures LossyInv(LossySystem(c, PostAll(s.net, actions)))
  {
    hide LossyLinkOk, Inv, FocusPosition, FindScreen, PeerNodes, PeerSize;
    InvKeys(s.controller);
    InvKeys(c);
    var message := FocusChanged(c.epoch, c.focus, FocusPosition(c));
    PostBroadcast(s.net, c.focus == c.local, PeerNodes(s.controller.screens, s.controller.local) +
      PeerNodes(c.screens, c.local), message);
    var net := PostAll(s.net, actions);
    forall node | node in net.links ensures LossyLinkOk(node, net.epochs, c.deliveries[node], net.links[node]) {
      PostKeeps(node, s.net.epochs, net.epochs, s.controller.deliveries[node], c.deliveries[node], s.net.links[node],
        message);
    }
  }

  lemma LossyShape(s: LossySystem, m: State, sent: State, t: State, first: seq<Action>, second: seq<Action>,
          actions: seq<Action>)
    requires LossyInv(s) && Shape(s.controller, m, sent, t, first, second, actions) && SameDesktops(s.controller, t)
    ensures LossyInv(LossySystem(t, PostAll(s.net, actions)))
  {
    hide Inv, Sends, Broadcasts, LossyInv, PeerSize, PeerNodes;
    LossyStays(s, m);
    var middle := LossySystem(sent, PostAll(s.net, first));
    if Sends(m, sent, first) {
      LossySends(LossySystem(m, s.net), sent, first);
      SendsPlace(m, sent, first);
    }
    assert LossyInv(middle) && sent.screens == s.controller.screens && sent.local == s.controller.local;
    if Broadcasts(sent, t, second) {
      LossyBroadcasts(middle, t, second);
    } else {
      LossyStays(middle, t);
    }
    PostAllJoins(s.net, first, second);
  }

  lemma LossyOperates(s: LossySystem, step: Step)
    requires LossyInv(s) && OperationAllowed(s.controller, step) && Operation(s.controller, step).result.Ok?
    ensures var r := Operation(s.controller, step); LossyInv(LossySystem(r.state, PostAll(s.net, r.result.value)))
  {
    hide Operation, Shape, Inv, PeerNodes, PeerSize, LossyLinkOk;
    var m, sent, first, second := OperationShape(s.controller, step);
    OperationPlace(s.controller, step);
    var r := Operation(s.controller, step);
    LossyShape(s, m, sent, r.state, first, second, r.result.value);
  }

  lemma AcknowledgedLink(node: NodeId, epochs: seq<Focus>, d: PeerDelivery, d': PeerDelivery, link: LossyLink)
    requires LossyLinkOk(node, epochs, d, link)
    requires d'.lastSent == d.lastSent && d'.lastAcknowledged <= link.agent.lastAppliedSequence
    ensures LossyLinkOk(node, epochs, d', link)
  {
    hide SentOk, Posted, Announced;
  }

  lemma ReplyIsGenuine(node: NodeId, epochs: seq<Focus>, d: PeerDelivery, link: LossyLink, through: U64)
    requires LossyLinkOk(node, epochs, d, link) && InputAcknowledged(through) in link.toController
    ensures through <= d.lastSent && Max(d.lastAcknowledged, through) <= link.agent.lastAppliedSequence
  {
    hide SentOk, Posted, Announced;
  }

  lemma ReturnsKeeps(s: LossySystem, node: NodeId, through: U64)
    requires LossyInv(s) && node in s.net.links && InputAcknowledged(through) in s.net.links[node].toController
    ensures Acknowledge(s.controller, node, through).1.Ok?
    ensures LossyInv(s.(controller := Acknowledge(s.controller, node, through).0))
  {
    hide Sound, Acknowledge, LossyLinkOk;
    AcknowledgeSound(s.controller, node, through);
    ReplyIsGenuine(node, s.net.epochs, s.controller.deliveries[node], s.net.links[node], through);
    var c := Acknowledge(s.controller, node, through).0;
    assert c.deliveries.Keys == s.controller.deliveries.Keys;
    forall peer | peer in s.net.links
      ensures LossyLinkOk(peer, s.net.epochs, c.deliveries[peer], s.net.links[peer])
    {
      if peer == node {
        AcknowledgedLink(node, s.net.epochs, s.controller.deliveries[node], c.deliveries[node], s.net.links[node]);
      }
    }
  }

  lemma DisplayKeeps(node: NodeId, epochs: seq<Focus>, delivery: PeerDelivery, link: LossyLink, size: Size)
    requires LossyLinkOk(node, epochs, delivery, link)
    ensures LossyLinkOk(node, epochs, delivery, link.(agent := Agent.ReconcileDisplay(link.agent, size).0))
  {
    hide SentOk, Posted, Announced;
  }

  /** Every step keeps the invariant, and no acknowledgement is ever refused. */
  lemma LossyNextKeeps(s: LossySystem, step: LossyStep, t: LossySystem)
    requires LossyInv(s) && LossyNext(s, step, t)
    ensures LossyInv(t)
    ensures step.Returns? && step.message.InputAcknowledged? ==>
            Acknowledge(s.controller, step.node, step.message.throughSequence).1.Ok?
  {
    hide Inv, Operation, LossyLinkOk, OperationAllowed, Acknowledge;
    match step
    case Operate(op) => LossyOperates(s, op);
    case Arrives(node, message) =>
      ArrivesKeeps(node, s.net.epochs, s.controller.deliveries[node], s.net.links[node], message);
    case Confirms(node, sequence) =>
      ConfirmsKeeps(node, s.net.epochs, s.controller.deliveries[node], s.net.links[node], sequence);
    case DisplayChanges(node, size) =>
      DisplayKeeps(node, s.net.epochs, s.controller.deliveries[node], s.net.links[node], size);
    case Returns(node, message) => ReturnsKeeps(s, node, message.throughSequence);
  }

  lemma LossyInitHolds(s: LossySystem)
    requires LossyInit(s)
    ensures LossyInv(s)
  {
    hide WellFormed, OnScreen, FindScreen;
    NewSound(s.controller.screens, s.controller.local);
    NewPlace(s.controller);
    forall node | node in s.net.links
      ensures LossyLinkOk(node, s.net.epochs, s.controller.deliveries[node], s.net.links[node])
    {
      NewDelivery(s.controller, node);
    }
  }

  lemma {:induction false} LossyRunKeeps(states: seq<LossySystem>, steps: seq<LossyStep>, i: nat)
    requires LossyRun(states, steps) && i < |states|
    ensures LossyInv(states[i])
  {
    hide LossyInv, LossyNext, LossyInit;
    if i == 0 {
      LossyInitHolds(states[0]);
    } else {
      LossyRunKeeps(states, steps, i - 1);
      assert LossyNext(states[i - 1], steps[i - 1], states[i - 1 + 1]);
      LossyNextKeeps(states[i - 1], steps[i - 1], states[i]);
    }
  }

  /**
   * Exactly-once, in-order application survives loss, repetition and reordering: the confirmed batches are
   * a prefix of the sent ones, and acknowledged <= applied <= sent in every reachable state.
   */
  lemma LossyAppliedIsPrefix(states: seq<LossySystem>, steps: seq<LossyStep>, i: nat, node: NodeId)
    requires LossyRun(states, steps) && i < |states| && node in states[i].net.links
    ensures node in states[i].controller.deliveries
    ensures var link := states[i].net.links[node];
            var d := states[i].controller.deliveries[node];
            && link.applied <= link.sent
            && (forall k :: 0 <= k < |link.sent| ==> link.sent[k].sequence == k + 1)
            && d.lastAcknowledged <= |link.applied| <= |link.sent| == d.lastSent
  {
    hide LossyRun, Inv;
    LossyRunKeeps(states, steps, i);
    var link := states[i].net.links[node];
    forall k | 0 <= k < |link.sent| ensures link.sent[k].sequence == k + 1 {
      assert SentOk(node, states[i].net.epochs, link.sent, k);
    }
  }

  /** Epoch exclusivity survives too: an active epoch belongs to one agent, its announced target. */
  lemma LossyEpochsAreExclusive(states: seq<LossySystem>, steps: seq<LossyStep>, i: nat, a: NodeId, b: NodeId)
    requires LossyRun(states, steps) && i < |states| && a in states[i].net.links && b in states[i].net.links
    ensures var net := states[i].net;
            var active := net.links[a].agent.activeFocusEpoch;
            && (active.Some? ==> 2 <= active.value < |net.epochs| + 2 && net.epochs[active.value - 2].target == a)
            && (active.Some? && net.links[b].agent.activeFocusEpoch == active ==> a == b)
            && (forall k :: 0 <= k < |net.links[a].applied| ==>
                  && 2 <= net.links[a].applied[k].focusEpoch < |net.epochs| + 2
                  && net.epochs[net.links[a].applied[k].focusEpoch - 2].target == a)
  {
    hide LossyRun, Inv;
    LossyRunKeeps(states, steps, i);
    var link := states[i].net.links[a];
    assert LossyLinkOk(b, states[i].net.epochs, states[i].controller.deliveries[b], states[i].net.links[b]);
    forall k | 0 <= k < |link.applied|
      ensures 2 <= link.applied[k].focusEpoch < |states[i].net.epochs| + 2
      ensures states[i].net.epochs[link.applied[k].focusEpoch - 2].target == a
    {
      assert SentOk(a, states[i].net.epochs, link.sent, k);
    }
  }
}
