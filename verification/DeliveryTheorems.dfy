/** Safety of every run of the controller, its agents and their channels. */
module DeliveryTheorems {
  import opened Base
  import opened Geometry
  import opened Topology
  import opened Input
  import opened Coalesce
  import opened Cursor
  import opened Protocol
  import opened Controller
  import opened ControllerInvariant
  import opened Delivery

  // ---- Operations keep the place they do not change ----

  lemma FlushPlace(c: State)
    ensures Flush(c).state.screens == c.screens && Flush(c).state.local == c.local
  {
  }

  lemma ChangeFocusPlace(c: State, target: NodeId, position: Point)
    ensures var t := ChangeFocus(c, target, position).state; t.screens == c.screens && t.local == c.local
  {
    hide Flush, FindScreen, ClampLocalPosition, PeerNodes;
    FlushPlace(c);
  }

  lemma ObservePlace(c: State, event: InputEvent)
    ensures var t := ObservePointer(c, event).state; t.screens == c.screens && t.local == c.local
  {
  }

  lemma AcceptPlace(c: State, event: InputEvent)
    ensures var t := Accept(c, event).state; t.screens == c.screens && t.local == c.local
  {
    hide Flush, FindScreen, CanCoalesce, Push;
    FlushPlace(c);
    var start := Flush(c).state;
    ObservePlace(c, event);
    ObservePlace(start, event);
    var a, b := ObservePointer(c, event).state, ObservePointer(start, event).state;
    FlushPlace(a.(buffer := Push(a.buffer, event)));
    FlushPlace(b.(buffer := Push(b.buffer, event)));
  }

  lemma OperationPlace(c: State, step: Step)
    requires step.ActivateEdge? || step.Route? || step.FlushBuffer? || step.ReturnControl? || step.Rearrange?
    requires Operation(c, step).result.Ok?
    ensures var t := Operation(c, step).state;
            t.local == c.local && t.screens == if step.Rearrange? then step.screens else c.screens
  {
    hide Flush, FindScreen, Accept, ChangeFocus, Cross, CrossingOf, ScreenCenter, PeerNodes;
    FlushPlace(c);
    match step
    case ActivateEdge(edge, offset) =>
      if Cross(c.screens, c.local, edge, offset).Some? {
        var crossing := Cross(c.screens, c.local, edge, offset).value;
        ChangeFocusPlace(c, crossing.target, crossing.localPosition);
      }
    case Route(event) =>
      AcceptPlace(c, event);
      var crossing := CrossingOf(c, event);
      if crossing.Ok? && crossing.value.Some? {
        ChangeFocusPlace(Flush(c).state, crossing.value.value.0, crossing.value.value.1);
      }
    case ReturnControl =>
      if FindScreen(c.screens, c.local).Some? {
        ChangeFocusPlace(c.(buffer := []), c.local, ScreenCenter(FindScreen(c.screens, c.local).value));
      }
    case FlushBuffer =>
    case Rearrange(screens) =>
  }

  lemma SamePeersKeepFocus(c: State, screens: seq<ScreenPlacement>)
    requires Inv(c) && SamePeers(c, screens)
    ensures !Strands(c, screens)
  {
    hide WellFormed;
    PeerNodesAreScreens(c.screens, c.local, c.focus);
    PeerNodesAreScreens(screens, c.local, c.focus);
  }

  lemma OperationShape(c: State, step: Step) returns (m: State, sent: State, first: seq<Action>, second: seq<Action>)
    requires step.ActivateEdge? || step.Route? || step.FlushBuffer? || step.ReturnControl? || step.Rearrange?
    requires Inv(c) && (step.Rearrange? ==> SamePeers(c, step.screens)) && Operation(c, step).result.Ok?
    ensures Shape(c, m, sent, Operation(c, step).state, first, second, Operation(c, step).result.value)
  {
    hide Sends, Broadcasts, Inv, Activate, RouteInput, Flush, ReturnToLocal, ReconcileTopology, WellFormed, FindScreen,
      PeerNodes;
    match step
    case ActivateEdge(edge, offset) => m, sent, first, second := ActivateShape(c, edge, offset);
    case Route(event) => m, sent, first, second := RouteInputShape(c, event);
    case ReturnControl => m, sent, first, second := ReturnToLocalShape(c);
    case FlushBuffer =>
      FlushSound(c);
      m, sent, first, second := c, Flush(c).state, Flush(c).result.value, [];
    case Rearrange(screens) =>
      SamePeersKeepFocus(c, screens);
      sent, first, second := ReconcileShape(c, screens);
      m := c;
  }

  lemma OperationKeeps(s: System, step: Step)
    requires step.ActivateEdge? || step.Route? || step.FlushBuffer? || step.ReturnControl? || step.Rearrange?
    requires SystemInv(s) && (step.Rearrange? ==> SamePeers(s.controller, step.screens))
    requires Operation(s.controller, step).result.Ok?
    ensures var r := Operation(s.controller, step); SystemInv(System(r.state, EmitAll(s.net, r.result.value)))
  {
    hide Operation, Shape, Inv, PeerNodes, PeerSize, LinkIn;
    var m, sent, first, second := OperationShape(s.controller, step);
    OperationPlace(s.controller, step);
    var r := Operation(s.controller, step);
    ShapeKeeps(s, m, sent, r.state, first, second, r.result.value);
  }

  lemma LinkUpdated(s: System, node: NodeId, link: Link, delivery: PeerDelivery)
    requires SystemInv(s) && node in s.net.links && DeliveryOk(delivery)
    requires LinkOk(node, PeerSize(s.controller.screens, node).value, s.net.epochs, s.controller.epoch,
             s.controller.focus, delivery, link)
    ensures SystemInv(System(s.controller.(deliveries := s.controller.deliveries[node := delivery]),
            s.net.(links := s.net.links[node := link])))
  {
    hide LinkOk, WellFormed, FindScreen, PeerNodes, OnScreen, PeerSize;
    var c := s.controller.(deliveries := s.controller.deliveries[node := delivery]);
    var t := System(c, s.net.(links := s.net.links[node := link]));
    assert LinkIn(s, node);
    SamePlace(s.controller, c);
    assert c.deliveries.Keys == s.controller.deliveries.Keys;
    forall n | n in t.net.links ensures LinkIn(t, n) {
      assert LinkIn(s, n);
    }
  }

  lemma UpdateLink(s: System, node: NodeId, link: Link)
    requires SystemInv(s) && node in s.net.links
    requires LinkOk(node, PeerSize(s.controller.screens, node).value, s.net.epochs, s.controller.epoch,
             s.controller.focus, s.controller.deliveries[node], link)
    ensures SystemInv(s.(net := s.net.(links := s.net.links[node := link])))
  {
    hide LinkOk, PeerSize, Sound;
    assert LinkIn(s, node);
    DeliveryKnown(s.controller, node);
    LinkUpdated(s, node, link, s.controller.deliveries[node]);
    assert s.controller.deliveries[node := s.controller.deliveries[node]] == s.controller.deliveries;
    assert s.controller.(deliveries := s.controller.deliveries) == s.controller;
  }

  // An acknowledgement arriving at the controller is the one it waits for.
  lemma AcknowledgementExpected(s: System, node: NodeId)
    requires SystemInv(s) && node in s.net.links && s.net.links[node].toController != []
    ensures var message := s.net.links[node].toController[0];
            var d := s.controller.deliveries[node];
            && Acknowledged(s.controller, node, s.net.links[node]).1.Ok?
            && (message.InputAcknowledged? ==>
                  && d.lastAcknowledged + 1 == message.throughSequence == d.lastSent
                  && Acknowledged(s.controller, node, s.net.links[node]).0
                     == s.controller.(deliveries := s.controller.deliveries[node :=
                       PeerDelivery(d.lastSent, d.lastSent, [])]))
  {
    hide LinkOk, Sound, Acknowledge;
    assert LinkIn(s, node);
    DeliveryKnown(s.controller, node);
    LinkAcknowledges(node, PeerSize(s.controller.screens, node).value, s.net.epochs, s.controller.epoch,
      s.controller.focus, s.controller.deliveries[node], s.net.links[node]);
    var message := s.net.links[node].toController[0];
    if message.InputAcknowledged? {
      AcknowledgeSound(s.controller, node, message.throughSequence);
    }
  }

  lemma AcknowledgementKeeps(s: System, node: NodeId, t: System)
    requires SystemInv(s) && Next(s, ToController(node), t)
    ensures SystemInv(t)
  {
    hide LinkOk, Sound, Acknowledge, PeerSize;
    assert LinkIn(s, node);
    AcknowledgementExpected(s, node);
    DeliveryKnown(s.controller, node);
    var link := s.net.links[node];
    LinkAcknowledges(node, PeerSize(s.controller.screens, node).value, s.net.epochs, s.controller.epoch,
      s.controller.focus, s.controller.deliveries[node], link);
    var left := link.(toController := link.toController[1..]);
    if link.toController[0].InputAcknowledged? {
      var d := s.controller.deliveries[node];
      LinkUpdated(s, node, left, PeerDelivery(d.lastSent, d.lastSent, []));
    } else {
      UpdateLink(s, node, left);
    }
  }

  /** Every step of the system keeps the invariant. */
  lemma NextKeeps(s: System, step: Step, t: System)
    requires SystemInv(s) && Next(s, step, t)
    ensures SystemInv(t)
  {
    hide LinkOk, PeerSize, Operation, Handled, Confirmed, Completed, Received, Inv, Acknowledge;
    match step
    case SendAside(node, message) =>
      assert LinkIn(s, node);
      LinkSendsAside(node, PeerSize(s.controller.screens, node).value, s.net.epochs, s.controller.epoch,
        s.controller.focus, s.controller.deliveries[node], s.net.links[node], message);
      UpdateLink(s, node, Enqueue(s.net.links[node], message));
    case ToAgent(node) =>
      assert LinkIn(s, node);
      LinkReceives(node, PeerSize(s.controller.screens, node).value, s.net.epochs, s.controller.epoch,
        s.controller.focus, s.controller.deliveries[node], s.net.links[node]);
      UpdateLink(s, node, Received(s.net.links[node]));
    case Applied(node) =>
      assert LinkIn(s, node);
      LinkConfirms(node, PeerSize(s.controller.screens, node).value, s.net.epochs, s.controller.epoch,
        s.controller.focus, s.controller.deliveries[node], s.net.links[node]);
      UpdateLink(s, node, Completed(s.net.links[node]));
    case ToController(node) => AcknowledgementKeeps(s, node, t);
    case _ => OperationKeeps(s, step);
  }

  // ---- Runs ----

  lemma NewPlace(c: State)
    requires New(c.screens, c.local) == Ok(c)
    ensures c.epoch == 1 && c.focus == c.local && c.deliveries.Keys == PeerNodes(c.screens, c.local)
  {
  }

  lemma NewDelivery(c: State, node: NodeId)
    requires New(c.screens, c.local) == Ok(c) && node in PeerNodes(c.screens, c.local)
    ensures node in c.deliveries && c.deliveries[node] == NEW_DELIVERY && c.epoch == 1 && c.focus == c.local
    ensures node != c.local
  {
  }

  lemma InitHolds(s: System)
    requires Init(s)
    ensures SystemInv(s)
  {
    hide WellFormed, OnScreen, PeerSize, FindScreen;
    NewSound(s.controller.screens, s.controller.local);
    forall node | node in s.net.links ensures LinkIn(s, node) {
      NewDelivery(s.controller, node);
    }
    NewPlace(s.controller);
  }

  /** The invariant holds in every state of every run. */
  lemma {:induction false} RunKeeps(states: seq<System>, steps: seq<Step>, i: nat)
    requires Run(states, steps) && i < |states|
    ensures SystemInv(states[i])
  {
    hide SystemInv, Next, Init;
    if i == 0 {
      InitHolds(states[0]);
    } else {
      RunKeeps(states, steps, i - 1);
      assert Next(states[i - 1], steps[i - 1], states[i - 1 + 1]);
      NextKeeps(states[i - 1], steps[i - 1], states[i]);
    }
  }

  lemma StepsSucceed(s: System, node: NodeId)
    requires SystemInv(s) && node in s.net.links
    ensures var link := s.net.links[node];
            && (link.toAgent != [] && link.agent.pendingBatch.None? ==> Handled(link).result.Ok?)
            && (link.agent.pendingBatch.Some? ==> Confirmed(link).result.Ok?)
            && (link.toController != [] ==> Acknowledged(s.controller, node, link).1.Ok?)
  {
    hide LinkOk, PeerSize, Handled, Confirmed, Acknowledge, Inv, Acknowledged;
    assert LinkIn(s, node);
    var size, link := PeerSize(s.controller.screens, node).value, s.net.links[node];
    if link.toAgent != [] && link.agent.pendingBatch.None? {
      LinkReceives(node, size, s.net.epochs, s.controller.epoch, s.controller.focus, s.controller.deliveries[node],
        link);
    }
    if link.agent.pendingBatch.Some? {
      LinkConfirms(node, size, s.net.epochs, s.controller.epoch, s.controller.focus, s.controller.deliveries[node],
        link);
    }
    if link.toController != [] {
      AcknowledgementExpected(s, node);
    }
  }

  /**
   * No protocol error is reachable: in every state of every run, the next message to an agent, the
   * confirmation of its pending batch and the next message to the controller are all accepted.
   */
  lemma NoProtocolErrors(states: seq<System>, steps: seq<Step>, i: nat, node: NodeId)
    requires Run(states, steps) && i < |states| && node in states[i].net.links
    ensures var link := states[i].net.links[node];
            && (Enabled(states[i], ToAgent(node)) ==> Handled(link).result.Ok?)
            && (Enabled(states[i], Applied(node)) ==> Confirmed(link).result.Ok?)
            && (Enabled(states[i], ToController(node)) ==> Acknowledged(states[i].controller, node, link).1.Ok?)
  {
    hide Run, SystemInv, Handled, Confirmed, Acknowledged;
    RunKeeps(states, steps, i);
    StepsSucceed(states[i], node);
  }

  // The errors a controller operation can still report: misuse, overload and exhausted counters.
  predicate LocalError(error: Error) {
    || error.CaptureAlreadyActive? || error.NoAdjacentScreen? || error.InputWhileLocal? || error.Backpressure?
    || error.SequenceExhausted? || error.FocusEpochExhausted?
  }

  /** A controller operation never fails for want of a screen, a peer, or range. */
  lemma OnlyLocalErrors(states: seq<System>, steps: seq<Step>, i: nat, step: Step)
    requires Run(states, steps) && i < |states| && Enabled(states[i], step)
    requires step.ActivateEdge? || step.Route? || step.FlushBuffer? || step.ReturnControl? || step.Rearrange?
    ensures var r := Operation(states[i].controller, step).result; r.Err? ==> LocalError(r.error)
  {
    hide Run, Activate, RouteInput, Flush, ReturnToLocal, ReconcileTopology, WellFormed, FindScreen, PeerNodes, Inv;
    RunKeeps(states, steps, i);
    var c := states[i].controller;
    match step
    case ActivateEdge(edge, offset) => var m, sent, first, second := ActivateShape(c, edge, offset);
    case Route(event) => var m, sent, first, second := RouteInputShape(c, event);
    case ReturnControl => var m, sent, first, second := ReturnToLocalShape(c);
    case FlushBuffer => FlushSound(c);
    case Rearrange(screens) =>
      SamePeersKeepFocus(c, screens);
      var sent, first, second := ReconcileShape(c, screens);
  }

  // ---- Conservation ----

  function CountInputs(messages: seq<Session>): nat {
    if messages == [] then 0 else (if messages[0].InputMessage? then 1 else 0) + CountInputs(messages[1..])
  }

  function CountAcks(messages: seq<Session>): nat {
    if messages == [] then 0 else (if messages[0].InputAcknowledged? then 1 else 0) + CountAcks(messages[1..])
  }

  lemma {:induction false} LeadsCounts(node: NodeId, size: Size, epochs: seq<Focus>, sent: seq<InputBatch>, v: View,
          messages: seq<Session>, end: View)
    requires Leads(node, size, epochs, sent, v, messages, end)
    ensures end.received == v.received + CountInputs(messages)
    decreases |messages|
  {
    if messages != [] {
      LeadsCounts(node, size, epochs, sent, Seen(node, v, messages[0]), messages[1..], end);
    }
  }

  lemma {:induction false} AcksCount(acknowledged: int, messages: seq<Session>, last: int)
    requires AcksLead(acknowledged, messages, last)
    ensures last == acknowledged + CountAcks(messages)
    decreases |messages|
  {
    if messages != [] {
      AcksCount(if messages[0].InputAcknowledged? then acknowledged + 1 else acknowledged, messages[1..], last);
    }
  }

  function Tokens(link: Link): nat {
    CountInputs(link.toAgent) + (if link.agent.pendingBatch.Some? then 1 else 0) + CountAcks(link.toController)
  }

  lemma TokensBalance(s: System, node: NodeId)
    requires SystemInv(s) && node in s.net.links
    ensures node in s.controller.deliveries
    ensures var d := s.controller.deliveries[node];
            Tokens(s.net.links[node]) == d.lastSent - d.lastAcknowledged ==
              |d.pending| <= MAX_IN_FLIGHT_BATCHES_PER_PEER
  {
    hide Sound, PeerSize;
    assert LinkIn(s, node);
    var link := s.net.links[node];
    var d := s.controller.deliveries[node];
    DeliveryKnown(s.controller, node);
    LeadsCounts(node, PeerSize(s.controller.screens, node).value, s.net.epochs, link.sent, AgentView(link.agent),
      link.toAgent, ControllerView(s.controller.epoch, s.controller.focus, d, node));
    AcksCount(d.lastAcknowledged, link.toController, link.agent.lastAppliedSequence);
  }

  /**
   * Conservation: for each peer, batches on their way, the batch awaiting application and
   * acknowledgements on their way add up to the sent but unacknowledged ones, and there is at most one.
   */
  lemma TokensAreConserved(states: seq<System>, steps: seq<Step>, i: nat, node: NodeId)
    requires Run(states, steps) && i < |states| && node in states[i].net.links
    ensures node in states[i].controller.deliveries
    ensures var d := states[i].controller.deliveries[node];
            Tokens(states[i].net.links[node]) == d.lastSent - d.lastAcknowledged ==
              |d.pending| <= MAX_IN_FLIGHT_BATCHES_PER_PEER
  {
    hide Run, SystemInv, Tokens;
    RunKeeps(states, steps, i);
    TokensBalance(states[i], node);
  }

  // ---- Exactly-once application and exclusive epochs ----

  /** Confirmed batches are a prefix of the sent ones, each with its own number. */
  lemma AppliedIsPrefixOfSent(states: seq<System>, steps: seq<Step>, i: nat, node: NodeId)
    requires Run(states, steps) && i < |states| && node in states[i].net.links
    ensures node in states[i].controller.deliveries
    ensures var link := states[i].net.links[node];
            var d := states[i].controller.deliveries[node];
            && link.applied <= link.sent
            && d.lastAcknowledged <= |link.applied| == link.agent.lastAppliedSequence <= |link.sent| == d.lastSent
            && forall k :: 0 <= k < |link.sent| ==> link.sent[k].sequence == k + 1
  {
    hide Run, Inv, PeerSize, Leads;
    RunKeeps(states, steps, i);
    assert LinkIn(states[i], node);
    var link := states[i].net.links[node];
    AcksBound(states[i].controller.deliveries[node].lastAcknowledged, link.toController,
      link.agent.lastAppliedSequence);
    forall k | 0 <= k < |link.sent| ensures link.sent[k].sequence == k + 1 {
      assert SentOk(node, states[i].net.epochs, link.sent, k);
    }
  }

  /**
   * Epochs are exclusive: an epoch active at an agent names that agent as its only target, so no two
   * agents share an active epoch, and a batch is applied only at the target of its epoch.
   */
  lemma EpochsAreExclusive(states: seq<System>, steps: seq<Step>, i: nat, a: NodeId, b: NodeId)
    requires Run(states, steps) && i < |states| && a in states[i].net.links && b in states[i].net.links
    ensures var net := states[i].net;
            var active := net.links[a].agent.activeFocusEpoch;
            && (active.Some? ==> 2 <= active.value < |net.epochs| + 2 && net.epochs[active.value - 2].target == a)
            && (active.Some? && net.links[b].agent.activeFocusEpoch == active ==> a == b)
            && (forall k :: 0 <= k < |net.links[a].applied| ==>
                  && 2 <= net.links[a].applied[k].focusEpoch < |net.epochs| + 2
                  && net.epochs[net.links[a].applied[k].focusEpoch - 2].target == a)
  {
    hide Run, Inv, PeerSize, Leads, AcksLead;
    RunKeeps(states, steps, i);
    assert LinkIn(states[i], a) && LinkIn(states[i], b);
    var link := states[i].net.links[a];
    forall k | 0 <= k < |link.applied|
      ensures 2 <= link.applied[k].focusEpoch < |states[i].net.epochs| + 2
      ensures states[i].net.epochs[link.applied[k].focusEpoch - 2].target == a
    {
      assert SentOk(a, states[i].net.epochs, link.sent, k);
    }
  }

  // ---- The records only grow ----

  ghost predicate Grows(a: Net, b: Net) {
    && a.epochs <= b.epochs
    && a.links.Keys == b.links.Keys
    && forall node :: node in a.links ==>
         a.links[node].sent <= b.links[node].sent && a.links[node].applied <= b.links[node].applied
  }

  lemma {:induction false} EmitAllGrows(net: Net, actions: seq<Action>)
    ensures Grows(net, EmitAll(net, actions))
    decreases |actions|
  {
    if actions != [] {
      EmitAllGrows(Emit(net, actions[0]), actions[1..]);
    }
  }

  lemma EnabledLink(s: System, step: Step, node: NodeId)
    requires Enabled(s, step)
    requires step == ToAgent(node) || step == Applied(node) || step == ToController(node) ||
             (step.SendAside? && step.node == node)
    ensures node in s.net.links
  {
  }

  lemma NextGrows(s: System, step: Step, t: System)
    requires Next(s, step, t)
    ensures Grows(s.net, t.net)
  {
    hide Operation, Handled, Confirmed, Acknowledged, Enabled, EmitAll;
    match step
    case SendAside(node, message) => EnabledLink(s, step, node);
    case ToAgent(node) => EnabledLink(s, step, node);
    case Applied(node) => EnabledLink(s, step, node);
    case ToController(node) => EnabledLink(s, step, node);
    case _ => EmitAllGrows(s.net, Operation(s.controller, step).result.value);
  }

  /** Once announced, an epoch keeps its target and entry position; sent and applied batches are never revised. */
  lemma {:induction false} RecordsOnlyGrow(states: seq<System>, steps: seq<Step>, i: nat, j: nat)
    requires Run(states, steps) && i <= j < |states|
    ensures Grows(states[i].net, states[j].net)
    decreases j - i
  {
    hide Next, Init;
    if i < j {
      RecordsOnlyGrow(states, steps, i, j - 1);
      assert Next(states[j - 1], steps[j - 1], states[j - 1 + 1]);
      NextGrows(states[j - 1], steps[j - 1], states[j]);
    }
  }

  // ---- Progress ----

  // An upper bound on the steps a link can still take on its own.
  function Work(link: Link): nat {
    3 * |link.toAgent| + (if link.agent.pendingBatch.Some? then 2 else 0) + |link.toController|
  }

  predicate OwnStep(step: Step, node: NodeId) {
    step == ToAgent(node) || step == Applied(node) || step == ToController(node)
  }

  // From one state to another by steps of one link only.
  ghost predicate OwnRun(states: seq<System>, steps: seq<Step>, node: NodeId, s: System, t: System) {
    && |states| == |steps| + 1 && states[0] == s && states[|steps|] == t
    && forall i :: 0 <= i < |steps| ==> OwnStep(steps[i], node) && Next(states[i], steps[i], states[i + 1])
  }

  lemma OwnRunExtends(states: seq<System>, steps: seq<Step>, node: NodeId, s: System, step: Step, next: System,
          t: System)
    requires OwnStep(step, node) && Next(s, step, next) && OwnRun(states, steps, node, next, t)
    ensures OwnRun([s] + states, [step] + steps, node, s, t)
  {
    hide Next, OwnStep;
    var all, taken := [s] + states, [step] + steps;
    forall i | 0 <= i < |taken| ensures OwnStep(taken[i], node) && Next(all[i], taken[i], all[i + 1]) {
      if i > 0 {
        assert taken[i] == steps[i - 1] && all[i] == states[i - 1] && all[i + 1] == states[i - 1 + 1];
      }
    }
  }

  lemma TokenIsSomewhere(link: Link)
    requires Tokens(link) > 0
    ensures link.agent.pendingBatch.Some? || link.toAgent != [] || link.toController != []
  {
  }

  lemma {:induction false} FewReplies(actions: seq<Agent.Action>)
    ensures |Replies(actions)| <= |actions|
  {
    if actions != [] {
      FewReplies(actions[1..]);
    }
  }

  lemma CompletionWorksLess(link: Link)
    requires link.agent.pendingBatch.Some? && Confirmed(link).result.Ok?
    ensures Work(Completed(link)) < Work(link)
  {
    FewReplies(Confirmed(link).result.value);
  }

  lemma ReceiptWorksLess(link: Link)
    requires link.toAgent != [] && link.agent.pendingBatch.None? && Handled(link).result.Ok?
    ensures Work(Received(link)) < Work(link)
  {
    var actions := Handled(link).result.value;
    FewReplies(actions);
    if forall a :: a in actions ==> !a.Send? {
      NoReplies(actions);
    }
  }

  // While a peer's window is occupied, its own link can move on, with less work left.
  lemma LinkMovesOn(s: System, node: NodeId) returns (step: Step, t: System)
    requires SystemInv(s) && node in s.net.links && s.controller.deliveries[node].pending != []
    ensures OwnStep(step, node) && Next(s, step, t)
    ensures node in t.net.links && Work(t.net.links[node]) < Work(s.net.links[node])
  {
    hide SystemInv, Handled, Confirmed, Acknowledged, Tokens;
    TokensBalance(s, node);
    StepsSucceed(s, node);
    var link := s.net.links[node];
    TokenIsSomewhere(link);
    if link.agent.pendingBatch.Some? {
      step, t := Applied(node), s.(net := s.net.(links := s.net.links[node := Completed(link)]));
      CompletionWorksLess(link);
    } else if link.toAgent != [] {
      step, t := ToAgent(node), s.(net := s.net.(links := s.net.links[node := Received(link)]));
      ReceiptWorksLess(link);
    } else {
      var left := link.(toController := link.toController[1..]);
      step, t :=
        ToController(node), System(Acknowledged(s.controller, node, link).0,
        s.net.(links := s.net.links[node := left]));
    }
  }

  predicate WindowFree(s: System, node: NodeId) {
    && node in s.net.links && node in s.controller.deliveries
    && s.controller.deliveries[node].pending == [] && Tokens(s.net.links[node]) == 0
  }

  /**
   * No window stays occupied for want of a move: from every reachable state, finitely many deliveries and
   * confirmations of one link, and nothing else, free its window.
   */
  lemma {:induction false} WindowCanBeFreed(s: System, node: NodeId)
    returns (states: seq<System>, steps: seq<Step>, t: System)
    requires SystemInv(s) && node in s.net.links
    ensures OwnRun(states, steps, node, s, t) && SystemInv(t) && WindowFree(t, node)
    decreases Work(s.net.links[node])
  {
    hide SystemInv, Next, Work, Tokens, OwnStep;
    TokensBalance(s, node);
    if s.controller.deliveries[node].pending == [] {
      states, steps, t := [s], [], s;
    } else {
      var step, next := LinkMovesOn(s, node);
      NextKeeps(s, step, next);
      var later, more, end := WindowCanBeFreed(next, node);
      OwnRunExtends(later, more, node, s, step, next, end);
      states, steps, t := [s] + later, [step] + more, end;
    }
  }
}
