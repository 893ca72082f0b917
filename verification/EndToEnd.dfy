/**
 * From the events accepted at the controller to the batches applied at an agent, in the composed system: what
 * an agent applied for an epoch is observed like what was accepted during it.
 */
module EndToEnd {
  import opened Base
  import opened Topology
  import opened Input
  import opened Coalesce
  import opened Controller
  import opened ControllerInvariant
  import opened Delivery
  import opened DeliveryTheorems
  import opened Intervals

  // The record of the controller along a run of the composed system.
  ghost function HistoryAfter(h: History, s: System, step: Step, t: System): History {
    if Operates(step) then
      var r := Operation(s.controller, step);
      if r.result.Ok? then Record(h, step, r.state, r.result.value) else h
    else h.(controller := t.controller)
  }

  ghost function HistoryOf(states: seq<System>, steps: seq<Step>, i: nat): History
    requires |states| == |steps| + 1 && i < |states|
  {
    if i == 0 then History(states[0].controller, [], Interval(1, [], [], [], [], true))
    else HistoryAfter(HistoryOf(states, steps, i - 1), states[i - 1], steps[i - 1], states[i])
  }

  // The batches of one epoch.
  function OfEpoch(batches: seq<InputBatch>, epoch: int): seq<InputBatch> {
    if batches == [] then []
    else
      var last := batches[|batches| - 1];
      OfEpoch(batches[..|batches| - 1], epoch) + if last.focusEpoch == epoch then [last] else []
  }

  function TargetOf(epochs: seq<Focus>, epoch: int): Option<NodeId> {
    if 2 <= epoch < |epochs| + 2 then Some(epochs[epoch - 2].target) else None
  }

  // For epoch e + 1 a node was sent exactly the recorded batches, if it is the target, and none otherwise.
  predicate MatchesAt(net: Net, all: seq<Interval>, node: NodeId, e: nat)
    requires node in net.links && e < |all|
  {
    OfEpoch(net.links[node].sent, e + 1) == if TargetOf(net.epochs, e + 1) == Some(node) then all[e].batches else []
  }

  ghost predicate Matches(net: Net, all: seq<Interval>, node: NodeId)
    requires node in net.links
  {
    forall e: nat :: e < |all| ==> MatchesAt(net, all, node, e)
  }

  ghost predicate Joined(s: System, h: History) {
    && SystemInv(s) && HistoryInv(h) && h.controller == s.controller
    && forall node :: node in s.net.links ==> Matches(s.net, AllIntervals(h), node)
  }

  lemma {:induction false} OfEpochJoins(a: seq<InputBatch>, b: seq<InputBatch>, epoch: int)
    ensures OfEpoch(a + b, epoch) == OfEpoch(a, epoch) + OfEpoch(b, epoch)
  {
    if b == [] {
      assert a + b == a;
    } else {
      OfEpochJoins(a, b[..|b| - 1], epoch);
      assert (a + b)[..|a + b| - 1] == a + b[..|b| - 1];
    }
  }

  lemma {:induction false} AllOfEpoch(batches: seq<InputBatch>, own: int, epoch: int)
    requires forall b :: b in batches ==> b.focusEpoch == own
    ensures OfEpoch(batches, epoch) == if epoch == own then batches else []
  {
    if batches != [] {
      var front, last := batches[..|batches| - 1], batches[|batches| - 1];
      AllOfEpoch(front, own, epoch);
      assert last in batches;
      assert batches == front + [last] && front + [] == front;
      assert OfEpoch(batches, epoch) == OfEpoch(front, epoch) + if last.focusEpoch == epoch then [last] else [];
    }
  }

  // ---- What an operation sends ----

  // The batches an action list sends to one node.
  function SentBy(action: Action, node: NodeId): seq<InputBatch> {
    if action.Send? && action.peer == node && action.message.InputMessage? then [action.message.batch] else []
  }

  function SentTo(actions: seq<Action>, node: NodeId): seq<InputBatch> {
    if actions == [] then [] else SentBy(actions[0], node) + SentTo(actions[1..], node)
  }

  lemma EmitOneSends(net: Net, action: Action, node: NodeId)
    requires node in net.links && (action.Broadcast? ==> action.message.FocusChanged?)
    ensures node in Emit(net, action).links
    ensures Emit(net, action).links[node].sent == net.links[node].sent + SentBy(action, node)
  {
    var none: seq<InputBatch> := [];
    assert net.links[node].sent + none == net.links[node].sent;
  }

  lemma {:induction false} EmitSends(net: Net, actions: seq<Action>, node: NodeId)
    requires node in net.links && forall a :: a in actions && a.Broadcast? ==> a.message.FocusChanged?
    ensures node in EmitAll(net, actions).links
    ensures EmitAll(net, actions).links[node].sent == net.links[node].sent + SentTo(actions, node)
    decreases |actions|
  {
    if actions == [] {
      assert net.links[node].sent + [] == net.links[node].sent;
    } else {
      EmitOneSends(net, actions[0], node);
      hide Emit, SentBy;
      EmitSends(Emit(net, actions[0]), actions[1..], node);
      Regroup(net.links[node].sent, SentBy(actions[0], node), SentTo(actions[1..], node));
    }
  }

  lemma ShapeKeepsPlace(c: State, m: State, sent: State, t: State, first: seq<Action>, second: seq<Action>,
          actions: seq<Action>)
    requires Shape(c, m, sent, t, first, second, actions)
    ensures m.focus == c.focus && m.epoch == c.epoch
    ensures MaybeSends(m, sent, first) && MaybeBroadcasts(sent, t, second) && actions == first + second
  {
    hide Inv;
  }

  lemma {:induction false} SentToJoins(a: seq<Action>, b: seq<Action>, node: NodeId)
    ensures SentTo(a + b, node) == SentTo(a, node) + SentTo(b, node)
  {
    hide SentBy;
    if a == [] {
      assert a + b == b;
    } else {
      SentToJoins(a[1..], b, node);
      assert (a + b)[0] == a[0] && (a + b)[1..] == a[1..] + b;
      Regroup(SentBy(a[0], node), SentTo(a[1..], node), SentTo(b, node));
    }
  }

  lemma FirstSends(m: State, sent: State, first: seq<Action>, node: NodeId)
    requires MaybeSends(m, sent, first)
    ensures SentTo(first, node) == if node == m.focus then BatchesOf(first) else []
    ensures forall a :: a in first ==> a.Send?
    ensures forall b :: b in BatchesOf(first) ==> b.focusEpoch == m.epoch
  {
    hide Inv;
    if first != [] {
      assert first[1..] == [];
    }
  }

  lemma {:induction false} NoSends(actions: seq<Action>, node: NodeId)
    requires forall a :: a in actions ==> !a.Send?
    ensures SentTo(actions, node) == [] && BatchesOf(actions) == []
  {
    if actions != [] {
      NoSends(actions[1..], node);
    }
  }

  lemma SecondSends(sent: State, t: State, second: seq<Action>, node: NodeId)
    requires MaybeBroadcasts(sent, t, second)
    ensures SentTo(second, node) == [] && BatchesOf(second) == []
    ensures forall a :: a in second && a.Broadcast? ==> a.message.FocusChanged?
  {
    hide Inv, FindScreen, PeerNodes, FocusPosition;
    if second != [] {
      NoSends(second, node);
    }
  }

  lemma ShapeSends(c: State, step: Step, node: NodeId)
    requires Operates(step) && Inv(c) && (step.Rearrange? ==> SamePeers(c, step.screens))
    requires Operation(c, step).result.Ok?
    ensures var actions := Operation(c, step).result.value;
            && SentTo(actions, node) == (if node == c.focus then BatchesOf(actions) else [])
            && (forall a :: a in actions && a.Broadcast? ==> a.message.FocusChanged?)
            && (forall b :: b in BatchesOf(actions) ==> b.focusEpoch == c.epoch)
  {
    hide Operation, Inv, SamePeers, Stays;
    var m, sent, first, second := OperationShape(c, step);
    ShapeKeepsPlace(c, m, sent, Operation(c, step).state, first, second, Operation(c, step).result.value);
    FirstSends(m, sent, first, node);
    SecondSends(sent, Operation(c, step).state, second, node);
    SentToJoins(first, second, node);
    BatchesJoin(first, second);
  }

  // ---- Each step keeps the two records joined ----

  lemma SentEpochs(s: System, node: NodeId)
    requires SystemInv(s) && node in s.net.links
    ensures forall i :: 0 <= i < |s.net.links[node].sent| ==>
            2 <= s.net.links[node].sent[i].focusEpoch < |s.net.epochs| + 2
    ensures node != s.controller.local
  {
    hide Leads, AcksLead, PeerSize;
    assert LinkIn(s, node);
    forall i | 0 <= i < |s.net.links[node].sent|
      ensures 2 <= s.net.links[node].sent[i].focusEpoch < |s.net.epochs| + 2
    {
      assert SentOk(node, s.net.epochs, s.net.links[node].sent, i);
    }
    PeerNodesAreScreens(s.controller.screens, s.controller.local, node);
  }

  lemma {:induction false} NoneOfEpoch(batches: seq<InputBatch>, epoch: int)
    requires forall i :: 0 <= i < |batches| ==> batches[i].focusEpoch != epoch
    ensures OfEpoch(batches, epoch) == []
  {
    if batches != [] {
      NoneOfEpoch(batches[..|batches| - 1], epoch);
    }
  }

  // What a step records: batches of the current epoch, and perhaps a new epoch without any.
  lemma RecordedBatches(h: History, step: Step, c: State, actions: seq<Action>, e: nat)
    requires e < |AllIntervals(Record(h, step, c, actions))|
    ensures e <= |h.past| + 1
    ensures AllIntervals(Record(h, step, c, actions))[e].batches
            == if e < |h.past| then AllIntervals(h)[e].batches
               else if e == |h.past| then AllIntervals(h)[e].batches + BatchesOf(actions) else []
  {
    hide AcceptedBy, BatchesOf, Saturates;
  }

  lemma SameTarget(epochs: seq<Focus>, epochs': seq<Focus>, epoch: int)
    requires epochs <= epochs' && epoch < |epochs| + 2
    ensures TargetOf(epochs', epoch) == TargetOf(epochs, epoch)
  {
  }

  lemma MatchesOne(net: Net, all: seq<Interval>, node: NodeId, e: nat)
    requires node in net.links && Matches(net, all, node) && e < |all|
    ensures MatchesAt(net, all, node, e)
  {
  }

  lemma IntervalCount(h: History)
    ensures |AllIntervals(h)| == |h.past| + 1
  {
  }

  // Batches of the newest epoch add to that epoch alone, and nothing is known of a later one.
  lemma MoreOfEpoch(sent: seq<InputBatch>, more: seq<InputBatch>, newest: int, epoch: int)
    requires forall i :: 0 <= i < |sent| ==> sent[i].focusEpoch <= newest
    requires forall b :: b in more ==> b.focusEpoch == newest
    ensures OfEpoch(sent + more, epoch) == if epoch < newest then OfEpoch(sent, epoch)
                                           else if epoch == newest then OfEpoch(sent, epoch) + more else []
  {
    OfEpochJoins(sent, more, epoch);
    AllOfEpoch(more, newest, epoch);
    if epoch > newest {
      NoneOfEpoch(sent, epoch);
    }
    hide OfEpoch;
    assert OfEpoch(sent, epoch) + [] == OfEpoch(sent, epoch);
  }

  // What a node is sent in addition belongs to the current epoch, and only its target is sent anything.
  lemma MoreMatches(net: Net, net': Net, h: History, all: seq<Interval>, node: NodeId, e: nat, more: seq<InputBatch>,
          batches: seq<InputBatch>)
    requires node in net.links && node in net'.links && Matches(net, AllIntervals(h), node) && e < |all|
    requires net'.links[node].sent == net.links[node].sent + more && net.epochs <= net'.epochs
    requires |net.epochs| == |h.past| && (forall b :: b in batches ==> b.focusEpoch == |h.past| + 1)
    requires forall i :: 0 <= i < |net.links[node].sent| ==> net.links[node].sent[i].focusEpoch <= |h.past| + 1
    requires more == if TargetOf(net.epochs, |h.past| + 1) == Some(node) then batches else []
    requires e <= |h.past| + 1
    requires all[e].batches == if e < |h.past| then AllIntervals(h)[e].batches
                               else if e == |h.past| then AllIntervals(h)[e].batches + batches else []
    ensures MatchesAt(net', all, node, e)
  {
    hide OfEpoch, TargetOf, Matches, AllIntervals;
    if e < |h.past| + 1 {
      SameTarget(net.epochs, net'.epochs, e + 1);
      IntervalCount(h);
      MatchesOne(net, AllIntervals(h), node, e);
    }
    MoreOfEpoch(net.links[node].sent, more, |h.past| + 1, e + 1);
  }

  lemma MatchesAll(net: Net, all: seq<Interval>, node: NodeId)
    requires node in net.links && forall e: nat :: e < |all| ==> MatchesAt(net, all, node, e)
    ensures Matches(net, all, node)
  {
  }

  lemma ControllerInv(s: System)
    requires SystemInv(s)
    ensures Inv(s.controller)
  {
  }

  // The focus is the target of the current epoch, and no peer before the first change.
  lemma CurrentTarget(s: System, h: History, node: NodeId)
    requires Joined(s, h) && node in s.net.links
    ensures |s.net.epochs| == |h.past| && s.controller.epoch == |h.past| + 1
    ensures TargetOf(s.net.epochs, |h.past| + 1) == Some(node) <==> s.controller.focus == node
  {
    hide Sound, LinkIn, Faithful, Matches;
    SentEpochs(s, node);
  }

  lemma OperationMatches(s: System, h: History, step: Step, r: Outcome, node: NodeId)
    requires Joined(s, h) && node in s.net.links && Operates(step) && Enabled(s, step)
    requires r == Operation(s.controller, step) && r.result.Ok?
    requires s.net.epochs <= EmitAll(s.net, r.result.value).epochs && node in EmitAll(s.net, r.result.value).links
    ensures Matches(EmitAll(s.net, r.result.value), AllIntervals(Record(h, step, r.state, r.result.value)), node)
  {
    var actions, all := r.result.value, AllIntervals(Record(h, step, r.state, r.result.value));
    CurrentTarget(s, h, node);
    SentEpochs(s, node);
    hide SystemInv, HistoryInv, Operation, Matches, MatchesAt, EmitAll, Record, TargetOf, SamePeers;
    ControllerInv(s);
    ShapeSends(s.controller, step, node);
    EmitSends(s.net, actions, node);
    forall e: nat | e < |all| ensures MatchesAt(EmitAll(s.net, actions), all, node, e) {
      RecordedBatches(h, step, r.state, actions, e);
      MoreMatches(s.net, EmitAll(s.net, actions), h, all, node, e, SentTo(actions, node), BatchesOf(actions));
    }
    MatchesAll(EmitAll(s.net, actions), all, node);
  }

  lemma OtherMatches(s: System, t: System, all: seq<Interval>, node: NodeId)
    requires node in s.net.links && node in t.net.links && Matches(s.net, all, node)
    requires t.net.links[node].sent == s.net.links[node].sent && t.net.epochs == s.net.epochs
    ensures Matches(t.net, all, node)
  {
    forall e: nat | e < |all| ensures MatchesAt(t.net, all, node, e) {
      assert MatchesAt(s.net, all, node, e);
    }
  }

  ghost predicate Acknowledges(s: System, step: Step, t: System) {
    step.ToController? && exists through :: t.controller == Acknowledge(s.controller, step.node, through).0
  }

  lemma OtherSteps(s: System, step: Step, t: System)
    requires Next(s, step, t) && !Operates(step)
    ensures t.net.epochs == s.net.epochs && t.net.links.Keys == s.net.links.Keys
    ensures forall node :: node in s.net.links ==> t.net.links[node].sent == s.net.links[node].sent
    ensures t.controller == s.controller || (step.ToController? && Acknowledges(s, step, t))
  {
    hide Handled, Confirmed;
  }

  lemma RecordedController(h: History, step: Step, c: State, actions: seq<Action>)
    ensures Record(h, step, c, actions).controller == c
  {
  }

  lemma OperationNext(s: System, h: History, step: Step, t: System)
    requires Joined(s, h) && Operates(step) && Next(s, step, t)
    ensures Operation(s.controller, step).result.Ok?
    ensures t == System(Operation(s.controller, step).state, EmitAll(s.net, Operation(s.controller, step).result.value))
    ensures HistoryInv(HistoryAfter(h, s, step, t))
  {
    hide SystemInv, HistoryInv, Matches, Operation, EmitAll, Record;
    HistoryNextKeeps(h, Perform(step), HistoryAfter(h, s, step, t));
  }

  lemma JoinedOperation(s: System, h: History, step: Step, t: System)
    requires Joined(s, h) && Next(s, step, t) && Operates(step)
    ensures Joined(t, HistoryAfter(h, s, step, t))
  {
    hide SystemInv, HistoryInv, Matches, Operation, EmitAll, Record;
    NextKeeps(s, step, t);
    NextGrows(s, step, t);
    OperationNext(s, h, step, t);
    var r := Operation(s.controller, step);
    RecordedController(h, step, r.state, r.result.value);
    forall node | node in t.net.links ensures Matches(t.net, AllIntervals(HistoryAfter(h, s, step, t)), node) {
      OperationMatches(s, h, step, r, node);
    }
  }

  // An acknowledgement is a step of the record that changes the controller alone.
  lemma AcknowledgementIsRecorded(h: History, step: Step, t: State)
    requires HistoryInv(h) && step.ToController? &&
             exists through :: t == Acknowledge(h.controller, step.node, through).0
    ensures HistoryInv(h.(controller := t))
  {
    hide HistoryInv, Acknowledge;
    var through :| t == Acknowledge(h.controller, step.node, through).0;
    HistoryNextKeeps(h, Acknowledgement(step.node, through), h.(controller := t));
  }

  lemma JoinedOther(s: System, h: History, step: Step, t: System)
    requires Joined(s, h) && Next(s, step, t) && !Operates(step)
    ensures Joined(t, HistoryAfter(h, s, step, t))
  {
    hide SystemInv, HistoryInv, Matches, Next, Acknowledge;
    NextKeeps(s, step, t);
    OtherSteps(s, step, t);
    if t.controller != s.controller {
      AcknowledgementIsRecorded(h, step, t.controller);
    }
    assert h == h.(controller := s.controller);
    var k := HistoryAfter(h, s, step, t);
    forall node | node in t.net.links ensures Matches(t.net, AllIntervals(k), node) {
      OtherMatches(s, t, AllIntervals(h), node);
    }
  }

  lemma JoinedNext(s: System, h: History, step: Step, t: System)
    requires Joined(s, h) && Next(s, step, t)
    ensures Joined(t, HistoryAfter(h, s, step, t))
  {
    hide Joined, HistoryAfter, Next;
    if Operates(step) {
      JoinedOperation(s, h, step, t);
    } else {
      JoinedOther(s, h, step, t);
    }
  }

  lemma JoinedInit(s: System)
    requires Init(s)
    ensures Joined(s, History(s.controller, [], Interval(1, [], [], [], [], true)))
  {
    var h := History(s.controller, [], Interval(1, [], [], [], [], true));
    InitHolds(s);
    HistoryInitHolds(h);
    hide WellFormed, SystemInv, HistoryInv, PeerSize, FindScreen;
    forall node | node in s.net.links ensures Matches(s.net, AllIntervals(h), node) {
      assert s.net.links[node].sent == [];
    }
  }

  /** The records of the controller and of the links stay joined over whole runs. */
  lemma {:induction false} RunStaysJoined(states: seq<System>, steps: seq<Step>, i: nat)
    requires Run(states, steps) && i < |states|
    ensures Joined(states[i], HistoryOf(states, steps, i))
  {
    hide Joined, Next, Init, HistoryAfter;
    if i == 0 {
      JoinedInit(states[0]);
    } else {
      RunStaysJoined(states, steps, i - 1);
      assert Next(states[i - 1], steps[i - 1], states[i - 1 + 1]);
      JoinedNext(states[i - 1], HistoryOf(states, steps, i - 1), steps[i - 1], states[i]);
    }
  }

  lemma WindowIsDrained(s: System, node: NodeId)
    requires SystemInv(s) && node in s.net.links && node in s.controller.deliveries
    requires s.controller.deliveries[node].pending == []
    requires var link, d := s.net.links[node], s.controller.deliveries[node];
             link.applied <= link.sent && d.lastAcknowledged <= |link.applied| <= |link.sent| == d.lastSent
    ensures s.net.links[node].applied == s.net.links[node].sent
  {
    TokensBalance(s, node);
  }

  lemma AcceptedIsSent(s: System, h: History, node: NodeId, e: nat)
    requires Joined(s, h) && node in s.net.links
    requires e < |AllIntervals(h)| && TargetOf(s.net.epochs, e + 1) == Some(node)
    ensures var sent := Events(OfEpoch(s.net.links[node].sent, e + 1));
            var interval := AllIntervals(h)[e];
            && NonMotion(sent + interval.left) == NonMotion(interval.carried + interval.accepted)
            && (interval.exact ==> Observe(sent + interval.left) == Observe(interval.carried + interval.accepted))
            && (e + 1 == s.controller.epoch && s.controller.buffer == [] ==> interval.left == [])
  {
    hide SystemInv, Sound, Observe, NonMotion, Events;
    assert MatchesAt(s.net, AllIntervals(h), node, e);
    if e < |h.past| {
      assert Faithful(h.past[e]);
    }
  }

  /**
   * End to end: in any run of the composed system, once a node's window is free, the batches its agent applied
   * for an epoch that it is the target of, followed by what that epoch left unsent, hold exactly the keys,
   * buttons and scrolls carried into and accepted in the epoch and, unless a merge saturated, are observed
   * alike. For the current epoch with an empty buffer nothing is left unsent.
   */
  lemma AppliedIsAccepted(states: seq<System>, steps: seq<Step>, i: nat, node: NodeId, e: nat)
    requires Run(states, steps) && i < |states| && node in states[i].net.links
    requires node in states[i].controller.deliveries && states[i].controller.deliveries[node].pending == []
    requires e < |AllIntervals(HistoryOf(states, steps, i))| && TargetOf(states[i].net.epochs, e + 1) == Some(node)
    ensures var applied := Events(OfEpoch(states[i].net.links[node].applied, e + 1));
            var h := HistoryOf(states, steps, i);
            var interval := AllIntervals(h)[e];
            && NonMotion(applied + interval.left) == NonMotion(interval.carried + interval.accepted)
            && (interval.exact ==> Observe(applied + interval.left) == Observe(interval.carried + interval.accepted))
            && (e + 1 == states[i].controller.epoch && states[i].controller.buffer == [] ==> interval.left == [])
  {
    RunStaysJoined(states, steps, i);
    AppliedIsPrefixOfSent(states, steps, i, node);
    var s, h := states[i], HistoryOf(states, steps, i);
    hide Run, Init, Next, HistoryOf;
    AcceptedIsSent(s, h, node, e);
    WindowIsDrained(s, node);
  }
}
