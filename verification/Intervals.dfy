/**
 * Batching preserves meaning: over any run of the controller, the batches labelled with an epoch, followed
 * by what was left unsent, are observed exactly like the events accepted during that epoch.
 */
module Intervals {
  import opened Base
  import opened Geometry
  import opened Topology
  import opened Input
  import opened Coalesce
  import opened Controller
  import opened Cursor
  import opened ControllerInvariant
  import opened Delivery

  // One focus epoch: the events it inherited, accepted, sent and left unsent, and whether no merge
  // saturated.
  datatype Interval = Interval(
    epoch: int,
    carried: seq<InputEvent>,
    accepted: seq<InputEvent>,
    batches: seq<InputBatch>,
    left: seq<InputEvent>,
    exact: bool)

  datatype History = History(controller: State, past: seq<Interval>, current: Interval)

  datatype ControllerStep =
    | Perform(step: Step)
    | Acknowledgement(peer: NodeId, through: U64)
    | Reconnect(peer: NodeId)

  function Events(batches: seq<InputBatch>): seq<InputEvent> {
    if batches == [] then [] else Events(batches[..|batches| - 1]) + batches[|batches| - 1].events
  }

  function BatchOf(action: Action): seq<InputBatch> {
    if action.Send? && action.message.InputMessage? then [action.message.batch] else []
  }

  function BatchesOf(actions: seq<Action>): seq<InputBatch> {
    if actions == [] then [] else BatchOf(actions[0]) + BatchesOf(actions[1..])
  }

  predicate Operates(step: Step) {
    step.ActivateEdge? || step.Route? || step.FlushBuffer? || step.ReturnControl? || step.Rearrange?
  }

  // The event a step accepts for the focused node; a motion that crosses is not one.
  function AcceptedBy(c: State, step: Step): seq<InputEvent> {
    if step.Route? && CrossingOf(c, step.event) == Ok(None) then [step.event] else []
  }

  // The current interval after a step: what was accepted, sent and left in this epoch.
  function Recorded(h: History, step: Step, c: State, actions: seq<Action>): Interval {
    var accepted := AcceptedBy(h.controller, step);
    h.current.(
      accepted := h.current.accepted + accepted,
      batches := h.current.batches + BatchesOf(actions),
      left := if step.ReturnControl? then h.controller.buffer else c.buffer,
      exact := h.current.exact && forall e :: e in accepted ==> !Saturates(h.controller.buffer, e))
  }

  function Record(h: History, step: Step, c: State, actions: seq<Action>): History {
    var current := Recorded(h, step, c, actions);
    if c.epoch == h.controller.epoch then History(c, h.past, current.(left := c.buffer))
    else History(c, h.past + [current], Interval(c.epoch, c.buffer, [], [], c.buffer, true))
  }

  ghost predicate HistoryInit(h: History) {
    && WellFormed(h.controller.screens)
    && New(h.controller.screens, h.controller.local) == Ok(h.controller)
    && h.past == [] && h.current == Interval(1, [], [], [], [], true)
  }

  ghost predicate HistoryNext(h: History, step: ControllerStep, k: History) {
    match step
    case Perform(op) =>
      && Operates(op)
      && (op.Rearrange? ==> WellFormed(op.screens))
      && var r := Operation(h.controller, op);
         r.result.Ok? && k == Record(h, op, r.state, r.result.value)
    case Acknowledgement(peer, through) => k == h.(controller := Acknowledge(h.controller, peer, through).0)
    case Reconnect(peer) => k == h.(controller := ResetPeer(h.controller, peer).0)
  }

  ghost predicate HistoryRun(states: seq<History>, steps: seq<ControllerStep>) {
    && |states| == |steps| + 1
    && HistoryInit(states[0])
    && forall i :: 0 <= i < |steps| ==> HistoryNext(states[i], steps[i], states[i + 1])
  }

  // ---- Invariant ----

  predicate BatchOk(epoch: int, batch: InputBatch) {
    batch.focusEpoch == epoch && 0 < |batch.events| <= MAX_INPUT_EVENTS_PER_BATCH
  }

  predicate Faithful(i: Interval) {
    && (forall b :: b in i.batches ==> BatchOk(i.epoch, b))
    && NonMotion(Events(i.batches) + i.left) == NonMotion(i.carried + i.accepted)
    && (i.exact ==> Observe(Events(i.batches) + i.left) == Observe(i.carried + i.accepted))
  }

  predicate Chained(past: seq<Interval>, current: Interval) {
    && (forall i :: 0 <= i < |past| ==> past[i].epoch == i + 1)
    && (forall i :: 0 < i < |past| ==> past[i].carried in {[], past[i - 1].left})
    && current.epoch == |past| + 1
    && (past != [] ==> past[0].carried == [])
    && (if past == [] then current.carried == [] else current.carried in {[], past[|past| - 1].left})
  }

  ghost predicate HistoryInv(h: History) {
    && Sound(h.controller)
    && h.current.epoch == h.controller.epoch && h.current.left == h.controller.buffer
    && Chained(h.past, h.current)
    && (forall i :: 0 <= i < |h.past| ==> Faithful(h.past[i]))
    && Faithful(h.current)
  }

  // ---- What each operation does to the buffered events ----

  lemma {:induction false} EventsJoin(a: seq<InputBatch>, b: seq<InputBatch>)
    ensures Events(a + b) == Events(a) + Events(b)
  {
    if b == [] {
      assert a + b == a;
    } else {
      var front, last := b[..|b| - 1], b[|b| - 1];
      EventsJoin(a, front);
      assert (a + b)[..|a + b| - 1] == a + front && (a + b)[|a + b| - 1] == last;
      Regroup(Events(a), Events(front), last.events);
    }
  }

  lemma {:induction false} BatchesJoin(a: seq<Action>, b: seq<Action>)
    ensures BatchesOf(a + b) == BatchesOf(a) + BatchesOf(b)
  {
    hide BatchOf;
    if a == [] {
      assert a + b == b;
    } else {
      BatchesJoin(a[1..], b);
      assert (a + b)[0] == a[0] && (a + b)[1..] == a[1..] + b;
      Regroup(BatchOf(a[0]), BatchesOf(a[1..]), BatchesOf(b));
    }
  }

  // The actions carry batches of epoch `epoch`, and these followed by `left` are the events `all`.
  predicate Carries(actions: seq<Action>, epoch: int, left: seq<InputEvent>, all: seq<InputEvent>) {
    && (forall b :: b in BatchesOf(actions) ==> BatchOk(epoch, b))
    && Events(BatchesOf(actions)) + left == all
  }

  lemma CarriesNothing(epoch: int, left: seq<InputEvent>)
    ensures Carries([], epoch, left, left)
  {
    assert Events([]) + left == left;
  }

  lemma CarriesThen(a: seq<Action>, b: seq<Action>, epoch: int, middle: seq<InputEvent>, left: seq<InputEvent>,
          all: seq<InputEvent>)
    requires Carries(a, epoch, middle, all) && Carries(b, epoch, left, middle)
    ensures Carries(a + b, epoch, left, all)
  {
    hide BatchesOf, Events, BatchOk;
    BatchesJoin(a, b);
    EventsJoin(BatchesOf(a), BatchesOf(b));
    Regroup(Events(BatchesOf(a)), Events(BatchesOf(b)), left);
  }

  lemma FlushCarries(c: State)
    requires |c.buffer| <= MAX_INPUT_EVENTS_PER_BATCH && Flush(c).result.Ok?
    ensures var r := Flush(c); Carries(r.result.value, c.epoch, r.state.buffer, c.buffer) && r.state.epoch == c.epoch
  {
    var r := Flush(c);
    if r.result.value == [] {
      CarriesNothing(c.epoch, c.buffer);
    } else {
      var batch := r.result.value[0].message.batch;
      assert BatchesOf(r.result.value) == [batch];
      assert [batch][..0] == [] && Events([batch]) == Events([]) + batch.events;
    }
  }

  lemma AdvanceCarries(c: State, recipients: set<NodeId>)
    requires AdvanceEpochAndBroadcast(c, recipients).result.Ok?
    ensures var r := AdvanceEpochAndBroadcast(c, recipients);
            BatchesOf(r.result.value) == [] && r.state.epoch == c.epoch + 1 && r.state.buffer == c.buffer
  {
    var actions := AdvanceEpochAndBroadcast(c, recipients).result.value;
    assert BatchesOf([actions[|actions| - 1]]) == [];
    assert actions == actions[..|actions| - 1] + [actions[|actions| - 1]];
    BatchesJoin(actions[..|actions| - 1], [actions[|actions| - 1]]);
  }

  lemma FlushOfNothing(c: State)
    ensures c.buffer == [] ==> Flush(c).state.buffer == []
  {
  }

  lemma CarriesSilently(actions: seq<Action>, epoch: int, left: seq<InputEvent>)
    requires BatchesOf(actions) == []
    ensures Carries(actions, epoch, left, left)
  {
    assert Events([]) + left == left;
  }

  lemma ChangeFocusCarries(c: State, target: NodeId, position: Point)
    requires |c.buffer| <= MAX_INPUT_EVENTS_PER_BATCH && ChangeFocus(c, target, position).result.Ok?
    ensures var r := ChangeFocus(c, target, position);
            && Carries(r.result.value, c.epoch, r.state.buffer, c.buffer)
            && (r.state.epoch == c.epoch || (r.state.epoch == c.epoch + 1 && r.state.buffer == []))
            && (c.buffer == [] ==> r.state.epoch == c.epoch + 1)
  {
    hide Flush, FindScreen, PeerNodes, ClampLocalPosition, AdvanceEpochAndBroadcast, Carries;
    FlushCarries(c);
    var flushed := Flush(c);
    FlushOfNothing(c);
    if flushed.state.buffer == [] && FindScreen(c.screens, target).Some? {
      var moved :=
        SetFocusPosition(flushed.state.(focus := target),
        ClampLocalPosition(FindScreen(c.screens, target).value, position));
      AdvanceCarries(moved, PeerNodes(c.screens, c.local));
      var advanced := AdvanceEpochAndBroadcast(moved, PeerNodes(c.screens, c.local));
      CarriesSilently(advanced.result.value, c.epoch, []);
      CarriesThen(flushed.result.value, advanced.result.value, c.epoch, [], [], c.buffer);
    }
  }

  lemma ObserveKeepsBuffer(c: State, event: InputEvent)
    ensures var t := ObservePointer(c, event).state;
            t.buffer == c.buffer && t.epoch == c.epoch && t.focus == c.focus && t.local == c.local
  {
  }

  lemma PushApart(events: seq<InputEvent>, event: InputEvent)
    requires !CanCoalesce(events, event) || events == []
    ensures Push(events, event) == events + [event]
  {
  }

  // A full buffer is sent before the event is buffered alone.
  lemma FlushedPush(c: State, event: InputEvent)
    requires Accept(c, event).result.Ok? && |c.buffer| >= MAX_INPUT_EVENTS_PER_BATCH && !CanCoalesce(c.buffer, event)
    requires Flush(c).result.Ok? ==> Flush(c).state.buffer == [] || Flush(c).state == c
    ensures Flush(c).result.Ok? && Flush(c).state.buffer == []
    ensures Accept(c, event).result == Flush(c).result && Accept(c, event).state.buffer == [event]
    ensures Accept(c, event).state.epoch == Flush(c).state.epoch
  {
    hide Flush;
    var flushed := Flush(c).state;
    ObserveKeepsBuffer(flushed, event);
    PushApart(flushed.buffer, event);
  }

  lemma CarriesAlso(actions: seq<Action>, epoch: int, more: seq<InputEvent>, all: seq<InputEvent>)
    requires Carries(actions, epoch, [], all)
    ensures Carries(actions, epoch, more, all + more)
  {
    assert Events(BatchesOf(actions)) + [] == Events(BatchesOf(actions));
  }

  // Accepting an event pushes it behind what is sent or buffered, whether or not a flush happens first.
  lemma AcceptCarries(c: State, event: InputEvent)
    requires Inv(c) && c.focus != c.local && Accept(c, event).result.Ok?
    ensures var r := Accept(c, event);
            r.state.epoch == c.epoch && Carries(r.result.value, c.epoch, r.state.buffer, Push(c.buffer, event))
  {
    hide Flush, ObservePointer, Inv, Carries, CanCoalesce, Push;
    BufferBound(c);
    PushLength(c.buffer, event);
    if |c.buffer| >= MAX_INPUT_EVENTS_PER_BATCH && !CanCoalesce(c.buffer, event) {
      FlushCarries(c);
      FlushSound(c);
      FlushedPush(c, event);
      PushApart(c.buffer, event);
      CarriesAlso(Flush(c).result.value, c.epoch, [event], c.buffer);
    } else {
      ObserveKeepsBuffer(c, event);
      var pushed := ObservePointer(c, event).state.(buffer := Push(c.buffer, event));
      CarriesNothing(c.epoch, pushed.buffer);
      if |pushed.buffer| >= MAX_INPUT_EVENTS_PER_BATCH {
        FlushCarries(pushed);
        CarriesThen([], Flush(pushed).result.value, c.epoch, pushed.buffer, Flush(pushed).state.buffer, pushed.buffer);
      }
    }
  }

  lemma ReconcileCarries(c: State, screens: seq<ScreenPlacement>)
    requires |c.buffer| <= MAX_INPUT_EVENTS_PER_BATCH && ReconcileTopology(c, screens).result.Ok?
    ensures var r := ReconcileTopology(c, screens);
            r.state.epoch == c.epoch + 1 && Carries(r.result.value, c.epoch, r.state.buffer, c.buffer)
  {
    hide Flush, FindScreen, PeerNodes, AdvanceEpochAndBroadcast, Carries, ScreenCenter;
    FlushCarries(c);
    var flushed := Flush(c);
    var fitted := Refitted(c, screens);
    var recipients := PeerNodes(c.screens, c.local) + PeerNodes(screens, c.local);
    AdvanceCarries(fitted, recipients);
    var advanced := AdvanceEpochAndBroadcast(fitted, recipients);
    CarriesSilently(advanced.result.value, c.epoch, flushed.state.buffer);
    CarriesThen(flushed.result.value, advanced.result.value, c.epoch, flushed.state.buffer, flushed.state.buffer,
      c.buffer);
  }

  lemma {:induction false} EventsLonger(epoch: int, batches: seq<InputBatch>)
    requires forall b :: b in batches ==> BatchOk(epoch, b)
    ensures |Events(batches)| >= |batches|
  {
    if batches != [] {
      EventsLonger(epoch, batches[..|batches| - 1]);
      assert batches[|batches| - 1] in batches;
    }
  }

  lemma NothingCarried(actions: seq<Action>, epoch: int, left: seq<InputEvent>)
    requires Carries(actions, epoch, left, [])
    ensures BatchesOf(actions) == [] && left == []
  {
    EventsLonger(epoch, BatchesOf(actions));
  }

  lemma ReturnCarries(c: State)
    requires Inv(c) && ReturnToLocal(c).result.Ok?
    ensures var r := ReturnToLocal(c);
            && BatchesOf(r.result.value) == []
            && (r.state == c || (r.state.epoch == c.epoch + 1 && r.state.buffer == []))
  {
    hide Carries, ChangeFocus, Sound;
    if c.focus != c.local && FindScreen(c.screens, c.local).Some? {
      var center := ScreenCenter(FindScreen(c.screens, c.local).value);
      ChangeFocusCarries(c.(buffer := []), c.local, center);
      NothingCarried(ReturnToLocal(c).result.value, c.epoch, ReturnToLocal(c).state.buffer);
    }
  }

  lemma FlushShorter(c: State)
    ensures |Flush(c).state.buffer| <= |c.buffer|
  {
  }

  lemma RouteCarries(c: State, event: InputEvent)
    requires Inv(c) && RouteInput(c, event).result.Ok?
    ensures var r := RouteInput(c, event);
            && (r.state.epoch == c.epoch || (r.state.epoch == c.epoch + 1 && r.state.buffer == []))
            && Carries(r.result.value, c.epoch, r.state.buffer, if CrossingOf(c, event) == Ok(None)
                 then Push(c.buffer, event) else c.buffer)
  {
    hide Carries, ChangeFocus, Flush, Accept, CrossingOf, Inv, Push;
    BufferBound(c);
    match CrossingOf(c, event)
    case Err(_) =>
    case Ok(None) => AcceptCarries(c, event);
    case Ok(Some(crossing)) =>
      FlushCarries(c);
      FlushShorter(c);
      var flushed := Flush(c);
      ChangeFocusCarries(flushed.state, crossing.0, crossing.1);
      var moved := ChangeFocus(flushed.state, crossing.0, crossing.1);
      CarriesThen(flushed.result.value, moved.result.value, c.epoch, flushed.state.buffer, moved.state.buffer,
        c.buffer);
  }

  // Every operation: what it sends and leaves is what was buffered, with the accepted event pushed.
  lemma OperationCarries(c: State, step: Step)
    requires Inv(c) && Operates(step) && !step.ReturnControl? && Operation(c, step).result.Ok?
    ensures var r := Operation(c, step);
            && r.state.epoch in {c.epoch, c.epoch + 1}
            && Carries(r.result.value, c.epoch, r.state.buffer,
                       if AcceptedBy(c, step) == [] then c.buffer else Push(c.buffer, AcceptedBy(c, step)[0]))
            && (r.state.epoch != c.epoch && !step.Rearrange? ==> r.state.buffer == [])
  {
    hide Carries, ChangeFocus, Flush, RouteInput, CrossingOf, Inv, Push, ReconcileTopology, Cross;
    BufferBound(c);
    match step
    case ActivateEdge(edge, offset) =>
      if c.focus == c.local && Cross(c.screens, c.local, edge, offset).Some? {
        var crossing := Cross(c.screens, c.local, edge, offset).value;
        ChangeFocusCarries(c, crossing.target, crossing.localPosition);
      }
    case Route(event) => RouteCarries(c, event);
    case FlushBuffer => FlushCarries(c);
    case Rearrange(screens) => ReconcileCarries(c, screens);
  }

  lemma MeaningStep(i: Interval, sent: seq<InputEvent>, buffer: seq<InputEvent>, e: InputEvent)
    requires Observe(sent + buffer) == Observe(i.carried + i.accepted) && !Saturates(buffer, e)
    ensures Observe(sent + Push(buffer, e)) == Observe(i.carried + (i.accepted + [e]))
  {
    hide Observe, Push, Saturates;
    PushPreservesMeaningAfter(sent, buffer, e);
    SameObservationContinues(sent + buffer, i.carried + i.accepted, [e]);
    assert i.carried + i.accepted + [e] == i.carried + (i.accepted + [e]);
  }

  lemma NonMotionStep(i: Interval, sent: seq<InputEvent>, buffer: seq<InputEvent>, e: InputEvent)
    requires NonMotion(sent + buffer) == NonMotion(i.carried + i.accepted)
    ensures NonMotion(sent + Push(buffer, e)) == NonMotion(i.carried + (i.accepted + [e]))
  {
    hide NonMotion, Push;
    PushKeepsNonMotion(buffer, e);
    NonMotionJoins(sent, Push(buffer, e));
    NonMotionJoins(buffer, [e]);
    NonMotionJoins(sent, buffer);
    NonMotionJoins(i.carried + i.accepted, [e]);
    Regroup(NonMotion(sent), NonMotion(buffer), NonMotion([e]));
    assert i.carried + i.accepted + [e] == i.carried + (i.accepted + [e]);
  }

  lemma FaithfulStep(i: Interval, buffer: seq<InputEvent>, accepted: seq<InputEvent>, actions: seq<Action>,
          left: seq<InputEvent>, exact: bool)
    requires Faithful(i) && i.left == buffer && |accepted| <= 1
    requires Carries(actions, i.epoch, left, if accepted == [] then buffer else Push(buffer, accepted[0]))
    requires exact ==> i.exact && forall e :: e in accepted ==> !Saturates(buffer, e)
    ensures Faithful(i.(accepted := i.accepted + accepted, batches := i.batches + BatchesOf(actions), left := left,
            exact := exact))
  {
    hide Observe, NonMotion, Push, Saturates, Events, BatchesOf, BatchOk;
    var sent := Events(i.batches);
    EventsJoin(i.batches, BatchesOf(actions));
    if accepted == [] {
      assert i.accepted + accepted == i.accepted;
      assert sent + Events(BatchesOf(actions)) + left == sent + buffer;
    } else {
      var e := accepted[0];
      assert accepted == [e] && e in accepted;
      assert sent + Events(BatchesOf(actions)) + left == sent + Push(buffer, e);
      NonMotionStep(i, sent, buffer, e);
      if exact {
        MeaningStep(i, sent, buffer, e);
      }
    }
  }

  lemma FreshIsFaithful(epoch: int, buffer: seq<InputEvent>)
    ensures Faithful(Interval(epoch, buffer, [], [], buffer, true))
  {
    assert Events([]) + buffer == buffer + [];
  }

  lemma AcceptsOne(c: State, step: Step)
    ensures |AcceptedBy(c, step)| <= 1
    ensures !step.Route? ==> AcceptedBy(c, step) == []
  {
  }

  lemma ReturnStep(c: State, step: Step)
    requires Inv(c) && step.ReturnControl? && Operation(c, step).result.Ok?
    ensures var r := Operation(c, step);
            && BatchesOf(r.result.value) == []
            && (r.state == c || (r.state.epoch == c.epoch + 1 && r.state.buffer == []))
  {
    hide ReturnToLocal, Inv, BatchesOf;
    ReturnCarries(c);
  }

  lemma RecordedFaithful(h: History, step: Step)
    requires HistoryInv(h) && Inv(h.controller) && Operates(step) && Operation(h.controller, step).result.Ok?
    ensures var r := Operation(h.controller, step);
            && Faithful(Recorded(h, step, r.state, r.result.value))
            && r.state.epoch in {h.controller.epoch, h.controller.epoch + 1}
            && (step.ReturnControl? && r.state.epoch == h.controller.epoch ==> r.state.buffer == h.controller.buffer)
            && (r.state.epoch != h.controller.epoch ==>
                  r.state.buffer in {[], Recorded(h, step, r.state, r.result.value).left})
  {
    hide Carries, Operation, Inv, Faithful, AcceptedBy, Saturates, Chained, BatchesOf;
    var c := h.controller;
    var r := Operation(c, step);
    var actions := r.result.value;
    var accepted := AcceptedBy(c, step);
    var exact := h.current.exact && forall e :: e in accepted ==> !Saturates(c.buffer, e);
    AcceptsOne(c, step);
    if step.ReturnControl? {
      ReturnStep(c, step);
      CarriesSilently(actions, h.current.epoch, c.buffer);
      FaithfulStep(h.current, c.buffer, accepted, actions, c.buffer, exact);
    } else {
      OperationCarries(c, step);
      FaithfulStep(h.current, c.buffer, accepted, actions, r.state.buffer, exact);
    }
  }

  lemma RecordKeeps(h: History, step: Step)
    requires HistoryInv(h) && Inv(h.controller) && Operates(step) && Operation(h.controller, step).result.Ok?
    requires Sound(Operation(h.controller, step).state)
    ensures var r := Operation(h.controller, step); HistoryInv(Record(h, step, r.state, r.result.value))
  {
    hide Operation, Inv, Sound, Faithful, AcceptedBy, Saturates, BatchesOf;
    RecordedFaithful(h, step);
    var r := Operation(h.controller, step);
    FreshIsFaithful(r.state.epoch, r.state.buffer);
  }

  // ---- Runs ----

  lemma OperationSound(c: State, step: Step)
    requires Inv(c) && Operates(step) && (step.Rearrange? ==> WellFormed(step.screens))
    requires Operation(c, step).result.Ok?
    ensures Sound(Operation(c, step).state)
    ensures Inv(Operation(c, step).state) <==> !(step.Rearrange? && Strands(c, step.screens))
  {
    hide Activate, RouteInput, Flush, ReturnToLocal, ReconcileTopology, WellFormed, Sound, Strands;
    match step
    case ActivateEdge(edge, offset) => var m, sent, first, second := ActivateShape(c, edge, offset);
    case Route(event) => var m, sent, first, second := RouteInputShape(c, event);
    case ReturnControl => var m, sent, first, second := ReturnToLocalShape(c);
    case FlushBuffer => FlushSound(c);
    case Rearrange(screens) => ReconcileStrandsInput(c, screens);
  }

  // From a stranded state a successful operation does nothing at all.
  lemma StrandedOperation(h: History, step: Step)
    requires Stranded(h.controller) && Operates(step) && Operation(h.controller, step).result.Ok?
    requires h.current.epoch == h.controller.epoch && h.current.left == h.controller.buffer
    ensures step.ReturnControl?
    ensures var r := Operation(h.controller, step); Record(h, step, r.state, r.result.value) == h
  {
    var c := h.controller;
    hide Activate, RouteInput, Flush, ReturnToLocal, ReconcileTopology, CrossingOf;
    match step
    case ActivateEdge(edge, offset) => StrandedStays(c, edge, offset, InputEvent(0, PointerRelative(0, 0)), []);
    case Route(event) => StrandedStays(c, Left, 0, event, []);
    case ReturnControl => StrandedStays(c, Left, 0, InputEvent(0, PointerRelative(0, 0)), []);
    case FlushBuffer => StrandedStays(c, Left, 0, InputEvent(0, PointerRelative(0, 0)), []);
    case Rearrange(screens) => StrandedStays(c, Left, 0, InputEvent(0, PointerRelative(0, 0)), screens);
  }

  lemma SoundIsInvOrStranded(c: State)
    requires Sound(c)
    ensures Inv(c) <==> !Stranded(c)
  {
    hide Sound;
  }

  lemma HistoryNextKeeps(h: History, step: ControllerStep, k: History)
    requires HistoryInv(h) && HistoryNext(h, step, k)
    ensures HistoryInv(k)
  {
    hide Operation, Sound, Faithful, Chained, Record, Strands;
    SoundIsInvOrStranded(h.controller);
    match step
    case Perform(op) =>
      if Stranded(h.controller) {
        StrandedOperation(h, op);
      } else {
        OperationSound(h.controller, op);
        RecordKeeps(h, op);
      }
    case Acknowledgement(peer, through) => AcknowledgeSound(h.controller, peer, through);
    case Reconnect(peer) => ResetPeerSound(h.controller, peer);
  }

  lemma NewBuffer(c: State)
    requires New(c.screens, c.local) == Ok(c)
    ensures c.epoch == 1 && c.buffer == []
  {
  }

  lemma HistoryInitHolds(h: History)
    requires HistoryInit(h)
    ensures HistoryInv(h)
  {
    hide WellFormed, Sound;
    NewSound(h.controller.screens, h.controller.local);
    FreshIsFaithful(1, []);
    NewBuffer(h.controller);
  }

  lemma {:induction false} HistoryRunKeeps(states: seq<History>, steps: seq<ControllerStep>, i: nat)
    requires HistoryRun(states, steps) && i < |states|
    ensures HistoryInv(states[i])
  {
    hide HistoryInv, HistoryNext, HistoryInit;
    if i == 0 {
      HistoryInitHolds(states[0]);
    } else {
      HistoryRunKeeps(states, steps, i - 1);
      assert HistoryNext(states[i - 1], steps[i - 1], states[i - 1 + 1]);
      HistoryNextKeeps(states[i - 1], steps[i - 1], states[i]);
    }
  }

  // All intervals of a history, the current one last.
  function AllIntervals(h: History): seq<Interval> {
    h.past + [h.current]
  }

  /**
   * In every state of every run, interval e holds the batches of epoch e + 1, each of 1 to 512 events. Those
   * batches and the unsent rest hold exactly the keys, buttons and scrolls carried in and accepted, in order,
   * and unless a merge saturated they are observed alike, each at the same cursor.
   */
  lemma BatchesPreserveMeaning(states: seq<History>, steps: seq<ControllerStep>, i: nat, e: nat)
    requires HistoryRun(states, steps) && i < |states| && e < |AllIntervals(states[i])|
    ensures var interval := AllIntervals(states[i])[e];
            && interval.epoch == e + 1
            && (forall b :: b in interval.batches ==>
                 b.focusEpoch == e + 1 && 0 < |b.events| <= MAX_INPUT_EVENTS_PER_BATCH)
            && NonMotion(Events(interval.batches) + interval.left) == NonMotion(interval.carried + interval.accepted)
            && (interval.exact ==>
                 Observe(Events(interval.batches) + interval.left) == Observe(interval.carried + interval.accepted))
            && (e == 0 ==> interval.carried == [])
            && (e > 0 ==> interval.carried == [] || interval.carried == AllIntervals(states[i])[e - 1].left)
            && (interval == states[i].current || e < |states[i].past|)
  {
    hide HistoryRun, Sound, Observe, NonMotion;
    HistoryRunKeeps(states, steps, i);
    var h := states[i];
    if e < |h.past| {
      assert Faithful(h.past[e]);
    }
  }

  // A topology change made while nothing is held back in the buffer.
  ghost predicate Unhurried(h: History, step: ControllerStep) {
    step.Perform? && step.step.Rearrange? ==> h.controller.buffer == [] || !Blocked(h.controller)
  }

  predicate NothingCarriedOver(h: History) {
    h.current.carried == [] && forall i :: 0 <= i < |h.past| ==> h.past[i].carried == []
  }

  lemma InitCarriesNothing(h: History)
    requires HistoryInit(h)
    ensures NothingCarriedOver(h)
  {
  }

  lemma RecordCarries(h: History, step: Step, c: State, actions: seq<Action>)
    ensures NothingCarriedOver(Record(h, step, c, actions)) <==>
              NothingCarriedOver(h) && (c.epoch == h.controller.epoch || c.buffer == [])
  {
    hide AcceptedBy, BatchesOf, Saturates;
    var k := Record(h, step, c, actions);
    if c.epoch != h.controller.epoch {
      assert k.past[|h.past|].carried == h.current.carried;
      assert forall i :: 0 <= i < |h.past| ==> k.past[i] == h.past[i];
    }
  }

  lemma SameIntervals(h: History, k: History)
    requires k.past == h.past && k.current == h.current
    ensures NothingCarriedOver(k) <==> NothingCarriedOver(h)
  {
  }

  lemma RearrangeBuffer(c: State, step: Step)
    requires Inv(c) && step.Rearrange? && Operation(c, step).result.Ok?
    ensures Operation(c, step).state.epoch == c.epoch + 1
    ensures Operation(c, step).state.buffer == [] <==> c.buffer == [] || !Blocked(c)
  {
    hide WellFormed, FindScreen, PeerNodes, OnScreen, Flush;
    FlushSound(c);
    FlushResult(c);
  }

  lemma NextCarriesNothing(h: History, step: ControllerStep, k: History)
    requires HistoryInv(h) && HistoryNext(h, step, k)
    ensures NothingCarriedOver(k) <==> NothingCarriedOver(h) && Unhurried(h, step)
  {
    hide Operation, Sound, Faithful, Chained, Strands, Carries, NothingCarriedOver, Record;
    SoundIsInvOrStranded(h.controller);
    if !step.Perform? {
      SameIntervals(h, k);
    } else if Stranded(h.controller) {
      StrandedOperation(h, step.step);
    } else {
      var c, op := h.controller, step.step;
      var r := Operation(c, op);
      if op.ReturnControl? {
        ReturnStep(c, op);
      } else {
        OperationCarries(c, op);
        if op.Rearrange? {
          RearrangeBuffer(c, op);
        }
      }
      RecordCarries(h, op, r.state, r.result.value);
    }
  }

  /**
   * Epoch purity, exactly: no event is carried from one epoch into another, so that each epoch's batches
   * hold only events accepted during it, if and only if every topology change so far found the buffer
   * empty or the focused peer's window free.
   */
  lemma {:induction false} EpochsArePure(states: seq<History>, steps: seq<ControllerStep>, i: nat)
    requires HistoryRun(states, steps) && i < |states|
    ensures NothingCarriedOver(states[i]) <==> forall k :: 0 <= k < i ==> Unhurried(states[k], steps[k])
  {
    hide HistoryInv, HistoryNext, HistoryInit, Unhurried, NothingCarriedOver;
    if i == 0 {
      InitCarriesNothing(states[0]);
    } else {
      EpochsArePure(states, steps, i - 1);
      HistoryRunKeeps(states, steps, i - 1);
      assert HistoryNext(states[i - 1], steps[i - 1], states[i - 1 + 1]);
      NextCarriesNothing(states[i - 1], steps[i - 1], states[i]);
    }
  }
}
