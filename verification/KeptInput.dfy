/**
 * What becomes of accepted input over a whole run of the controller: which of it is kept, and which steps drop some.
 */
module KeptInput {
  import opened Topology
  import opened Input
  import opened Coalesce
  import opened Controller
  import opened ControllerInvariant
  import opened Delivery
  import opened Intervals

  // All events of a sequence, or only its keys, buttons and scrolls.
  function Watched(events: seq<InputEvent>, keysOnly: bool): seq<InputEvent> {
    if keysOnly then NonMotion(events) else events
  }

  // What an epoch leaves unsent is what the next one starts from.
  predicate Connected(all: seq<Interval>, keysOnly: bool) {
    forall i :: 0 < i < |all| ==> Watched(all[i].carried, keysOnly) == Watched(all[i - 1].left, keysOnly)
  }

  // Nothing was lost between epochs, and nothing waits where it can never be sent.
  predicate Kept(h: History, keysOnly: bool) {
    && Connected(AllIntervals(h), keysOnly)
    && (Stranded(h.controller) ==> Watched(h.controller.buffer, keysOnly) == [])
  }

  // The two operations that take buffered input out of reach: returning focus, and a topology change that
  // removes the focused node while its window is occupied.
  predicate TakesAway(c: State, step: ControllerStep) {
    step.Perform? && (step.step.ReturnControl? || (step.step.Rearrange? && Strands(c, step.step.screens)))
  }

  predicate Drops(h: History, step: ControllerStep, keysOnly: bool) {
    Watched(h.controller.buffer, keysOnly) != [] && TakesAway(h.controller, step)
  }

  lemma NothingToWatch(keysOnly: bool)
    ensures Watched([], keysOnly) == []
  {
  }

  lemma ConnectedGrows(front: seq<Interval>, last: Interval, keysOnly: bool)
    ensures Connected(front + [last], keysOnly) <==>
              && Connected(front, keysOnly)
              && (front != [] ==> Watched(last.carried, keysOnly) == Watched(front[|front| - 1].left, keysOnly))
  {
    hide Watched;
    var all := front + [last];
    assert forall i :: 0 <= i < |front| ==> all[i] == front[i];
    if Connected(all, keysOnly) {
      forall i | 0 < i < |front| ensures Watched(front[i].carried, keysOnly) == Watched(front[i - 1].left, keysOnly) {
        assert Watched(all[i].carried, keysOnly) == Watched(all[i - 1].left, keysOnly);
      }
      if front != [] {
        assert Watched(all[|front|].carried, keysOnly) == Watched(all[|front| - 1].left, keysOnly);
      }
    }
  }

  // What the newest boundary between epochs adds to the chain.
  lemma RecordConnects(h: History, step: Step, c: State, actions: seq<Action>, keysOnly: bool)
    ensures Record(h, step, c, actions).controller == c
    ensures Connected(AllIntervals(Record(h, step, c, actions)), keysOnly) <==>
              && Connected(AllIntervals(h), keysOnly)
              && (step.ReturnControl? && c.epoch != h.controller.epoch ==>
                    Watched(c.buffer, keysOnly) == Watched(h.controller.buffer, keysOnly))
  {
    hide AcceptedBy, BatchesOf, Saturates, Watched, Connected;
    var k, closing := Record(h, step, c, actions), Recorded(h, step, c, actions);
    ConnectedGrows(h.past, h.current, keysOnly);
    if c.epoch == h.controller.epoch {
      ConnectedGrows(h.past, k.current, keysOnly);
    } else {
      ConnectedGrows(h.past, closing, keysOnly);
      ConnectedGrows(h.past + [closing], k.current, keysOnly);
    }
  }

  lemma ReturnBoundary(c: State, op: Step)
    requires Inv(c) && op.ReturnControl? && Operation(c, op).result.Ok?
    ensures var t := Operation(c, op).state;
            t.buffer == [] && t.focus == c.local && (t.epoch == c.epoch ==> c.buffer == [])
  {
    hide ReturnToLocal, Sound;
    var m, sent, first, second := ReturnToLocalShape(c);
    ReturnStep(c, op);
  }

  lemma StrandedBoundary(c: State, op: Step)
    requires Inv(c) && op.Rearrange? && Strands(c, op.screens) && WellFormed(op.screens) && Operation(c, op).result.Ok?
    ensures Operation(c, op).state.buffer == c.buffer
  {
    hide Sound, ReconcileTopology, WellFormed, Strands;
    ReconcileStrandsInput(c, op.screens);
  }

  lemma OperationDrops(h: History, op: Step, keysOnly: bool)
    requires HistoryInv(h) && Inv(h.controller) && Operates(op) && Operation(h.controller, op).result.Ok?
    requires op.Rearrange? ==> WellFormed(op.screens)
    ensures var r := Operation(h.controller, op);
            Kept(Record(h, op, r.state, r.result.value), keysOnly) <==>
              Kept(h, keysOnly) && !Drops(h, Perform(op), keysOnly)
  {
    hide Operation, Sound, HistoryInv, Connected, Record, Watched, WellFormed, Strands;
    var c, r := h.controller, Operation(h.controller, op);
    NothingToWatch(keysOnly);
    OperationSound(c, op);
    SoundIsInvOrStranded(c);
    SoundIsInvOrStranded(r.state);
    RecordConnects(h, op, r.state, r.result.value, keysOnly);
    if op.ReturnControl? {
      ReturnBoundary(c, op);
    } else if op.Rearrange? && Strands(c, op.screens) {
      StrandedBoundary(c, op);
    }
  }

  lemma SameBuffer(h: History, step: ControllerStep, k: History)
    requires HistoryNext(h, step, k) && !step.Perform?
    ensures AllIntervals(k) == AllIntervals(h) && k.controller.buffer == h.controller.buffer
    ensures Stranded(k.controller) <==> Stranded(h.controller)
  {
    hide Operation, Record, WellFormed, DropThrough;
  }

  lemma NextDrops(h: History, step: ControllerStep, k: History, keysOnly: bool)
    requires HistoryInv(h) && HistoryNext(h, step, k)
    ensures Kept(k, keysOnly) <==> Kept(h, keysOnly) && !Drops(h, step, keysOnly)
  {
    hide Sound, Faithful, Chained, Connected, Record, Strands, Watched, Operation;
    SoundIsInvOrStranded(h.controller);
    if !step.Perform? {
      SameBuffer(h, step, k);
    } else if Stranded(h.controller) {
      StrandedOperation(h, step.step);
    } else {
      OperationDrops(h, step.step, keysOnly);
    }
  }

  lemma InitKeeps(h: History, keysOnly: bool)
    requires HistoryInit(h)
    ensures Kept(h, keysOnly)
  {
    hide FindScreen, PeerNodes, NonMotion;
    NewBuffer(h.controller);
  }

  /**
   * Accepted input is dropped exactly by these steps: in any run, whatever an epoch leaves unsent is carried
   * into the next one and can still be sent, if and only if no step so far returned focus, or removed the
   * focused node behind an occupied window, while some of it was buffered. This holds of all events, and of
   * the keys, buttons and scrolls alone.
   */
  lemma {:induction false} DropsAreExact(states: seq<History>, steps: seq<ControllerStep>, i: nat, keysOnly: bool)
    requires HistoryRun(states, steps) && i < |states|
    ensures Kept(states[i], keysOnly) <==> forall k :: 0 <= k < i ==> !Drops(states[k], steps[k], keysOnly)
  {
    hide HistoryInv, HistoryNext, HistoryInit, Kept, Drops;
    if i == 0 {
      InitKeeps(states[0], keysOnly);
    } else {
      DropsAreExact(states, steps, i - 1, keysOnly);
      HistoryRunKeeps(states, steps, i - 1);
      assert HistoryNext(states[i - 1], steps[i - 1], states[i - 1 + 1]);
      NextDrops(states[i - 1], steps[i - 1], states[i], keysOnly);
    }
  }

  // ---- What was sent against what was accepted ----

  // Everything put into batches, and everything accepted, over all epochs.
  function Sent(all: seq<Interval>): seq<InputEvent> {
    if all == [] then [] else Sent(all[..|all| - 1]) + Events(all[|all| - 1].batches)
  }

  function Accepted(all: seq<Interval>): seq<InputEvent> {
    if all == [] then [] else Accepted(all[..|all| - 1]) + all[|all| - 1].accepted
  }

  // What is buffered and can still be sent: nothing is ever sent while focus is local.
  function Sendable(c: State): seq<InputEvent> {
    if c.focus == c.local then [] else c.buffer
  }

  predicate Balanced(i: Interval) {
    NonMotion(Events(i.batches)) + NonMotion(i.left) == NonMotion(i.carried) + NonMotion(i.accepted)
  }

  // Each epoch accounts for its keys, and starts from nothing or from what the last one left.
  predicate Accounted(all: seq<Interval>) {
    && (forall i :: 0 <= i < |all| ==> Balanced(all[i]))
    && (forall i :: 0 < i < |all| ==> all[i].carried in {[], all[i - 1].left})
    && (all != [] ==> all[0].carried == [])
  }

  lemma SameTail<T>(a: seq<T>, b: seq<T>, tail: seq<T>)
    ensures a + tail == b + tail <==> a == b
  {
    if a + tail == b + tail {
      assert a == (a + tail)[..|a|] && b == (b + tail)[..|b|];
    }
  }

  // One more epoch: it adds what it sent and accepted, and loses what it did not carry on.
  lemma OneMoreEpoch<T>(before: seq<T>, left: seq<T>, total: seq<T>, sent: seq<T>, after: seq<T>, carried: seq<T>,
          accepted: seq<T>)
    requires |before| + |left| <= |total| && sent + after == carried + accepted && (carried == left || carried == [])
    ensures |before + sent| + |after| <= |total + accepted|
    ensures (before + sent) + after == total + accepted <==> before + left == total && carried == left
  {
    assert |sent| + |after| == |carried| + |accepted| by {
      assert |sent + after| == |carried + accepted|;
    }
    assert (before + sent) + after == before + (carried + accepted);
    if carried == left {
      assert before + (left + accepted) == (before + left) + accepted;
      SameTail(before + left, total, accepted);
    } else {
      assert |before| < |total|;
    }
  }

  lemma OneEpochConnects()
    ensures Connected([], true) && Sent([]) == [] && Accepted([]) == []
  {
  }

  /** Keys never appear from nowhere; all of them are accounted for exactly when no boundary loses one. */
  lemma {:induction false} KeysAccount(all: seq<Interval>)
    requires Accounted(all) && all != []
    ensures var sent, left := NonMotion(Sent(all)), NonMotion(all[|all| - 1].left);
            && |sent| + |left| <= |NonMotion(Accepted(all))|
            && (Connected(all, true) <==> sent + left == NonMotion(Accepted(all)))
  {
    hide NonMotion, Events, Connected;
    var front, last := all[..|all| - 1], all[|all| - 1];
    assert all == front + [last] && Balanced(last);
    NonMotionJoins(Sent(front), Events(last.batches));
    NonMotionJoins(Accepted(front), last.accepted);
    ConnectedGrows(front, last, true);
    NothingToWatch(true);
    if front == [] {
      OneMoreEpoch([], [], [], NonMotion(Events(last.batches)), NonMotion(last.left), [], NonMotion(last.accepted));
      OneEpochConnects();
    } else {
      KeysAccount(front);
      OneMoreEpoch(NonMotion(Sent(front)), NonMotion(front[|front| - 1].left), NonMotion(Accepted(front)),
                   NonMotion(Events(last.batches)), NonMotion(last.left), NonMotion(last.carried),
                     NonMotion(last.accepted));
    }
  }

  lemma FaithfulBalances(i: Interval)
    requires Faithful(i)
    ensures Balanced(i)
  {
    hide NonMotion, Events, Observe;
    NonMotionJoins(Events(i.batches), i.left);
    NonMotionJoins(i.carried, i.accepted);
  }

  lemma HistoryAccounted(h: History)
    requires HistoryInv(h)
    ensures Accounted(AllIntervals(h)) && AllIntervals(h)[|h.past|].left == h.controller.buffer
  {
    hide Sound, Faithful, Balanced;
    var all := AllIntervals(h);
    forall i | 0 <= i < |all| ensures Balanced(all[i]) {
      FaithfulBalances(if i < |h.past| then h.past[i] else h.current);
    }
  }

  lemma SoundLocal(c: State)
    ensures c.focus == c.local && c.buffer != [] <==> Stranded(c)
  {
  }

  // Nothing lost exactly when every boundary kept its keys and none is stranded.
  lemma KeptIsAccount(h: History)
    requires HistoryInv(h)
    ensures Kept(h, true) <==>
              NonMotion(Sent(AllIntervals(h))) + NonMotion(Sendable(h.controller)) ==
                NonMotion(Accepted(AllIntervals(h)))
  {
    HistoryAccounted(h);
    SoundLocal(h.controller);
    hide HistoryInv, NonMotion, Sent, Accepted, Connected, Accounted;
    KeysAccount(AllIntervals(h));
    NothingToWatch(true);
  }

  /**
   * Key, button and scroll events are never dropped, exactly: in any run, those in all batches sent, followed
   * by those still to be sent, are those accepted, in the same order and each once, if and only if no step so
   * far returned focus, or removed the focused node behind an occupied window, while one of them was buffered.
   */
  lemma KeysAreNeverDropped(states: seq<History>, steps: seq<ControllerStep>, i: nat)
    requires HistoryRun(states, steps) && i < |states|
    ensures var h := states[i];
            NonMotion(Sent(AllIntervals(h))) + NonMotion(Sendable(h.controller)) == NonMotion(Accepted(AllIntervals(h)))
            <==> forall k :: 0 <= k < i ==> !Drops(states[k], steps[k], true)
  {
    hide HistoryRun, HistoryInv, Kept, Drops, NonMotion, Sent, Accepted;
    HistoryRunKeeps(states, steps, i);
    DropsAreExact(states, steps, i, true);
    KeptIsAccount(states[i]);
  }
}
