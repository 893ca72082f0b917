/**
 * Over whole runs of the controller: the cursor follows what was accepted, and batches hold no two motions to merge.
 */
module CursorRuns {
  import opened Base
  import opened Geometry
  import opened Topology
  import opened Input
  import opened Coalesce
  import opened Controller
  import opened Cursor
  import opened ControllerInvariant
  import opened Delivery
  import opened Intervals
  import opened FocusMoves
  import opened Routing

  function At(c: State): (int, int) {
    (c.x, c.y)
  }

  function Pixel(p: Point): (int, int) {
    (p.x * MICROPIXELS_PER_PIXEL, p.y * MICROPIXELS_PER_PIXEL)
  }

  // The cursor after some events, one after the other.
  function SteeredBy(at: (int, int), events: seq<InputEvent>, extent: (int, int)): (int, int) {
    if events == [] then at
    else Steered(events[|events| - 1].kind, SteeredBy(at, events[..|events| - 1], extent), extent)
  }

  lemma {:induction false} SteeredOn(at: (int, int), events: seq<InputEvent>, more: seq<InputEvent>,
          extent: (int, int))
    ensures SteeredBy(at, events + more, extent) == SteeredBy(SteeredBy(at, events, extent), more, extent)
  {
    hide Steered;
    if more == [] {
      assert events + more == events;
    } else {
      SteeredOn(at, events, more[..|more| - 1], extent);
      assert (events + more)[..|events + more| - 1] == events + more[..|more| - 1];
    }
  }

  // ---- One operation ----

  predicate SamePlaceAs(c: State, t: State) {
    t.screens == c.screens && t.focus == c.focus && t.epoch == c.epoch
  }

  lemma RouteIsRemote(c: State, event: InputEvent)
    requires RouteInput(c, event).result.Ok?
    ensures c.focus != c.local
  {
  }

  lemma RouteSteers(c: State, event: InputEvent)
    requires Inv(c) && RouteInput(c, event).result.Ok?
    ensures FindScreen(c.screens, c.focus).Some?
    ensures var t := RouteInput(c, event).state;
            if CrossingOf(c, event) == Ok(None)
            then SamePlaceAs(c, t) && At(t) == Steered(event.kind, At(c), FocusedExtent(c))
            else t == c || t.epoch == c.epoch + 1
  {
    hide WellFormed, OnScreen, FindScreen, CrossingOf, PeerNodes, Crowded, Push, Delivers, FocusedExtent, Steered;
    OnScreenFocus(c);
    if CrossingOf(c, event) == Ok(None) {
      AcceptedExactly(c, event);
    } else {
      hide RouteInput, MaybeSends;
      RouteIsRemote(c, event);
      RouteCrossingEnters(c, event);
    }
  }

  // Within an epoch the cursor follows the accepted event, if there is one, and stays otherwise.
  lemma OperationSteers(c: State, step: Step)
    requires Inv(c) && Operates(step) && (step.Rearrange? ==> WellFormed(step.screens)) && Operation(c, step).result.Ok?
    ensures FindScreen(c.screens, c.focus).Some?
    ensures var t := Operation(c, step).state;
            t.epoch == c.epoch ==>
              SamePlaceAs(c, t) && At(t) == SteeredBy(At(c), AcceptedBy(c, step), FocusedExtent(c))
  {
    hide WellFormed, OnScreen, FindScreen, CrossingOf, PeerNodes, Cross, Central;
    hide Activate, RouteInput, Flush, ReturnToLocal, ReconcileTopology, FocusedExtent, Steered;
    OnScreenFocus(c);
    match step
    case ActivateEdge(edge, offset) => ActivateEnters(c, edge, offset);
    case Route(event) =>
      RouteSteers(c, event);
      assert [event][..0] == [];
    case FlushBuffer => FlushResult(c);
    case ReturnControl => ReturnCentres(c);
    case Rearrange(screens) => ReconcilePlaces(c, screens);
  }

  // ---- Runs ----

  lemma SteersOn(h: History, step: Step)
    requires Inv(h.controller) && Operates(step) && (step.Rearrange? ==> WellFormed(step.screens))
    requires Operation(h.controller, step).result.Ok?
    ensures FindScreen(h.controller.screens, h.controller.focus).Some?
    ensures var r := Operation(h.controller, step);
            var k := Record(h, step, r.state, r.result.value);
            if r.state.epoch == h.controller.epoch
            then k.current.accepted == h.current.accepted + AcceptedBy(h.controller, step)
            else k.current.accepted == []
  {
    hide Operation, Sound, AcceptedBy, Saturates, BatchesOf, WellFormed, FindScreen;
    OperationSteers(h.controller, step);
  }

  // The cursor stands where the accepted events take it from `origin`.
  ghost predicate Follows(h: History, origin: (int, int)) {
    && FindScreen(h.controller.screens, h.controller.focus).Some?
    && At(h.controller) == SteeredBy(origin, h.current.accepted, FocusedExtent(h.controller))
  }

  lemma OperationFollows(h: History, step: Step, origin: (int, int))
    requires Inv(h.controller) && Operates(step) && (step.Rearrange? ==> WellFormed(step.screens))
    requires Operation(h.controller, step).result.Ok? && Follows(h, origin)
    ensures var r := Operation(h.controller, step);
            var k := Record(h, step, r.state, r.result.value);
            if r.state.epoch == h.controller.epoch then Follows(k, origin)
            else Sound(r.state) && k.current.accepted == []
  {
    hide Operation, Sound, AcceptedBy, Saturates, BatchesOf, WellFormed, FindScreen, SteeredBy;
    var r := Operation(h.controller, step);
    OperationSteers(h.controller, step);
    SteersOn(h, step);
    OperationSound(h.controller, step);
    SteeredOn(origin, h.current.accepted, AcceptedBy(h.controller, step), FocusedExtent(h.controller));
  }

  lemma FreshFollows(h: History)
    requires Sound(h.controller) && h.current.accepted == []
    ensures Follows(h, At(h.controller))
  {
    hide WellFormed, FindScreen;
  }

  lemma SameFollows(h: History, step: ControllerStep, k: History, origin: (int, int))
    requires HistoryNext(h, step, k) && !step.Perform? && Follows(h, origin)
    ensures Follows(k, origin) && k.controller.epoch == h.controller.epoch
  {
    hide Operation, Record, WellFormed, DropThrough, FindScreen, SteeredBy;
  }

  lemma RecordedState(h: History, step: Step)
    requires Operates(step)
    ensures var r := Operation(h.controller, step);
            r.result.Ok? ==> Record(h, step, r.state, r.result.value).controller == r.state
  {
    hide Operation, Recorded;
  }

  lemma NextFollows(h: History, step: ControllerStep, k: History, origin: (int, int))
    requires HistoryInv(h) && HistoryNext(h, step, k) && Follows(h, origin)
    ensures Follows(k, if k.controller.epoch == h.controller.epoch then origin else At(k.controller))
  {
    hide Sound, Faithful, Chained, Record, Strands, Operation, Follows;
    SoundIsInvOrStranded(h.controller);
    if !step.Perform? {
      SameFollows(h, step, k, origin);
    } else if Stranded(h.controller) {
      StrandedOperation(h, step.step);
    } else {
      OperationFollows(h, step.step, origin);
      RecordedState(h, step.step);
      if k.controller.epoch != h.controller.epoch {
        FreshFollows(k);
      }
    }
  }

  // Where the cursor was when the epoch of state i began.
  ghost function Origin(states: seq<History>, i: nat): (int, int)
    requires i < |states|
  {
    if i == 0 || states[i - 1].controller.epoch != states[i].controller.epoch then At(states[i].controller)
    else Origin(states, i - 1)
  }

  lemma InitFollows(h: History)
    requires HistoryInit(h) && HistoryInv(h)
    ensures Follows(h, At(h.controller))
  {
    hide Sound, Follows, WellFormed;
    FreshFollows(h);
  }

  /**
   * In every state of every run the cursor is where the events accepted in this epoch, one after the other,
   * have steered it from where it was when the epoch began.
   */
  lemma {:induction false} CursorIsSteered(states: seq<History>, steps: seq<ControllerStep>, i: nat)
    requires HistoryRun(states, steps) && i < |states|
    ensures Follows(states[i], Origin(states, i))
  {
    hide HistoryInv, HistoryNext, HistoryInit, Follows;
    HistoryRunKeeps(states, steps, i);
    if i == 0 {
      InitFollows(states[0]);
    } else {
      CursorIsSteered(states, steps, i - 1);
      HistoryRunKeeps(states, steps, i - 1);
      assert HistoryNext(states[i - 1], steps[i - 1], states[i - 1 + 1]);
      NextFollows(states[i - 1], steps[i - 1], states[i], Origin(states, i - 1));
    }
  }

  // ---- Where an epoch begins ----

  ghost predicate StandsCentrally(t: State) {
    var found := FindScreen(t.screens, t.focus);
    found.Some? && exists p: Point :: Central(found.value.bounds.size, p) && At(t) == Pixel(p)
  }

  ghost predicate CrossesTo(c: State, x: int, y: int, t: State)
    requires FindScreen(c.screens, c.focus).Some?
  {
    exists p: Point :: CrossesExactly(c, x, y, Some((t.focus, p))) && At(t) == Pixel(p)
  }

  // The focus and the cursor a focus move leaves behind, by the operation that made it.
  ghost predicate Placed(c: State, step: Step, t: State) {
    match step
    case ActivateEdge(edge, offset) =>
      var crossing := Cross(c.screens, c.local, edge, offset);
      crossing.Some? && t.focus == crossing.value.target && At(t) == Pixel(crossing.value.localPosition)
    case Route(event) =>
      && FindScreen(c.screens, c.focus).Some? && event.kind.PointerRelative?
      && CrossesTo(c, c.x + event.kind.dx, c.y + event.kind.dy, t)
    case ReturnControl => t.focus == t.local && StandsCentrally(t)
    case Rearrange(screens) =>
      (match FindScreen(screens, c.focus)
       case None => t.focus == t.local && StandsCentrally(t)
       case Some(screen) =>
         && t.focus == c.focus
         && At(t) == Steered(PointerRelative(0, 0), At(c), (screen.bounds.size.width * MICROPIXELS_PER_PIXEL,
                                                          screen.bounds.size.height * MICROPIXELS_PER_PIXEL)))
    case _ => false
  }

  lemma RoutePlaces(c: State, event: InputEvent)
    requires Inv(c) && RouteInput(c, event).result.Ok? && RouteInput(c, event).state.epoch != c.epoch
    ensures Placed(c, Route(event), RouteInput(c, event).state)
  {
    hide WellFormed, OnScreen, FindScreen, CrossingOf, PeerNodes, MaybeSends, CrossesExactly, Flush;
    OnScreenFocus(c);
    CrossingIsExact(c, event);
    RouteSteers(c, event);
    RouteIsRemote(c, event);
    RouteCrossingEnters(c, event);
    hide RouteInput;
    if CrossingOf(c, event).value.Some? {
      assert CrossesExactly(c, c.x + event.kind.dx, c.y + event.kind.dy, CrossingOf(c, event).value);
    }
  }

  lemma OperationPlaces(c: State, step: Step)
    requires Inv(c) && Operates(step) && (step.Rearrange? ==> WellFormed(step.screens)) && Operation(c, step).result.Ok?
    requires Operation(c, step).state.epoch != c.epoch
    ensures Placed(c, step, Operation(c, step).state)
  {
    hide WellFormed, OnScreen, FindScreen, CrossingOf, PeerNodes, Cross, Central;
    hide Activate, RouteInput, Flush, ReturnToLocal, ReconcileTopology;
    match step
    case ActivateEdge(edge, offset) => ActivateEnters(c, edge, offset);
    case Route(event) => RoutePlaces(c, event);
    case FlushBuffer => FlushResult(c);
    case ReturnControl => ReturnCentres(c);
    case Rearrange(screens) => ReconcilePlaces(c, screens);
  }

  lemma SameContents(h: History, step: ControllerStep, k: History)
    requires HistoryNext(h, step, k) && !step.Perform?
    ensures AllIntervals(k) == AllIntervals(h)
    ensures k.controller.buffer == h.controller.buffer && k.controller.epoch == h.controller.epoch
  {
    hide Operation, Record, WellFormed, DropThrough;
  }

  lemma NextPlaces(h: History, step: ControllerStep, k: History)
    requires HistoryInv(h) && HistoryNext(h, step, k) && k.controller.epoch != h.controller.epoch
    ensures step.Perform? && Placed(h.controller, step.step, k.controller)
  {
    hide Sound, Faithful, Chained, Record, Strands, Operation, Placed;
    SoundIsInvOrStranded(h.controller);
    if !step.Perform? {
      SameContents(h, step, k);
    } else if Stranded(h.controller) {
      StrandedOperation(h, step.step);
    } else {
      RecordedState(h, step.step);
      OperationPlaces(h.controller, step.step);
    }
  }

  /**
   * In every run an epoch begins with the focus and the cursor where the focus move puts them: at the facing
   * pixel of an activated edge, at the exact pixel a crossing motion reaches, at the middle of the local
   * screen, or, when the arrangement changes around the focus, at the nearest pixel still on its screen.
   */
  lemma EpochsBeginPlaced(states: seq<History>, steps: seq<ControllerStep>, i: nat)
    requires HistoryRun(states, steps) && i < |steps|
    requires states[i + 1].controller.epoch != states[i].controller.epoch
    ensures steps[i].Perform? && Placed(states[i].controller, steps[i].step, states[i + 1].controller)
  {
    hide HistoryInv, HistoryNext, HistoryInit, Placed;
    HistoryRunKeeps(states, steps, i);
    NextPlaces(states[i], steps[i], states[i + 1]);
  }

  // ---- What batches hold ----

  ghost predicate AllCompact(batches: seq<InputBatch>) {
    forall b :: b in batches ==> Compact(b.events)
  }

  lemma PartsCompact(a: seq<InputEvent>, b: seq<InputEvent>)
    requires Compact(a + b)
    ensures Compact(a) && Compact(b)
  {
    forall i | 0 < i < |a|
      ensures !(a[i - 1].kind.PointerRelative? && a[i].kind.PointerRelative?)
      ensures !(a[i - 1].kind.PointerAbsolute? && a[i].kind.PointerAbsolute?)
    {
      assert (a + b)[i - 1] == a[i - 1] && (a + b)[i] == a[i];
    }
    forall i | 0 < i < |b|
      ensures !(b[i - 1].kind.PointerRelative? && b[i].kind.PointerRelative?)
      ensures !(b[i - 1].kind.PointerAbsolute? && b[i].kind.PointerAbsolute?)
    {
      assert (a + b)[|a| + i - 1] == b[i - 1] && (a + b)[|a| + i] == b[i];
    }
  }

  lemma {:induction false} EventsCompact(batches: seq<InputBatch>)
    requires Compact(Events(batches))
    ensures AllCompact(batches)
  {
    hide Compact;
    if batches != [] {
      var front, last := batches[..|batches| - 1], batches[|batches| - 1];
      PartsCompact(Events(front), last.events);
      EventsCompact(front);
      assert forall b :: b in batches ==> b in front || b == last;
    }
  }

  lemma CarriedCompact(actions: seq<Action>, epoch: int, left: seq<InputEvent>, all: seq<InputEvent>)
    requires Carries(actions, epoch, left, all) && Compact(all)
    ensures AllCompact(BatchesOf(actions)) && Compact(left)
  {
    hide Compact, BatchesOf, AllCompact, Events, BatchOk;
    PartsCompact(Events(BatchesOf(actions)), left);
    EventsCompact(BatchesOf(actions));
  }

  lemma NothingIsCompact()
    ensures Compact([])
  {
  }

  lemma OperationCompact(c: State, step: Step)
    requires Inv(c) && Operates(step) && Operation(c, step).result.Ok? && Compact(c.buffer)
    ensures var r := Operation(c, step); AllCompact(BatchesOf(r.result.value)) && Compact(r.state.buffer)
  {
    hide Operation, Inv, Compact, Carries, BatchesOf, AcceptedBy, Push, CanCoalesce;
    var r := Operation(c, step);
    if step.ReturnControl? {
      ReturnStep(c, step);
      NothingIsCompact();
    } else {
      OperationCarries(c, step);
      var accepted := AcceptedBy(c, step);
      if accepted != [] {
        PushKeepsCompact(c.buffer, accepted[0]);
      }
      CarriedCompact(r.result.value, c.epoch, r.state.buffer, if accepted == [] then c.buffer
        else Push(c.buffer, accepted[0]));
    }
  }

  ghost predicate HistoryCompact(h: History) {
    && Compact(h.controller.buffer)
    && (forall i :: 0 <= i < |AllIntervals(h)| ==> AllCompact(AllIntervals(h)[i].batches))
  }

  lemma RecordCompact(h: History, step: Step, c: State, actions: seq<Action>)
    requires HistoryCompact(h) && AllCompact(BatchesOf(actions)) && Compact(c.buffer)
    ensures HistoryCompact(Record(h, step, c, actions))
  {
    hide Compact, BatchesOf, AcceptedBy, Saturates;
    var k := Record(h, step, c, actions);
    assert h.current == AllIntervals(h)[|h.past|];
    assert AllCompact(h.current.batches + BatchesOf(actions));
    forall i | 0 <= i < |AllIntervals(k)| ensures AllCompact(AllIntervals(k)[i].batches) {
      assert i < |h.past| ==> AllIntervals(k)[i] == AllIntervals(h)[i];
    }
  }

  lemma NextCompact(h: History, step: ControllerStep, k: History)
    requires HistoryInv(h) && HistoryNext(h, step, k) && HistoryCompact(h)
    ensures HistoryCompact(k)
  {
    hide Sound, Faithful, Chained, Record, Strands, Operation, Compact, AllCompact;
    SoundIsInvOrStranded(h.controller);
    if !step.Perform? {
      SameContents(h, step, k);
    } else if Stranded(h.controller) {
      StrandedOperation(h, step.step);
    } else {
      var r := Operation(h.controller, step.step);
      OperationCompact(h.controller, step.step);
      RecordCompact(h, step.step, r.state, r.result.value);
    }
  }

  lemma InitCompact(h: History)
    requires HistoryInit(h)
    ensures HistoryCompact(h)
  {
    hide WellFormed;
    NewBuffer(h.controller);
  }

  lemma {:induction false} RunCompact(states: seq<History>, steps: seq<ControllerStep>, i: nat)
    requires HistoryRun(states, steps) && i < |states|
    ensures HistoryCompact(states[i])
  {
    hide HistoryInv, HistoryNext, HistoryCompact;
    if i == 0 {
      InitCompact(states[0]);
    } else {
      RunCompact(states, steps, i - 1);
      HistoryRunKeeps(states, steps, i - 1);
      assert HistoryNext(states[i - 1], steps[i - 1], states[i - 1 + 1]);
      NextCompact(states[i - 1], steps[i - 1], states[i]);
    }
  }

  /**
   * Coalescing is complete: over whole runs no batch ever sent, and no buffer, holds two adjacent motions of
   * one kind.
   */
  lemma {:induction false} BatchesAreCompact(states: seq<History>, steps: seq<ControllerStep>, i: nat)
    requires HistoryRun(states, steps) && i < |states|
    ensures Compact(states[i].controller.buffer)
    ensures forall e, b :: 0 <= e < |AllIntervals(states[i])| && b in AllIntervals(states[i])[e].batches ==>
              Compact(b.events)
  {
    RunCompact(states, steps, i);
  }
}
