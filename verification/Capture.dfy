/** The native capture worker: which edges are armed, whether captured input counts, and what it leaves down. */
module Capture {
  import opened Geometry
  import opened Input
  import opened HeldState

  datatype Worker = Worker(enabled: set<Edge>, accepting: bool, held: Held, emitted: seq<InputEvent>)

  // Commands to the worker and events from the native backend. A native event that normalises to nothing,
  // or that cannot be normalised, is not seen.
  datatype Signal =
    | Configure(edges: set<Edge>)
    | Release
    | Activated(edge: Edge)
    | Seen(event: InputEvent)
    | DesktopChanged
    | Stop

  function Start(edges: set<Edge>): Worker {
    Worker(edges, false, NOTHING_HELD, [])
  }

  function LetGo(w: Worker, releases: seq<InputEvent>): Worker {
    w.(accepting := false, held := NOTHING_HELD, emitted := w.emitted + releases)
  }

  predicate Lets(w: Worker, signal: Signal) {
    signal.Release? || signal.DesktopChanged? || signal.Stop? || (signal.Configure? && signal.edges != w.enabled)
  }

  // `releases` is the order in which held input is let go, when it is.
  function Next(w: Worker, signal: Signal, releases: seq<InputEvent>): Worker {
    match signal
    case Configure(edges) => if edges == w.enabled then w else LetGo(w, releases).(enabled := edges)
    case Activated(edge) => w.(accepting := edge in w.enabled)
    case Seen(event) =>
      if w.accepting then w.(held := w.held.Observe(event.kind), emitted := w.emitted + [event]) else w
    case Release => LetGo(w, releases)
    case DesktopChanged => LetGo(w, releases)
    case Stop => LetGo(w, releases)
  }

  class CaptureWorker {
    const held: HeldInput
    var enabled: set<Edge>
    var accepting: bool
    var emitted: seq<InputEvent>

    function Current(): Worker
      reads this, held
    {
      Worker(enabled, accepting, held.Current(), emitted)
    }

    constructor (edges: set<Edge>)
      ensures Current() == Start(edges) && fresh(held)
    {
      held := new HeldInput();
      enabled, accepting, emitted := edges, false, [];
    }

    method EmitReleases() returns (releases: seq<InputEvent>)
      modifies this, held
      ensures Letting(old(Current()).held, 0, releases)
      ensures Current() == LetGo(old(Current()), releases)
    {
      accepting := false;
      releases := held.ReleaseAll(0);
      emitted := emitted + releases;
    }

    method Handle(signal: Signal) returns (releases: seq<InputEvent>)
      modifies this, held
      ensures Lets(old(Current()), signal) ==> Letting(old(Current()).held, 0, releases)
      ensures Current() == Next(old(Current()), signal, releases)
    {
      releases := [];
      match signal {
        case Configure(edges) =>
          if edges != enabled {
            releases := EmitReleases();
            enabled := edges;
          }
        case Activated(edge) => accepting := edge in enabled;
        case Seen(event) =>
          if accepting {
            held.Observe(event);
            emitted := emitted + [event];
          }
        case _ => releases := EmitReleases();
      }
    }
  }

  datatype Step = Step(signal: Signal, releases: seq<InputEvent>)

  ghost predicate Runs(edges: set<Edge>, steps: seq<Step>)
    decreases |steps|, 0
  {
    steps == [] ||
    var before, last := steps[..|steps| - 1], steps[|steps| - 1];
    && Runs(edges, before)
    && (Lets(Reached(edges, before), last.signal) ==> Letting(Reached(edges, before).held, 0, last.releases))
  }

  ghost function Reached(edges: set<Edge>, steps: seq<Step>): Worker
    requires Runs(edges, steps)
    decreases |steps|, 1
  {
    if steps == [] then Start(edges)
    else Next(Reached(edges, steps[..|steps| - 1]), steps[|steps| - 1].signal, steps[|steps| - 1].releases)
  }

  /** In any run the held set is exactly what the emitted stream leaves down. */
  lemma {:induction false} HeldIsEmitted(edges: set<Edge>, steps: seq<Step>)
    requires Runs(edges, steps)
    ensures Tracks(Reached(edges, steps).held, Reached(edges, steps).emitted)
  {
    if steps != [] {
      var before, last := steps[..|steps| - 1], steps[|steps| - 1];
      HeldIsEmitted(edges, before);
      var w := Reached(edges, before);
      if Lets(w, last.signal) {
        ReleasesLetGo(w.held, w.emitted, last.releases);
      } else if last.signal.Seen? {
        ObserveTracks(w.held, w.emitted, last.signal.event);
      }
    }
  }

  predicate IdleHoldsNothing(w: Worker) {
    !w.accepting ==> w.held == NOTHING_HELD
  }

  // An activation of an edge that is not armed, while something is held.
  predicate LeavesHeld(w: Worker, signal: Signal) {
    signal.Activated? && signal.edge !in w.enabled && w.held != NOTHING_HELD
  }

  lemma NextIdle(w: Worker, signal: Signal, releases: seq<InputEvent>)
    requires IdleHoldsNothing(w)
    ensures IdleHoldsNothing(Next(w, signal, releases)) <==> !LeavesHeld(w, signal)
  {
  }

  // Every state up to the last one has let everything go when it is not accepting input.
  ghost predicate AlwaysIdleHoldsNothing(edges: set<Edge>, steps: seq<Step>)
    requires Runs(edges, steps)
  {
    && IdleHoldsNothing(Reached(edges, steps))
    && (steps != [] ==> AlwaysIdleHoldsNothing(edges, steps[..|steps| - 1]))
  }

  ghost predicate NeverLeavesHeld(edges: set<Edge>, steps: seq<Step>)
    requires Runs(edges, steps)
  {
    steps == [] ||
    var before := steps[..|steps| - 1];
    NeverLeavesHeld(edges, before) && !LeavesHeld(Reached(edges, before), steps[|steps| - 1].signal)
  }

  /**
   * A worker that is not accepting input has let everything go, exactly: in any run this holds of every state
   * reached if and only if no step was an activation of an edge that is not armed while something was held.
   */
  lemma {:induction false} IdleHoldsNothingUnless(edges: set<Edge>, steps: seq<Step>)
    requires Runs(edges, steps)
    ensures AlwaysIdleHoldsNothing(edges, steps) <==> NeverLeavesHeld(edges, steps)
  {
    if steps != [] {
      var before, last := steps[..|steps| - 1], steps[|steps| - 1];
      IdleHoldsNothingUnless(edges, before);
      if AlwaysIdleHoldsNothing(edges, before) {
        NextIdle(Reached(edges, before), last.signal, last.releases);
      }
    }
  }

  lemma Started(edges: set<Edge>)
    ensures Runs(edges, []) && Reached(edges, []) == Start(edges)
  {
  }

  lemma OneMore(edges: set<Edge>, steps: seq<Step>, step: Step)
    requires Runs(edges, steps)
    requires Lets(Reached(edges, steps), step.signal) ==> Letting(Reached(edges, steps).held, 0, step.releases)
    ensures Runs(edges, steps + [step])
    ensures Reached(edges, steps + [step]) == Next(Reached(edges, steps), step.signal, step.releases)
  {
    assert (steps + [step])[..|steps + [step]| - 1] == steps;
  }

  /** The exception is reached: crossing an armed edge, pressing a key, then meeting an edge that is not armed. */
  lemma UnarmedActivationKeepsHolding(event: InputEvent, key: PhysicalKey) returns (steps: seq<Step>)
    requires event.kind == Key(key, KeyPress)
    ensures Runs({Left}, steps) && !Reached({Left}, steps).accepting && Reached({Left}, steps).held.Holds(HeldKey(key))
  {
    var entered, pressed, left := Step(Activated(Left), []), Step(Seen(event), []), Step(Activated(Right), []);
    Started({Left});
    hide Runs, Reached;
    OneMore({Left}, [], entered);
    OneMore({Left}, [] + [entered], pressed);
    OneMore({Left}, [] + [entered] + [pressed], left);
    steps := [] + [entered] + [pressed] + [left];
  }

  // ---- What the signals say ----

  function Signals(steps: seq<Step>): seq<Signal> {
    if steps == [] then [] else Signals(steps[..|steps| - 1]) + [steps[|steps| - 1].signal]
  }

  // The edges of the last configuration, or those from the start.
  function Armed(edges: set<Edge>, signals: seq<Signal>): set<Edge> {
    if signals == [] then edges
    else
      var last := signals[|signals| - 1];
      if last.Configure? then last.edges else Armed(edges, signals[..|signals| - 1])
  }

  // Captured input and a configuration of the edges already armed end nothing.
  predicate Quiet(edges: set<Edge>, signals: seq<Signal>, i: nat)
    requires i < |signals|
  {
    signals[i].Seen? || (signals[i].Configure? && signals[i].edges == Armed(edges, signals[..i]))
  }

  predicate CapturingSince(edges: set<Edge>, signals: seq<Signal>, i: int) {
    && 0 <= i < |signals|
    && signals[i].Activated? && signals[i].edge in Armed(edges, signals[..i])
    && forall j :: i < j < |signals| ==> Quiet(edges, signals, j)
  }

  // An edge armed at that point was activated, and nothing has ended the capture since.
  ghost predicate Capturing(edges: set<Edge>, signals: seq<Signal>) {
    exists i :: CapturingSince(edges, signals, i)
  }

  lemma CapturingThrough(edges: set<Edge>, signals: seq<Signal>, i: nat)
    requires i < |signals| - 1
    ensures var before := signals[..|signals| - 1];
            CapturingSince(edges, signals, i) <==>
              CapturingSince(edges, before, i) && Quiet(edges, signals, |signals| - 1)
  {
    var before := signals[..|signals| - 1];
    assert before[..i] == signals[..i];
    forall j | i < j < |before| ensures Quiet(edges, before, j) <==> Quiet(edges, signals, j) {
      assert before[..j] == signals[..j];
    }
    if CapturingSince(edges, before, i) && Quiet(edges, signals, |before|) {
      forall j | i < j < |signals| ensures Quiet(edges, signals, j) {
        assert j < |before| ==> Quiet(edges, before, j);
      }
    }
  }

  // A capture goes on through a quiet signal, begins with the activation of an armed edge, and ends otherwise.
  lemma CapturingGoesOn(edges: set<Edge>, signals: seq<Signal>)
    requires signals != []
    ensures var before, last := signals[..|signals| - 1], signals[|signals| - 1];
            Capturing(edges, signals) <==>
              if Quiet(edges, signals, |signals| - 1) then Capturing(edges, before)
              else last.Activated? && last.edge in Armed(edges, before)
  {
    var n := |signals| - 1;
    var before := signals[..n];
    forall i | 0 <= i < n ensures CapturingSince(edges, signals, i) <==>
        CapturingSince(edges, before, i) && Quiet(edges, signals, n)
    {
      CapturingThrough(edges, signals, i);
    }
    if Capturing(edges, before) && Quiet(edges, signals, n) {
      var i :| CapturingSince(edges, before, i);
      assert CapturingSince(edges, signals, i);
    }
    assert CapturingSince(edges, signals, n) <==> signals[n].Activated? && signals[n].edge in Armed(edges, before);
  }

  /**
   * What capture is armed with and whether it is under way, from the signals alone: in any run the armed edges
   * are those of the last configuration, and input is accepted exactly when an edge that was armed at the time
   * was activated and only captured input, or a configuration that changed nothing, came since.
   */
  lemma {:induction false} SignalsDecide(edges: set<Edge>, steps: seq<Step>)
    requires Runs(edges, steps)
    ensures Reached(edges, steps).enabled == Armed(edges, Signals(steps))
    ensures Reached(edges, steps).accepting <==> Capturing(edges, Signals(steps))
  {
    if steps != [] {
      var before, signals := steps[..|steps| - 1], Signals(steps);
      SignalsDecide(edges, before);
      assert signals[..|signals| - 1] == Signals(before);
      CapturingGoesOn(edges, signals);
      hide Capturing;
    }
  }

  // What a step adds to the emitted stream: the event seen while capturing, or the releases.
  ghost function Emits(edges: set<Edge>, before: seq<Step>, step: Step): seq<InputEvent> {
    match step.signal
    case Seen(event) => if Capturing(edges, Signals(before)) then [event] else []
    case Activated(_) => []
    case Configure(next) => if next == Armed(edges, Signals(before)) then [] else step.releases
    case _ => step.releases
  }

  ghost function Emitted(edges: set<Edge>, steps: seq<Step>): seq<InputEvent> {
    if steps == [] then []
    else Emitted(edges, steps[..|steps| - 1]) + Emits(edges, steps[..|steps| - 1], steps[|steps| - 1])
  }

  lemma NextEmits(w: Worker, edges: set<Edge>, before: seq<Step>, step: Step)
    requires w.enabled == Armed(edges, Signals(before)) && (w.accepting <==> Capturing(edges, Signals(before)))
    ensures Next(w, step.signal, step.releases).emitted == w.emitted + Emits(edges, before, step)
  {
    hide Capturing, Armed, Signals;
    assert w.emitted + [] == w.emitted;
  }

  /**
   * In any run the emitted stream is every event seen while capturing, in order and each once, and between
   * them the releases of what ended the capture, and nothing else.
   */
  lemma {:induction false} EmittedIsSeen(edges: set<Edge>, steps: seq<Step>)
    requires Runs(edges, steps)
    ensures Reached(edges, steps).emitted == Emitted(edges, steps)
  {
    if steps != [] {
      var before, last := steps[..|steps| - 1], steps[|steps| - 1];
      EmittedIsSeen(edges, before);
      SignalsDecide(edges, before);
      hide Capturing, Armed, Signals, Emits, Next;
      NextEmits(Reached(edges, before), edges, before, last);
    }
  }
}
