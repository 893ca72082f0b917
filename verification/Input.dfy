/** Input events, the batches they travel in, and the observable meaning of an event sequence. */
module Input {
  import opened Base
  import opened Geometry

  const MAX_INPUT_EVENTS_PER_BATCH := 512

  datatype PhysicalKey = PhysicalKey(usagePage: nat, usageId: nat)

  datatype KeyAction = KeyPress | KeyRepeat(count: nat) | KeyRelease

  datatype ButtonAction = ButtonPress | ButtonRelease

  datatype MouseButton = Primary | Secondary | Middle | Back | Forward | Other(code: nat)

  datatype ScrollDelta =
    | Discrete(horizontal120: I32, vertical120: I32)
    | Continuous(horizontalMicropixels: I64, verticalMicropixels: I64)

  datatype InputKind =
    | Key(key: PhysicalKey, keyAction: KeyAction)
    | PointerButton(button: MouseButton, buttonAction: ButtonAction)
    | PointerRelative(dx: I64, dy: I64)
    | PointerAbsolute(position: Point)
    | Scroll(delta: ScrollDelta)
  {
    predicate Motion() {
      PointerRelative? || PointerAbsolute?
    }
  }

  datatype InputEvent = InputEvent(elapsedMicros: U64, kind: InputKind)

  datatype InputBatch = InputBatch(focusEpoch: U64, sequence: U64, events: seq<InputEvent>)

  // ---- Meaning ----

  // Where the pointer is, as far as a motion sequence determines it: the last absolute point, if any,
  // and the exact displacement since then.
  datatype Cursor = Cursor(base: Option<Point>, dx: int, dy: int) {
    function Move(kind: InputKind): Cursor {
      match kind
      case PointerRelative(x, y) => Cursor(base, dx + x, dy + y)
      case PointerAbsolute(p) => Cursor(Some(p), 0, 0)
      case _ => this
    }
  }

  const START := Cursor(None, 0, 0)

  // What a receiver can observe: every key, button and scroll event, with its time and the cursor at
  // which it happens, in order, and the cursor left behind.
  datatype Observation = Observation(trace: seq<(InputEvent, Cursor)>, cursor: Cursor)

  function Observe(events: seq<InputEvent>): Observation {
    if events == [] then Observation([], START)
    else
      var before := Observe(events[..|events| - 1]);
      var last := events[|events| - 1];
      var cursor := before.cursor.Move(last.kind);
      if last.kind.Motion() then Observation(before.trace, cursor)
      else Observation(before.trace + [(last, cursor)], cursor)
  }

  // The observation a continuation adds to what came before.
  function Continue(before: Observation, events: seq<InputEvent>): Observation {
    if events == [] then before
    else
      var earlier := Continue(before, events[..|events| - 1]);
      var last := events[|events| - 1];
      var cursor := earlier.cursor.Move(last.kind);
      if last.kind.Motion() then Observation(earlier.trace, cursor)
      else Observation(earlier.trace + [(last, cursor)], cursor)
  }

  /** Observation is compositional. */
  lemma {:induction false} ObserveJoins(a: seq<InputEvent>, b: seq<InputEvent>)
    ensures Observe(a + b) == Continue(Observe(a), b)
  {
    if b == [] {
      assert a + b == a;
    } else {
      ObserveJoins(a, b[..|b| - 1]);
      assert (a + b)[..|a + b| - 1] == a + b[..|b| - 1];
    }
  }

  lemma SameObservationContinues(a: seq<InputEvent>, a': seq<InputEvent>, b: seq<InputEvent>)
    requires Observe(a) == Observe(a')
    ensures Observe(a + b) == Observe(a' + b)
  {
    ObserveJoins(a, b);
    ObserveJoins(a', b);
  }

  // The key, button and scroll events of a sequence.
  function NonMotion(events: seq<InputEvent>): seq<InputEvent> {
    if events == [] then []
    else
      var last := events[|events| - 1];
      NonMotion(events[..|events| - 1]) + if last.kind.Motion() then [] else [last]
  }

  lemma {:induction false} NonMotionJoins(a: seq<InputEvent>, b: seq<InputEvent>)
    ensures NonMotion(a + b) == NonMotion(a) + NonMotion(b)
  {
    if b == [] {
      assert a + b == a;
    } else {
      NonMotionJoins(a, b[..|b| - 1]);
      assert (a + b)[..|a + b| - 1] == a + b[..|b| - 1] && (a + b)[|a + b| - 1] == b[|b| - 1];
    }
  }
}
