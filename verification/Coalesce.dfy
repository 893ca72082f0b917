/** The controller's event buffer: adjacent pointer motions of one kind are merged as they arrive. */
module Coalesce {
  import opened Base
  import opened Input

  predicate Mergeable(previous: InputKind, next: InputKind) {
    (previous.PointerRelative? && next.PointerRelative?) || (previous.PointerAbsolute? && next.PointerAbsolute?)
  }

  predicate CanCoalesce(events: seq<InputEvent>, event: InputEvent) {
    events != [] && Mergeable(events[|events| - 1].kind, event.kind)
  }

  function Merge(previous: InputEvent, event: InputEvent): InputEvent
    requires Mergeable(previous.kind, event.kind)
  {
    var elapsed := if previous.elapsedMicros >= event.elapsedMicros then previous.elapsedMicros
      else event.elapsedMicros;
    match event.kind
    case PointerRelative(dx, dy) =>
      InputEvent(elapsed, PointerRelative(SaturatingAdd(previous.kind.dx, dx), SaturatingAdd(previous.kind.dy, dy)))
    case PointerAbsolute(p) => InputEvent(elapsed, PointerAbsolute(p))
  }

  function Push(events: seq<InputEvent>, event: InputEvent): (r: seq<InputEvent>)
    ensures r != []
    ensures |r| == if CanCoalesce(events, event) then |events| else |events| + 1
  {
    if CanCoalesce(events, event) then events[..|events| - 1] + [Merge(events[|events| - 1], event)]
    else events + [event]
  }

  // Whether merging would leave the i64 range.
  predicate Saturates(events: seq<InputEvent>, event: InputEvent) {
    && CanCoalesce(events, event)
    && event.kind.PointerRelative?
    && var previous := events[|events| - 1].kind;
       !(I64_MIN <= previous.dx + event.kind.dx <= I64_MAX && I64_MIN <= previous.dy + event.kind.dy <= I64_MAX)
  }

  /** Merging keeps the observable meaning of the events exactly when no sum leaves the i64 range. */
  lemma PushPreservesMeaning(events: seq<InputEvent>, event: InputEvent)
    ensures Observe(Push(events, event)) == Observe(events + [event]) <==> !Saturates(events, event)
  {
    assert (events + [event])[..|events|] == events;
    if CanCoalesce(events, event) {
      var merged := Push(events, event);
      assert merged[..|merged| - 1] == events[..|events| - 1];
    }
  }

  /** Merging never touches a key, button or scroll event, not even when it saturates. */
  lemma PushKeepsNonMotion(events: seq<InputEvent>, event: InputEvent)
    ensures NonMotion(Push(events, event)) == NonMotion(events + [event])
  {
    assert (events + [event])[..|events|] == events;
    if CanCoalesce(events, event) {
      var merged := Push(events, event);
      assert merged[..|merged| - 1] == events[..|events| - 1];
    }
  }

  // No two neighbours are motions of one kind.
  predicate Compact(events: seq<InputEvent>) {
    forall i :: 0 < i < |events| ==>
      && !(events[i - 1].kind.PointerRelative? && events[i].kind.PointerRelative?)
      && !(events[i - 1].kind.PointerAbsolute? && events[i].kind.PointerAbsolute?)
  }

  /** Adjacent motions of one kind never stay apart. */
  lemma PushKeepsCompact(events: seq<InputEvent>, event: InputEvent)
    requires Compact(events)
    ensures Compact(Push(events, event))
  {
    if CanCoalesce(events, event) {
      var merged := Push(events, event);
      forall i | 0 < i < |merged|
        ensures !(merged[i - 1].kind.PointerRelative? && merged[i].kind.PointerRelative?)
        ensures !(merged[i - 1].kind.PointerAbsolute? && merged[i].kind.PointerAbsolute?)
      {
        assert merged[i - 1] == events[i - 1] && merged[i].kind.Motion() == events[i].kind.Motion();
      }
    }
  }

  predicate Ordered(events: seq<InputEvent>) {
    forall i, j :: 0 <= i <= j < |events| ==> events[i].elapsedMicros <= events[j].elapsedMicros
  }

  // No other value n is nearer to x than y is.
  predicate Nearest(x: int, y: int, n: int) {
    Distance(x, y) <= Distance(x, n)
  }

  /**
   * A merged motion happens at the later of the two times, so that buffering keeps events in the order of
   * their times; a relative one moves by the sum, or by the nearest 64-bit value to it, an absolute one to
   * the newer point.
   */
  lemma MergedExactly(events: seq<InputEvent>, event: InputEvent, n: I64)
    requires CanCoalesce(events, event)
    ensures var before, merged := events[|events| - 1], Push(events, event)[|events| - 1];
            && Push(events, event)[..|events| - 1] == events[..|events| - 1]
            && merged.elapsedMicros in {before.elapsedMicros, event.elapsedMicros}
            && merged.elapsedMicros >= before.elapsedMicros && merged.elapsedMicros >= event.elapsedMicros
            && (event.kind.PointerAbsolute? ==> merged.kind == event.kind)
            && (event.kind.PointerRelative? ==>
                  && merged.kind.PointerRelative?
                  && Nearest(before.kind.dx + event.kind.dx, merged.kind.dx, n)
                  && Nearest(before.kind.dy + event.kind.dy, merged.kind.dy, n))
    ensures Ordered(events) ==> Ordered(Push(events, event))
  {
    var before := events[|events| - 1];
    if event.kind.PointerRelative? {
      SaturationIsNearest(before.kind.dx + event.kind.dx, n);
      SaturationIsNearest(before.kind.dy + event.kind.dy, n);
    }
  }

  lemma PushPreservesMeaningAfter(sent: seq<InputEvent>, events: seq<InputEvent>, event: InputEvent)
    requires !Saturates(events, event)
    ensures Observe(sent + Push(events, event)) == Observe(sent + events + [event])
  {
    if CanCoalesce(events, event) {
      var merged := Push(events, event);
      var all := sent + events + [event];
      assert all[..|all| - 1] == sent + events;
      assert (sent + events)[..|sent + events| - 1] == sent + events[..|events| - 1];
      assert (sent + merged)[..|sent + merged| - 1] == sent + events[..|events| - 1];
    } else {
      assert sent + Push(events, event) == sent + events + [event];
    }
  }

  class EventBuffer {
    var events: seq<InputEvent>

    constructor ()
      ensures events == []
    {
      events := [];
    }

    /** Appends or merges one event; true when the buffer has reached the batch limit. */
    method PushEvent(event: InputEvent) returns (full: bool)
      requires |events| < MAX_INPUT_EVENTS_PER_BATCH || CanCoalesce(events, event)
      modifies this
      ensures events == Push(old(events), event)
      ensures full <==> |events| >= MAX_INPUT_EVENTS_PER_BATCH
    {
      if events != [] {
        var last := |events| - 1;
        var previous := events[last];
        match (previous.kind, event.kind) {
          case (PointerRelative(previousX, previousY), PointerRelative(dx, dy)) =>
            var elapsed := if previous.elapsedMicros >= event.elapsedMicros then previous.elapsedMicros
              else event.elapsedMicros;
            events :=
              events[last := InputEvent(elapsed, PointerRelative(SaturatingAdd(previousX, dx),
              SaturatingAdd(previousY, dy)))];
            return |events| >= MAX_INPUT_EVENTS_PER_BATCH;
          case (PointerAbsolute(_), PointerAbsolute(point)) =>
            var elapsed := if previous.elapsedMicros >= event.elapsedMicros then previous.elapsedMicros
              else event.elapsedMicros;
            events := events[last := InputEvent(elapsed, PointerAbsolute(point))];
            return |events| >= MAX_INPUT_EVENTS_PER_BATCH;
          case _ =>
        }
      }
      events := events + [event];
      return |events| >= MAX_INPUT_EVENTS_PER_BATCH;
    }

    method Take() returns (taken: seq<InputEvent>)
      modifies this
      ensures taken == old(events) && events == []
    {
      taken := events;
      events := [];
    }
  }
}
