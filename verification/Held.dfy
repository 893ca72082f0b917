/** The keys and buttons that are down, as observed from a stream of events, and the releases that let them go. */
module HeldState {
  import opened Base
  import opened Input

  datatype Item = HeldKey(key: PhysicalKey) | HeldButton(button: MouseButton)

  datatype Held = Held(keys: set<PhysicalKey>, buttons: set<MouseButton>) {
    predicate Holds(item: Item) {
      match item
      case HeldKey(key) => key in keys
      case HeldButton(button) => button in buttons
    }

    function Observe(kind: InputKind): Held {
      match kind
      case Key(key, action) => if action.KeyRelease? then this.(keys := keys - {key}) else this.(keys := keys + {key})
      case PointerButton(button, action) =>
        if action.ButtonRelease? then this.(buttons := buttons - {button}) else this.(buttons := buttons + {button})
      case _ => this
    }
  }

  const NOTHING_HELD := Held({}, {})

  predicate Presses(kind: InputKind, item: Item) {
    match item
    case HeldKey(key) => kind.Key? && kind.key == key && !kind.keyAction.KeyRelease?
    case HeldButton(button) => kind.PointerButton? && kind.button == button && kind.buttonAction.ButtonPress?
  }

  predicate Releases(kind: InputKind, item: Item) {
    match item
    case HeldKey(key) => kind == Key(key, KeyRelease)
    case HeldButton(button) => kind == PointerButton(button, ButtonRelease)
  }

  function ReleaseOf(item: Item, elapsedMicros: U64): InputEvent {
    match item
    case HeldKey(key) => InputEvent(elapsedMicros, Key(key, KeyRelease))
    case HeldButton(button) => InputEvent(elapsedMicros, PointerButton(button, ButtonRelease))
  }

  // What a release lets go of.
  function Target(kind: InputKind): Option<Item> {
    match kind
    case Key(key, KeyRelease) => Some(HeldKey(key))
    case PointerButton(button, ButtonRelease) => Some(HeldButton(button))
    case _ => None
  }

  predicate IsRelease(event: InputEvent, elapsedMicros: U64) {
    Target(event.kind).Some? && event.elapsedMicros == elapsedMicros
  }

  // Some order of the releases of everything held: keys before buttons, each exactly once.
  ghost predicate Letting(held: Held, elapsedMicros: U64, releases: seq<InputEvent>) {
    && |releases| == |held.keys| + |held.buttons|
    && (forall i :: 0 <= i < |held.keys| ==> releases[i].kind.Key?)
    && (forall i :: 0 <= i < |releases| ==>
          IsRelease(releases[i], elapsedMicros) && held.Holds(Target(releases[i].kind).value))
    && (forall item :: held.Holds(item) ==> ReleaseOf(item, elapsedMicros) in releases)
    && (forall i, j :: 0 <= i < j < |releases| ==> releases[i] != releases[j])
  }

  class HeldInput {
    var keys: set<PhysicalKey>
    var buttons: set<MouseButton>

    function Current(): Held
      reads this
    {
      Held(keys, buttons)
    }

    constructor ()
      ensures Current() == NOTHING_HELD
    {
      keys, buttons := {}, {};
    }

    method Observe(event: InputEvent)
      modifies this
      ensures Current() == old(Current()).Observe(event.kind)
    {
      match event.kind {
        case Key(key, KeyRelease) => keys := keys - {key};
        case Key(key, _) => keys := keys + {key};
        case PointerButton(button, ButtonRelease) => buttons := buttons - {button};
        case PointerButton(button, ButtonPress) => buttons := buttons + {button};
        case _ =>
      }
    }

    /** Empties the held set and returns a release for each key and button that was in it. */
    method ReleaseAll(elapsedMicros: U64) returns (releases: seq<InputEvent>)
      modifies this
      ensures Current() == NOTHING_HELD
      ensures Letting(old(Current()), elapsedMicros, releases)
    {
      releases := [];
      ghost var before := Current();
      while keys != {}
        invariant keys <= before.keys && buttons == before.buttons
        invariant |releases| == |before.keys| - |keys|
        invariant forall i :: 0 <= i < |releases| ==> releases[i].kind.Key?
        invariant forall i :: 0 <= i < |releases| ==> IsRelease(releases[i], elapsedMicros)
        invariant forall i :: 0 <= i < |releases| ==>
                    var item := Target(releases[i].kind).value; before.Holds(item) && !Current().Holds(item)
        invariant forall i, j :: 0 <= i < j < |releases| ==> releases[i] != releases[j]
        invariant forall key :: key in before.keys - keys ==> ReleaseOf(HeldKey(key), elapsedMicros) in releases
        decreases |keys|
      {
        var key :| key in keys;
        assert before.Holds(HeldKey(key));
        releases := releases + [ReleaseOf(HeldKey(key), elapsedMicros)];
        keys := keys - {key};
      }
      while buttons != {}
        invariant keys == {} && buttons <= before.buttons
        invariant |releases| == |before.keys| + |before.buttons| - |buttons|
        invariant forall i :: 0 <= i < |before.keys| ==> releases[i].kind.Key?
        invariant forall i :: 0 <= i < |releases| ==> IsRelease(releases[i], elapsedMicros)
        invariant forall i :: 0 <= i < |releases| ==>
                    var item := Target(releases[i].kind).value; before.Holds(item) && !Current().Holds(item)
        invariant forall i, j :: 0 <= i < j < |releases| ==> releases[i] != releases[j]
        invariant forall key :: key in before.keys ==> ReleaseOf(HeldKey(key), elapsedMicros) in releases
        invariant forall button :: button in before.buttons - buttons ==>
                  ReleaseOf(HeldButton(button), elapsedMicros) in releases
        decreases |buttons|
      {
        var button :| button in buttons;
        assert before.Holds(HeldButton(button));
        releases := releases + [ReleaseOf(HeldButton(button), elapsedMicros)];
        buttons := buttons - {button};
      }
    }
  }

  // ---- The held set is the net effect of the stream ----

  ghost predicate ReleasedAfter(events: seq<InputEvent>, i: int, item: Item) {
    exists k :: i < k < |events| && 0 <= k && Releases(events[k].kind, item)
  }

  // Pressed, and not released since.
  ghost predicate Down(events: seq<InputEvent>, item: Item) {
    exists i {:trigger Presses(events[i].kind, item)} :: 0 <= i < |events| && Presses(events[i].kind, item) &&
      !ReleasedAfter(events, i, item)
  }

  ghost predicate Tracks(held: Held, events: seq<InputEvent>) {
    forall item :: held.Holds(item) <==> Down(events, item)
  }

  lemma DownStep(events: seq<InputEvent>, event: InputEvent, item: Item)
    ensures Down(events + [event], item) <==>
              Presses(event.kind, item) || (Down(events, item) && !Releases(event.kind, item))
  {
    var more := events + [event];
    assert more[|events|] == event;
    forall i | 0 <= i < |events|
      ensures ReleasedAfter(more, i, item) <==> ReleasedAfter(events, i, item) || Releases(event.kind, item)
    {
      if ReleasedAfter(events, i, item) {
        var k :| i < k < |events| && Releases(events[k].kind, item);
        assert more[k] == events[k];
      }
      if ReleasedAfter(more, i, item) {
        var k :| i < k < |more| && Releases(more[k].kind, item);
        assert k < |events| ==> events[k] == more[k];
      }
    }
    if Down(events, item) && !Releases(event.kind, item) {
      var i :| 0 <= i < |events| && Presses(events[i].kind, item) && !ReleasedAfter(events, i, item);
      assert Presses(more[i].kind, item) && !ReleasedAfter(more, i, item);
    }
    if Presses(event.kind, item) {
      assert Presses(more[|events|].kind, item) && !ReleasedAfter(more, |events|, item);
    }
    if Down(more, item) {
      var i :| 0 <= i < |more| && Presses(more[i].kind, item) && !ReleasedAfter(more, i, item);
      if i < |events| {
        assert Presses(events[i].kind, item) && !ReleasedAfter(events, i, item);
      }
    }
  }

  /** Observing an event keeps the held set equal to what is down. */
  lemma ObserveTracks(held: Held, events: seq<InputEvent>, event: InputEvent)
    requires Tracks(held, events)
    ensures Tracks(held.Observe(event.kind), events + [event])
  {
    forall item ensures held.Observe(event.kind).Holds(item) <==> Down(events + [event], item) {
      DownStep(events, event, item);
    }
  }

  lemma {:induction false} DownAfterReleases(events: seq<InputEvent>, releases: seq<InputEvent>, item: Item)
    requires forall i :: 0 <= i < |releases| ==> IsRelease(releases[i], 0)
    ensures Down(events + releases, item) <==> Down(events, item) && ReleaseOf(item, 0) !in releases
  {
    if releases == [] {
      assert events + releases == events;
    } else {
      var earlier, last := releases[..|releases| - 1], releases[|releases| - 1];
      DownAfterReleases(events, earlier, item);
      assert events + releases == (events + earlier) + [last];
      DownStep(events + earlier, last, item);
      assert Releases(last.kind, item) <==> last == ReleaseOf(item, 0);
      assert releases == earlier + [last];
    }
  }

  /** After the releases, in whatever order they are listed, nothing is down. */
  lemma ReleasesLetGo(held: Held, events: seq<InputEvent>, releases: seq<InputEvent>)
    requires Tracks(held, events) && Letting(held, 0, releases)
    ensures Tracks(NOTHING_HELD, events + releases)
  {
    forall item ensures !Down(events + releases, item) {
      DownAfterReleases(events, releases, item);
    }
  }
}
