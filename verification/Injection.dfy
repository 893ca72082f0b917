/** The native injection worker: one command at a time, in order, for the session generation it was last given. */
module Injection {
  import opened Base
  import opened Geometry
  import opened Display
  import opened Input
  import opened HeldState

  datatype DesktopGeometry = DesktopGeometry(origin: Point, layout: DesktopLayout)

  // Who asked for an event: the session generation and the focus epoch of its batch.
  datatype Tag = Tag(generation: U64, epoch: U64)

  // What reached the native backend. The worker's own releases carry no tag.
  datatype Injected = Injected(event: InputEvent, source: Option<Tag>)

  // The epoch of a batch is recorded for the statements below; neither the worker nor the host looks at it.
  datatype Command =
    | BeginSession(generation: U64)
    | ApplyBatch(generation: U64, epoch: U64, sequence: U64, events: seq<InputEvent>)
    | WarpCursor(generation: U64, position: Point)
    | ReleaseAll(generation: U64)

  datatype Notice =
    | Applied(generation: U64, epoch: U64, sequence: U64)
    | Released(generation: U64)
    | DesktopChanged(geometry: DesktopGeometry)
    | Failed
    | Stopped

  datatype Worker = Worker(active: U64, held: Held, injected: seq<Injected>, notices: seq<Notice>)

  const NEW_WORKER := Worker(0, NOTHING_HELD, [], [])

  function Untagged(releases: seq<InputEvent>): (s: seq<Injected>)
    ensures |s| == |releases|
  {
    seq(|releases|, i requires 0 <= i < |releases| => Injected(releases[i], None))
  }

  function ReleaseHeld(w: Worker, releases: seq<InputEvent>): Worker {
    w.(held := NOTHING_HELD, injected := w.injected + Untagged(releases), notices := w.notices + [Released(w.active)])
  }

  // One event offered to the native backend, which may refuse it.
  function Consume(w: Worker, tag: Tag, event: InputEvent, consumed: bool): Worker {
    if consumed then w.(held := w.held.Observe(event.kind), injected := w.injected + [Injected(event, Some(tag))])
    else w.(notices := w.notices + [Failed])
  }

  function ConsumeAll(w: Worker, tag: Tag, events: seq<InputEvent>, consumed: seq<bool>): Worker
    requires |consumed| == |events|
  {
    if events == [] then w
    else
      var last := |events| - 1;
      Consume(ConsumeAll(w, tag, events[..last], consumed[..last]), tag, events[last], consumed[last])
  }

  // Which commands release what is held.
  predicate LetsGo(w: Worker, command: Command) {
    command.BeginSession? || (command.ReleaseAll? && command.generation == w.active)
  }

  // Choices the worker does not make itself: what the backend refuses, and the order of the releases.
  datatype Choice = Choice(consumed: seq<bool>, warped: bool, releases: seq<InputEvent>)

  ghost predicate Fits(w: Worker, command: Command, choice: Choice) {
    && (command.ApplyBatch? ==> |choice.consumed| == |command.events|)
    && (LetsGo(w, command) ==> Letting(w.held, 0, choice.releases))
  }

  function Execute(w: Worker, command: Command, choice: Choice): Worker
    requires command.ApplyBatch? ==> |choice.consumed| == |command.events|
  {
    match command
    case BeginSession(generation) => ReleaseHeld(w, choice.releases).(active := generation)
    case ApplyBatch(generation, epoch, sequence, events) =>
      if generation != w.active then w
      else
        var after := ConsumeAll(w, Tag(generation, epoch), events, choice.consumed);
        if false in choice.consumed then after
        else after.(notices := after.notices + [Applied(generation, epoch, sequence)])
    case WarpCursor(generation, _) =>
      if generation == w.active && !choice.warped then w.(notices := w.notices + [Failed]) else w
    case ReleaseAll(generation) => if generation == w.active then ReleaseHeld(w, choice.releases) else w
  }

  class InjectionWorker {
    const held: HeldInput
    var active: U64
    var injected: seq<Injected>
    var notices: seq<Notice>

    function Current(): Worker
      reads this, held
    {
      Worker(active, held.Current(), injected, notices)
    }

    constructor ()
      ensures Current() == NEW_WORKER && fresh(held)
    {
      held := new HeldInput();
      active, injected, notices := 0, [], [];
    }

    method LetGo() returns (releases: seq<InputEvent>)
      modifies this, held
      ensures Letting(old(Current()).held, 0, releases)
      ensures Current() == ReleaseHeld(old(Current()), releases)
    {
      releases := held.ReleaseAll(0);
      injected := injected + Untagged(releases);
      notices := notices + [Released(active)];
    }

    method Run(command: Command, consumed: seq<bool>, warped: bool) returns (choice: Choice)
      requires command.ApplyBatch? ==> |consumed| == |command.events|
      modifies this, held
      ensures choice.consumed == consumed && choice.warped == warped && Fits(old(Current()), command, choice)
      ensures Current() == Execute(old(Current()), command, choice)
    {
      var releases: seq<InputEvent> := [];
      match command {
        case BeginSession(generation) =>
          releases := LetGo();
          active := generation;
        case ApplyBatch(generation, epoch, sequence, events) =>
          if generation == active {
            RunBatch(Tag(generation, epoch), sequence, events, consumed);
          }
        case WarpCursor(generation, _) =>
          if generation == active && !warped {
            notices := notices + [Failed];
          }
        case ReleaseAll(generation) =>
          if generation == active {
            releases := LetGo();
          }
      }
      return Choice(consumed, warped, releases);
    }

    method RunBatch(tag: Tag, sequence: U64, events: seq<InputEvent>, consumed: seq<bool>)
      requires |consumed| == |events| && tag.generation == active
      modifies this, held
      ensures var after := ConsumeAll(old(Current()), tag, events, consumed);
              Current() == if false in consumed then after
                           else after.(notices := after.notices + [Applied(tag.generation, tag.epoch, sequence)])
    {
      var applied := true;
      ghost var before := Current();
      for i := 0 to |events|
        invariant Current() == ConsumeAll(before, tag, events[..i], consumed[..i])
        invariant applied <==> false !in consumed[..i]
        invariant active == before.active
      {
        assert events[..i + 1][..i] == events[..i] && consumed[..i + 1][..i] == consumed[..i];
        assert consumed[..i + 1] == consumed[..i] + [consumed[i]];
        if consumed[i] {
          held.Observe(events[i]);
          injected := injected + [Injected(events[i], Some(tag))];
        } else {
          notices := notices + [Failed];
          applied := false;
        }
      }
      assert events[..|events|] == events && consumed[..|events|] == consumed;
      if applied {
        notices := notices + [Applied(tag.generation, tag.epoch, sequence)];
      }
    }
  }

  // ---- What the native stream keeps ----

  function Events(injected: seq<Injected>): (s: seq<InputEvent>)
    ensures |s| == |injected|
  {
    seq(|injected|, i requires 0 <= i < |injected| => injected[i].event)
  }

  ghost predicate ReleasedBetween(injected: seq<Injected>, i: int, j: int, item: Item) {
    exists k :: i < k < j && 0 <= k < |injected| && Releases(injected[k].event.kind, item)
  }

  predicate Apart(pressed: Injected, later: Injected) {
    later.source.Some? && pressed.source != later.source
  }

  // Nothing pressed for one session and epoch is still down when an event of another is injected.
  ghost predicate Separated(injected: seq<Injected>) {
    forall i, j, item {:trigger Presses(injected[i].event.kind, item), injected[j].source} ::
      0 <= i < j < |injected| && Presses(injected[i].event.kind, item) && Apart(injected[i], injected[j]) ==>
        ReleasedBetween(injected, i, j, item)
  }

  // Everything still down was pressed for `owner`.
  ghost predicate OwnedBy(injected: seq<Injected>, owner: Option<Tag>) {
    forall i, item {:trigger Presses(injected[i].event.kind, item)} ::
      0 <= i < |injected| && Presses(injected[i].event.kind, item) &&
        !ReleasedBetween(injected, i, |injected|, item) ==>
        owner.Some? && injected[i].source == owner
  }

  ghost predicate StreamOk(w: Worker, owner: Option<Tag>) {
    Tracks(w.held, Events(w.injected)) && Separated(w.injected) && OwnedBy(w.injected, owner)
  }

  lemma ReleasedBetweenExtends(injected: seq<Injected>, more: seq<Injected>, i: int, j: int, item: Item)
    requires j <= |injected|
    ensures ReleasedBetween(injected + more, i, j, item) <==> ReleasedBetween(injected, i, j, item)
  {
    if ReleasedBetween(injected + more, i, j, item) {
      var k :| i < k < j && 0 <= k < |injected + more| && Releases((injected + more)[k].event.kind, item);
      assert Releases(injected[k].event.kind, item);
    }
    if ReleasedBetween(injected, i, j, item) {
      var k :| i < k < j && 0 <= k < |injected| && Releases(injected[k].event.kind, item);
      assert Releases((injected + more)[k].event.kind, item);
    }
  }

  lemma StillReleased(injected: seq<Injected>, more: seq<Injected>, i: int, item: Item)
    requires ReleasedBetween(injected, i, |injected|, item)
    ensures ReleasedBetween(injected + more, i, |injected + more|, item)
  {
    var k :| i < k < |injected| && 0 <= k && Releases(injected[k].event.kind, item);
    assert Releases((injected + more)[k].event.kind, item);
  }

  lemma ConsumeKeeps(w: Worker, tag: Tag, event: InputEvent, consumed: bool, owner: Option<Tag>)
    requires StreamOk(w, owner) && (owner.None? || owner == Some(tag))
    ensures StreamOk(Consume(w, tag, event, consumed), if consumed then Some(tag) else owner)
  {
    if consumed {
      var one := [Injected(event, Some(tag))];
      var after := w.injected + one;
      ObserveTracks(w.held, Events(w.injected), event);
      assert Events(after) == Events(w.injected) + [event];
      forall i, j, item | 0 <= i < j < |after| && Presses(after[i].event.kind, item) && Apart(after[i], after[j])
        ensures ReleasedBetween(after, i, j, item)
      {
        assert after[i] == w.injected[i] && Presses(w.injected[i].event.kind, item);
        ReleasedBetweenExtends(w.injected, one, i, j, item);
        if j < |w.injected| {
          assert w.injected[j].source == after[j].source;
        }
      }
      forall i, item | 0 <= i < |after| && Presses(after[i].event.kind, item) &&
        !ReleasedBetween(after, i, |after|, item)
        ensures after[i].source == Some(tag)
      {
        if i < |w.injected| {
          assert Presses(w.injected[i].event.kind, item);
          if ReleasedBetween(w.injected, i, |w.injected|, item) {
            StillReleased(w.injected, one, i, item);
          }
        }
      }
    }
  }

  lemma {:induction false} ConsumeAllKeeps(w: Worker, tag: Tag, events: seq<InputEvent>, consumed: seq<bool>,
          owner: Option<Tag>)
    returns (next: Option<Tag>)
    requires |consumed| == |events| && StreamOk(w, owner) && (owner.None? || owner == Some(tag))
    ensures StreamOk(ConsumeAll(w, tag, events, consumed), next) && (next == owner || next == Some(tag))
    ensures ConsumeAll(w, tag, events, consumed).active == w.active
  {
    next := owner;
    if events != [] {
      hide StreamOk;
      var last := |events| - 1;
      var before := ConsumeAllKeeps(w, tag, events[..last], consumed[..last], owner);
      ConsumeKeeps(ConsumeAll(w, tag, events[..last], consumed[..last]), tag, events[last], consumed[last], before);
      next := if consumed[last] then Some(tag) else before;
    }
  }

  lemma UntaggedSeparate(injected: seq<Injected>, releases: seq<InputEvent>)
    requires Separated(injected)
    ensures Separated(injected + Untagged(releases))
  {
    var more := Untagged(releases);
    var after := injected + more;
    forall i, j, item | 0 <= i < j < |after| && Presses(after[i].event.kind, item) && Apart(after[i], after[j])
      ensures ReleasedBetween(after, i, j, item)
    {
      assert after[j] == injected[j] && after[i] == injected[i];
      assert Presses(injected[i].event.kind, item);
      ReleasedBetweenExtends(injected, more, i, j, item);
    }
  }

  lemma SameReleases(injected: seq<Injected>, i: int, item: Item)
    ensures ReleasedAfter(Events(injected), i, item) <==> ReleasedBetween(injected, i, |injected|, item)
  {
    var events := Events(injected);
    if ReleasedAfter(events, i, item) {
      var k :| i < k < |events| && 0 <= k && Releases(events[k].kind, item);
      assert Releases(injected[k].event.kind, item);
    }
    if ReleasedBetween(injected, i, |injected|, item) {
      var k :| i < k < |injected| && 0 <= k && Releases(injected[k].event.kind, item);
      assert Releases(events[k].kind, item);
    }
  }

  lemma NotDown(injected: seq<Injected>, i: int, item: Item)
    requires 0 <= i < |injected| && Presses(injected[i].event.kind, item) && !Down(Events(injected), item)
    ensures ReleasedBetween(injected, i, |injected|, item)
  {
    assert Presses(Events(injected)[i].kind, item);
    SameReleases(injected, i, item);
  }

  lemma AllReleased(injected: seq<Injected>)
    requires Tracks(NOTHING_HELD, Events(injected))
    ensures OwnedBy(injected, None)
  {
    forall i, item | 0 <= i < |injected| && Presses(injected[i].event.kind, item)
      ensures ReleasedBetween(injected, i, |injected|, item)
    {
      NotDown(injected, i, item);
    }
  }

  lemma ReleaseKeeps(w: Worker, releases: seq<InputEvent>, owner: Option<Tag>)
    requires StreamOk(w, owner) && Letting(w.held, 0, releases)
    ensures StreamOk(ReleaseHeld(w, releases), None)
  {
    hide Letting, Tracks, Separated, OwnedBy;
    var more := Untagged(releases);
    var after := w.injected + more;
    assert Events(after) == Events(w.injected) + releases;
    ReleasesLetGo(w.held, Events(w.injected), releases);
    UntaggedSeparate(w.injected, releases);
    AllReleased(after);
  }

  // Nothing is held when nothing owns what is down.
  lemma UnownedIsEmpty(w: Worker)
    requires StreamOk(w, None)
    ensures w.held == NOTHING_HELD
  {
    forall item ensures !w.held.Holds(item) {
      if Down(Events(w.injected), item) {
        var i :| 0 <= i < |w.injected| && Presses(Events(w.injected)[i].kind, item) &&
          !ReleasedAfter(Events(w.injected), i, item);
        assert Presses(w.injected[i].event.kind, item);
        SameReleases(w.injected, i, item);
      }
    }
    forall key ensures key !in w.held.keys {
      assert !w.held.Holds(HeldKey(key));
    }
    forall button ensures button !in w.held.buttons {
      assert !w.held.Holds(HeldButton(button));
    }
  }

  // ---- What the worker reports ----

  function Failures(notices: seq<Notice>): nat {
    if notices == [] then 0
    else Failures(notices[..|notices| - 1]) + if notices[|notices| - 1].Failed? then 1 else 0
  }

  lemma {:induction false} FailuresJoin(a: seq<Notice>, b: seq<Notice>)
    ensures Failures(a + b) == Failures(a) + Failures(b)
  {
    if b == [] {
      assert a + b == a;
    } else {
      FailuresJoin(a, b[..|b| - 1]);
      assert (a + b)[..|a + b| - 1] == a + b[..|b| - 1] && (a + b)[|a + b| - 1] == b[|b| - 1];
    }
  }

  // How many of the choices are refusals.
  function Refused(choices: seq<bool>): nat {
    if choices == [] then 0
    else Refused(choices[..|choices| - 1]) + if choices[|choices| - 1] then 0 else 1
  }

  lemma OneFailure()
    ensures Failures([Failed]) == 1 && Failures([]) == 0
    ensures forall g :: Failures([Released(g)]) == 0
    ensures forall g, e, q :: Failures([Applied(g, e, q)]) == 0
  {
    assert [Failed][..0] == [];
    assert forall g :: [Released(g)][..0] == [];
    assert forall g, e, q :: [Applied(g, e, q)][..0] == [];
  }

  lemma {:induction false} ConsumeReports(w: Worker, tag: Tag, events: seq<InputEvent>, consumed: seq<bool>)
    requires |consumed| == |events|
    ensures Failures(ConsumeAll(w, tag, events, consumed).notices) == Failures(w.notices) + Refused(consumed)
  {
    if events != [] {
      var last := |events| - 1;
      ConsumeReports(w, tag, events[..last], consumed[..last]);
      FailuresJoin(ConsumeAll(w, tag, events[..last], consumed[..last]).notices, [Failed]);
      OneFailure();
    }
  }

  /**
   * No refusal goes unreported: a command of the current session posts one failure for each event, or warp,
   * that the native backend refuses; a command of another session, or a release, posts none.
   */
  lemma RefusalsAreReported(w: Worker, command: Command, choice: Choice)
    requires Fits(w, command, choice)
    ensures Failures(Execute(w, command, choice).notices) == Failures(w.notices) +
              if command.ApplyBatch? && command.generation == w.active then Refused(choice.consumed)
              else if command.WarpCursor? && command.generation == w.active && !choice.warped then 1
              else 0
  {
    hide Letting;
    OneFailure();
    match command
    case ApplyBatch(generation, epoch, sequence, events) =>
      ConsumeReports(w, Tag(generation, epoch), events, choice.consumed);
      if generation == w.active {
        var after := ConsumeAll(w, Tag(generation, epoch), events, choice.consumed);
        FailuresJoin(after.notices, [Applied(generation, epoch, sequence)]);
      }
    case BeginSession(_) => FailuresJoin(w.notices, [Released(w.active)]);
    case WarpCursor(_, _) => FailuresJoin(w.notices, [Failed]);
    case ReleaseAll(_) => FailuresJoin(w.notices, [Released(w.active)]);
  }
}
