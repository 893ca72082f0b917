/** An agent's connections over whole runs: how they begin and end, and what they know and leave behind. */
module HostRuns {
  import opened Base
  import opened Geometry
  import opened Input
  import opened Protocol
  import opened HeldState
  import opened Injection
  import opened AgentHost

  // ---- Leaving ----

  // Once everything queued has run, nothing is down for anyone.
  predicate EndsUnowned(s: System, owner: Option<Tag>) {
    !s.stopped ==>
      var end := PassAll(Progress(s.worker.active, owner), s.queue);
      end.Some? && end.value.owner.None?
  }

  lemma LeaveEndsUnowned(s: System, owner: Option<Tag>)
    requires InvWith(s, owner) && Enabled(s, Leave)
    ensures EndsUnowned(Next(s, Leave), owner)
  {
    hide StreamOk;
    PassJoins(Progress(s.worker.active, owner), s.queue, [ReleaseAll(s.connection.value.generation)]);
  }

  lemma WorkEndsUnowned(s: System, choice: Choice, owner: Option<Tag>) returns (next: Option<Tag>)
    requires InvWith(s, owner) && EndsUnowned(s, owner) && Enabled(s, Work(choice))
    ensures InvWith(Next(s, Work(choice)), next) && EndsUnowned(Next(s, Work(choice)), next)
  {
    hide StreamOk, Execute, Letting;
    next := ExecuteKeeps(s.worker, s.queue[0], choice, owner);
    var p := Progress(s.worker.active, owner);
    var reached := Pass(p, s.queue[0]).value;
    if next != reached.owner {
      PassMonotone(reached.(owner := None), reached, s.queue[1..]);
    }
  }

  lemma IdleEndsUnowned(s: System, step: Step, owner: Option<Tag>) returns (next: Option<Tag>)
    requires InvWith(s, owner) && EndsUnowned(s, owner) && s.connection.None? && Enabled(s, step) && !step.Connect?
    ensures var t := Next(s, step); InvWith(t, next) && EndsUnowned(t, next) && t.connection.None?
  {
    hide StreamOk, Execute, Letting;
    match step
    case Work(choice) => next := WorkEndsUnowned(s, choice, owner);
    case SeeDisplay(geometry) =>
      next := owner;
      NoticesKeep(s, s.worker.notices + [DesktopChanged(geometry)], owner);
    case StopWorker(_) => next := NextKeeps(s, step, owner);
  }

  lemma Shorter(display: DesktopGeometry, steps: seq<Step>)
    requires Runs(display, steps) && steps != []
    ensures var before, last := steps[..|steps| - 1], steps[|steps| - 1];
            && Runs(display, before) && Enabled(Reached(display, before), last)
            && Reached(display, steps) == Next(Reached(display, before), last)
  {
  }

  lemma LeavesNobody(s: System)
    requires Enabled(s, Leave)
    ensures s.connection.Some? && Next(s, Leave).connection.None?
  {
  }

  lemma {:induction false} AfterLeaving(display: DesktopGeometry, steps: seq<Step>, more: seq<Step>)
    returns (owner: Option<Tag>)
    requires Runs(display, steps + [Leave] + more) && forall step :: step in more ==> !step.Connect?
    ensures var s := Reached(display, steps + [Leave] + more);
            InvWith(s, owner) && EndsUnowned(s, owner) && s.connection.None?
  {
    hide InvWith, EndsUnowned, Reached, Runs, Next, Enabled;
    var all := steps + [Leave] + more;
    Shorter(display, all);
    if more == [] {
      assert all == steps + [Leave] && all[..|all| - 1] == steps;
      var before := RunKeeps(display, steps);
      LeaveEndsUnowned(Reached(display, steps), before);
      LeavesNobody(Reached(display, steps));
      owner := before;
      LeaveKeeps(Reached(display, steps), before);
    } else {
      var front := more[..|more| - 1];
      assert all[..|all| - 1] == steps + [Leave] + front && all[|all| - 1] == more[|more| - 1];
      var before := AfterLeaving(display, steps, front);
      assert more[|more| - 1] in more;
      owner := IdleEndsUnowned(Reached(display, steps + [Leave] + front), more[|more| - 1], before);
    }
  }

  /**
   * Leaving lets go: in any run, after a disconnection and until the next connection, the worker holds nothing
   * once it has caught up, or has stopped.
   */
  lemma LeavingLetsGo(display: DesktopGeometry, steps: seq<Step>, more: seq<Step>)
    requires Runs(display, steps + [Leave] + more) && forall step :: step in more ==> !step.Connect?
    ensures var s := Reached(display, steps + [Leave] + more);
            s.queue == [] || s.stopped ==> s.worker.held == NOTHING_HELD
  {
    hide StreamOk, Reached, Runs;
    var owner := AfterLeaving(display, steps, more);
    if owner.None? {
      UnownedIsEmpty(Reached(display, steps + [Leave] + more).worker);
    }
  }

  // ---- The reported desktop ----

  // The desktop the worker saw last.
  function LastSeen(display: DesktopGeometry, steps: seq<Step>): DesktopGeometry {
    if steps == [] then display
    else
      var last := steps[|steps| - 1];
      if last.SeeDisplay? then last.geometry else LastSeen(display, steps[..|steps| - 1])
  }

  // The desktop after the notices still to be read.
  function Announced(display: DesktopGeometry, notices: seq<Notice>): DesktopGeometry {
    if notices == [] then display
    else
      var last := notices[|notices| - 1];
      if last.DesktopChanged? then last.geometry else Announced(display, notices[..|notices| - 1])
  }

  lemma {:induction false} AnnouncedJoins(display: DesktopGeometry, a: seq<Notice>, b: seq<Notice>)
    ensures Announced(display, a + b) == Announced(Announced(display, a), b)
  {
    if b == [] {
      assert a + b == a;
    } else {
      AnnouncedJoins(display, a, b[..|b| - 1]);
      assert (a + b)[..|a + b| - 1] == a + b[..|b| - 1] && (a + b)[|a + b| - 1] == b[|b| - 1];
    }
  }

  // The next notice, once read, is reflected in the desktop known.
  lemma AnnouncedNext(display: DesktopGeometry, notices: seq<Notice>)
    requires notices != []
    ensures Announced(display, notices)
            == Announced(if notices[0].DesktopChanged? then notices[0].geometry else display, notices[1..])
  {
    AnnouncedJoins(display, notices[..1], notices[1..]);
    assert notices == notices[..1] + notices[1..] && notices[..1][..0] == [];
  }

  predicate Informed(s: System) {
    s.connection.Some? ==> s.connection.value.agent.displaySize == s.display.layout.size
  }

  ghost predicate Reports(s: System, seen: DesktopGeometry) {
    Informed(s) && Announced(s.display, s.worker.notices) == seen
  }

  lemma {:induction false} DrainedAnnounces(s: System)
    ensures var t := Drained(s).0;
            && Announced(t.display, t.worker.notices) == Announced(s.display, s.worker.notices)
            && t.connection == s.connection
    decreases |s.worker.notices|
  {
    if s.worker.notices != [] {
      AnnouncedNext(s.display, s.worker.notices);
      var rest := s.(worker := s.worker.(notices := s.worker.notices[1..]));
      if s.worker.notices[0].DesktopChanged? {
        DrainedAnnounces(rest.(display := s.worker.notices[0].geometry));
      } else {
        DrainedAnnounces(rest);
      }
    }
  }

  lemma {:induction false} Unannounced(display: DesktopGeometry, more: seq<Notice>)
    requires forall n :: n in more ==> !n.DesktopChanged?
    ensures Announced(display, more) == display
  {
    if more != [] {
      Unannounced(display, more[..|more| - 1]);
    }
  }

  lemma AnnouncesNothing(display: DesktopGeometry, notices: seq<Notice>, more: seq<Notice>)
    requires forall n :: n in more ==> !n.DesktopChanged?
    ensures Announced(display, notices + more) == Announced(display, notices)
  {
    AnnouncedJoins(display, notices, more);
    Unannounced(Announced(display, notices), more);
  }

  lemma {:induction false} ConsumePosts(w: Worker, tag: Tag, events: seq<InputEvent>, consumed: seq<bool>)
    returns (more: seq<Notice>)
    requires |consumed| == |events|
    ensures ConsumeAll(w, tag, events, consumed).notices == w.notices + more
    ensures forall n :: n in more ==> !n.DesktopChanged?
  {
    if events == [] {
      more := [];
    } else {
      var last := |events| - 1;
      var front := ConsumePosts(w, tag, events[..last], consumed[..last]);
      more := if consumed[last] then front else front + [Failed];
      Regroup(w.notices, front, [Failed]);
    }
  }

  lemma ExecutePosts(w: Worker, command: Command, choice: Choice) returns (more: seq<Notice>)
    requires Fits(w, command, choice)
    ensures Execute(w, command, choice).notices == w.notices + more
    ensures forall n :: n in more ==> !n.DesktopChanged?
  {
    hide Letting;
    if command.ApplyBatch? && command.generation == w.active {
      more := ConsumePosts(w, Tag(command.generation, command.epoch), command.events, choice.consumed);
      if false !in choice.consumed {
        Regroup(w.notices, more, [Applied(command.generation, command.epoch, command.sequence)]);
        more := more + [Applied(command.generation, command.epoch, command.sequence)];
      }
    } else {
      more := Execute(w, command, choice).notices[|w.notices|..];
    }
  }

  lemma HandleKeepsSize(agent: Agent.State, message: Session)
    ensures Agent.Handle(agent, message).state.displaySize == agent.displaySize
  {
  }

  lemma SeenLast(display: DesktopGeometry, notices: seq<Notice>, geometry: DesktopGeometry)
    ensures Announced(display, notices + [DesktopChanged(geometry)]) == geometry
  {
  }

  lemma NextReports(s: System, step: Step, seen: DesktopGeometry)
    requires Reports(s, seen) && Enabled(s, step)
    ensures Reports(Next(s, step), if step.SeeDisplay? then step.geometry else seen)
  {
    hide Execute, Letting, Agent.Handle, Drained, Announced, Fits, CommandsOf;
    var notices := s.worker.notices;
    match step
    case Connect(_) => DrainedAnnounces(s);
    case Receive(message) => HandleKeepsSize(s.connection.value.agent, message);
    case TakeNotice => AnnouncedNext(s.display, notices);
    case Leave =>
    case Work(choice) =>
      var more := ExecutePosts(s.worker, s.queue[0], choice);
      AnnouncesNothing(s.display, notices, more);
    case SeeDisplay(geometry) => SeenLast(s.display, notices, geometry);
    case StopWorker(releases) =>
      var more := [Released(s.worker.active), Stopped];
      AnnouncesNothing(s.display, notices, more);
      assert notices + [Released(s.worker.active)] + [Stopped] == notices + more;
  }

  /**
   * An agent knows its display: in every run, while connected it has the size of the desktop the host last
   * read about, which is the one the worker saw last as soon as no notice of a change is waiting.
   */
  lemma {:induction false} DisplayIsKnown(display: DesktopGeometry, steps: seq<Step>)
    requires Runs(display, steps)
    ensures var s := Reached(display, steps);
            && (s.connection.Some? ==> s.connection.value.agent.displaySize == s.display.layout.size)
            && Announced(s.display, s.worker.notices) == LastSeen(display, steps)
            && ((forall n :: n in s.worker.notices ==> !n.DesktopChanged?) ==> s.display == LastSeen(display, steps))
  {
    var s := Reached(display, steps);
    if forall n :: n in s.worker.notices ==> !n.DesktopChanged? {
      Unannounced(s.display, s.worker.notices);
    }
    if steps != [] {
      hide Announced, Next;
      var before, last := steps[..|steps| - 1], steps[|steps| - 1];
      DisplayIsKnown(display, before);
      NextReports(Reached(display, before), last, LastSeen(display, before));
    }
  }

  // ---- How connections begin and end ----

  // What ends a connection: leaving, an answer the agent refuses, and a worker that failed or stopped.
  ghost predicate Ends(s: System, c: Connection, step: Step)
    requires Enabled(s, step) && s.connection == Some(c)
  {
    match step
    case Leave => true
    case Receive(message) => Agent.Handle(c.agent, message).result.Err?
    case TakeNotice =>
      var notice := s.worker.notices[0];
      || notice.Failed? || notice.Stopped?
      || (notice.Applied? && notice.generation == c.generation
          && (c.agent.pendingBatch.None? || notice.sequence != c.agent.lastAppliedSequence + 1))
    case _ => false
  }

  lemma StepEnds(s: System, step: Step, owner: Option<Tag>)
    requires InvWith(s, owner) && Enabled(s, step) && s.connection.Some?
    ensures Next(s, step).connection.None? <==> Ends(s, s.connection.value, step)
    ensures Next(s, step).connection.Some? ==>
            Next(s, step).connection.value.generation == s.connection.value.generation
  {
    hide StreamOk, Execute, Letting, Agent.Handle, Drained, QueueOk, CommandsOf, Agent.ConfirmApplied, Agent.Inv;
    var c := s.connection.value;
    if step.TakeNotice? && s.worker.notices[0].Applied? {
      Agent.ConfirmKeepsInv(c.agent, s.worker.notices[0].sequence);
    }
  }

  /**
   * In any run a connection ends exactly when it is left, when a message or a confirmation is refused, or when
   * the worker reports a failure or its end; until then its generation stays.
   */
  lemma ConnectionEndsExactly(display: DesktopGeometry, steps: seq<Step>, step: Step)
    requires Runs(display, steps) && Enabled(Reached(display, steps), step) && Reached(display, steps).connection.Some?
    ensures var s, t := Reached(display, steps), Next(Reached(display, steps), step);
            && (t.connection.None? <==> Ends(s, s.connection.value, step))
            && (t.connection.Some? ==> t.connection.value.generation == s.connection.value.generation)
  {
    hide InvWith, Reached, Runs, Next, Ends, Enabled;
    var owner := RunKeeps(display, steps);
    StepEnds(Reached(display, steps), step, owner);
  }

  // No failure and no end of the worker waits to be read.
  predicate Healthy(notices: seq<Notice>) {
    forall n :: n in notices ==> !n.Failed? && !n.Stopped?
  }

  lemma {:induction false} DrainedExactly(s: System)
    ensures var (t, ready) := Drained(s);
            && (ready <==> Healthy(s.worker.notices))
            && (ready ==> t == s.(display := Announced(s.display, s.worker.notices),
                                  worker := s.worker.(notices := [])))
            && (!ready ==> t.connection == s.connection && t.nextGeneration == s.nextGeneration)
    decreases |s.worker.notices|
  {
    if s.worker.notices != [] {
      var notices := s.worker.notices;
      AnnouncedNext(s.display, notices);
      assert forall n :: n in notices <==> n == notices[0] || n in notices[1..];
      var rest := s.(worker := s.worker.(notices := notices[1..]));
      hide Announced;
      if notices[0].DesktopChanged? {
        DrainedExactly(rest.(display := notices[0].geometry));
      } else {
        DrainedExactly(rest);
      }
    }
  }

  /**
   * A connection begins exactly when nothing the worker reported before says that it failed or stopped: with a
   * generation never used before, a new agent that knows the last desktop reported, and the worker told.
   */
  lemma ConnectionBeginsExactly(s: System, node: NodeId)
    requires Enabled(s, Connect(node))
    ensures var t := Next(s, Connect(node));
            && (t.connection.Some? <==> Healthy(s.worker.notices))
            && (t.connection.Some? ==>
                  && t.connection.value.generation == s.nextGeneration < t.nextGeneration
                  && t.connection.value.agent
                     == Agent.State(node, Announced(s.display, s.worker.notices).layout.size, 0, None, None, 0, None,
                       false)
                  && !t.connection.value.applicationPending
                  && t.queue == s.queue + [BeginSession(s.nextGeneration)])
  {
    hide Drained, Announced;
    DrainedKeepsRest(s);
    DrainedExactly(s);
  }

  /**
   * Entering focus warps the cursor: a newer focus message for this node that the agent accepts queues, after
   * the release an active epoch needs, the warp of this session to exactly the announced position.
   */
  lemma EnteringWarps(s: System, epoch: U64, position: Point)
    requires s.connection.Some?
    requires Enabled(s, Receive(FocusChanged(epoch, s.connection.value.agent.localNode, position)))
    requires Agent.Inv(s.connection.value.agent)
    ensures var c := s.connection.value;
            var message := FocusChanged(epoch, c.agent.localNode, position);
            epoch > c.agent.highestFocusEpoch && Agent.Handle(c.agent, message).result.Ok? ==>
              Next(s, Receive(message)).queue
              == s.queue + (if c.agent.activeFocusEpoch.Some? then [ReleaseAll(c.generation)] else [])
                         + [WarpCursor(c.generation, position)]
  {
    var c := s.connection.value;
    var message := FocusChanged(epoch, c.agent.localNode, position);
    if epoch > c.agent.highestFocusEpoch && Agent.Handle(c.agent, message).result.Ok? {
      Agent.FocusIsTakenExactly(c.agent, epoch, c.agent.localNode, position);
      hide Agent.Handle;
      var entered := [Agent.FocusEntered(position)];
      var both := [Agent.ReleaseAllInput] + entered;
      assert entered[1..] == [] && both[1..] == entered && [] + entered == entered;
      assert CommandsOf(c.generation, entered) == [WarpCursor(c.generation, position)] + CommandsOf(c.generation, []);
      assert CommandsOf(c.generation, both) == [ReleaseAll(c.generation)] + CommandsOf(c.generation, entered);
    }
  }

  lemma TakingShortens(s: System)
    requires Enabled(s, TakeNotice)
    ensures Next(s, TakeNotice).worker.notices == s.worker.notices[1..]
  {
    hide CommandsOf;
  }

  // The host reading notices until none is left or the connection has ended.
  function Reading(s: System): System
    decreases |s.worker.notices|
  {
    if s.connection.None? || s.worker.notices == [] then s
    else TakingShortens(s); Reading(Next(s, TakeNotice))
  }

  /**
   * No failure is survived: when a failure, or the end of the worker, waits among the notices, reading them ends
   * the connection; and a worker that stops always leaves such a notice.
   */
  lemma {:induction false} FailuresEndConnections(s: System)
    ensures !Healthy(s.worker.notices) ==> Reading(s).connection.None?
    ensures forall releases: seq<InputEvent> :: Enabled(s, StopWorker(releases)) ==>
              !Healthy(Next(s, StopWorker(releases)).worker.notices)
    decreases |s.worker.notices|
  {
    hide CommandsOf;
    if s.connection.Some? && s.worker.notices != [] {
      TakingShortens(s);
      FailuresEndConnections(Next(s, TakeNotice));
      assert forall n :: n in s.worker.notices <==> n == s.worker.notices[0] || n in s.worker.notices[1..];
    }
    forall releases: seq<InputEvent> | Enabled(s, StopWorker(releases))
      ensures !Healthy(Next(s, StopWorker(releases)).worker.notices)
    {
      assert Stopped in Next(s, StopWorker(releases)).worker.notices;
    }
  }
}
