/** The cursor is put at the entry position of an epoch before any input of that epoch reaches the worker. */
module EntryWarps {
  import opened Base
  import opened Geometry
  import opened Input
  import opened Protocol
  import opened Injection
  import opened AgentHost

  // ---- All commands ever queued ----

  function AnswerCommands(c: Connection, r: Agent.Outcome): seq<Command> {
    match r.result case Err(_) => [] case Ok(actions) => CommandsOf(c.generation, actions)
  }

  function NoticeCommands(s: System, c: Connection): seq<Command>
    requires s.worker.notices != []
  {
    match s.worker.notices[0]
    case DesktopChanged(geometry) => if geometry == s.display then [] else [ReleaseAll(c.generation)]
    case Applied(generation, _, sequence) =>
      if generation != c.generation then [] else AnswerCommands(c, Agent.ConfirmApplied(c.agent, sequence))
    case _ => []
  }

  // What a step puts into the worker's queue.
  function Queues(s: System, step: Step): seq<Command> {
    match step
    case Connect(_) => if Drained(s).1 then [BeginSession(s.nextGeneration)] else []
    case Leave => if s.connection.Some? then [ReleaseAll(s.connection.value.generation)] else []
    case Receive(message) =>
      if s.connection.None? then []
      else AnswerCommands(s.connection.value, Agent.Handle(s.connection.value.agent, message))
    case TakeNotice =>
      if s.connection.None? || s.worker.notices == [] then [] else NoticeCommands(s, s.connection.value)
    case _ => []
  }

  ghost function Queued(display: DesktopGeometry, steps: seq<Step>): seq<Command>
    requires Runs(display, steps)
  {
    if steps == [] then []
    else
      var before := steps[..|steps| - 1];
      Queued(display, before) + Queues(Reached(display, before), steps[|steps| - 1])
  }

  lemma CommandsOfFew(g: U64, a: Agent.Action, b: Agent.Action)
    ensures CommandsOf(g, [a]) == CommandOf(g, a) && CommandsOf(g, [a, b]) == CommandOf(g, a) + CommandOf(g, b)
  {
    assert [a][1..] == [] && [b][1..] == [] && [a, b][1..] == [b];
    assert CommandOf(g, a) + [] == CommandOf(g, a) && CommandOf(g, b) + [] == CommandOf(g, b);
  }

  lemma QueueGrows(s: System, step: Step)
    requires Enabled(s, step)
    ensures Next(s, step).queue == if step.Work? then s.queue[1..] else s.queue + Queues(s, step)
  {
    hide Execute, Fits, Agent.Handle, Drained, CommandsOf, Agent.ConfirmApplied;
    var none: seq<Command> := [];
    assert s.queue + none == s.queue;
    if s.connection.Some? {
      CommandsOfFew(s.connection.value.generation, Agent.ReleaseAllInput, Agent.ReleaseAllInput);
    }
    if step.Connect? {
      DrainedKeepsRest(s);
    }
  }

  lemma WorkQueuesNothing(s: System, step: Step)
    requires step.Work?
    ensures Queues(s, step) == [] && (Enabled(s, step) ==> s.queue != [])
  {
  }

  // `rest` is what is left of `all` after some of its front is gone.
  predicate RestOf(all: seq<Command>, rest: seq<Command>) {
    |rest| <= |all| && rest == all[|all| - |rest|..]
  }

  lemma RestGrows(all: seq<Command>, rest: seq<Command>, more: seq<Command>)
    requires RestOf(all, rest)
    ensures RestOf(all + more, rest + more)
  {
  }

  lemma RestShrinks(all: seq<Command>, rest: seq<Command>)
    requires RestOf(all, rest) && rest != []
    ensures RestOf(all, rest[1..])
  {
  }

  lemma NextRest(s: System, step: Step, all: seq<Command>)
    requires Enabled(s, step) && RestOf(all, s.queue)
    ensures RestOf(all + Queues(s, step), Next(s, step).queue)
  {
    hide RestOf;
    QueueGrows(s, step);
    if step.Work? {
      WorkQueuesNothing(s, step);
      RestShrinks(all, s.queue);
      assert all + [] == all;
    } else {
      RestGrows(all, s.queue, Queues(s, step));
    }
  }

  lemma {:induction false} QueueIsRest(display: DesktopGeometry, steps: seq<Step>)
    requires Runs(display, steps)
    ensures RestOf(Queued(display, steps), Reached(display, steps).queue)
  {
    if steps != [] {
      hide Queues, Next, Enabled, RestOf;
      var before, last := steps[..|steps| - 1], steps[|steps| - 1];
      QueueIsRest(display, before);
      NextRest(Reached(display, before), last, Queued(display, before));
    } else {
      assert RestOf([], []);
    }
  }

  // ---- Entering ----

  predicate WarpedAt(all: seq<Command>, g: U64, p: Point, j: int) {
    0 <= j < |all| && all[j] == WarpCursor(g, p) && forall k :: j < k < |all| ==> !all[k].WarpCursor?
  }

  // The last warp put the cursor at p for session g.
  ghost predicate WarpedTo(all: seq<Command>, g: U64, p: Point) {
    exists j :: WarpedAt(all, g, p, j)
  }

  // A message announced p as the entry position of epoch e.
  ghost predicate EntryFor(steps: seq<Step>, e: U64, p: Point) {
    exists n :: Receive(FocusChanged(e, n, p)) in steps
  }

  // The cursor was last warped to the entry position of this epoch.
  ghost predicate EnteredAt(all: seq<Command>, steps: seq<Step>, g: U64, e: U64) {
    exists p :: WarpedTo(all, g, p) && EntryFor(steps, e, p)
  }

  ghost predicate InputEntered(all: seq<Command>, steps: seq<Step>) {
    forall i :: 0 <= i < |all| && all[i].ApplyBatch? ==> EnteredAt(all[..i], steps, all[i].generation, all[i].epoch)
  }

  ghost predicate EntryInv(s: System, all: seq<Command>, steps: seq<Step>) {
    && InputEntered(all, steps)
    && (s.connection.Some? && s.connection.value.agent.activeFocusEpoch.Some? ==>
          EnteredAt(all, steps, s.connection.value.generation, s.connection.value.agent.activeFocusEpoch.value))
  }

  lemma StillEntered(all: seq<Command>, more: seq<Command>, steps: seq<Step>, step: Step, g: U64, e: U64)
    requires EnteredAt(all, steps, g, e) && forall c :: c in more ==> !c.WarpCursor?
    ensures EnteredAt(all + more, steps + [step], g, e)
  {
    var p :| WarpedTo(all, g, p) && EntryFor(steps, e, p);
    var j :| WarpedAt(all, g, p, j);
    var n :| Receive(FocusChanged(e, n, p)) in steps;
    assert WarpedAt(all + more, g, p, j);
    assert Receive(FocusChanged(e, n, p)) in steps + [step];
    assert EntryFor(steps + [step], e, p) && WarpedTo(all + more, g, p);
  }

  lemma InputStaysEntered(all: seq<Command>, more: seq<Command>, steps: seq<Step>, step: Step)
    requires InputEntered(all, steps)
    requires forall i :: 0 <= i < |more| && more[i].ApplyBatch? ==>
               EnteredAt(all + more[..i], steps + [step], more[i].generation, more[i].epoch)
    ensures InputEntered(all + more, steps + [step])
  {
    hide EnteredAt;
    var none: seq<Command> := [];
    forall i | 0 <= i < |all + more| && (all + more)[i].ApplyBatch?
      ensures EnteredAt((all + more)[..i], steps + [step], (all + more)[i].generation, (all + more)[i].epoch)
    {
      if i < |all| {
        assert (all + more)[..i] == all[..i] && all[..i] + none == all[..i];
        StillEntered(all[..i], none, steps, step, all[i].generation, all[i].epoch);
      } else {
        assert (all + more)[..i] == all + more[..i - |all|];
      }
    }
  }

  // A step that queues no input keeps what was entered, unless it enters a new epoch itself.
  lemma QuietEntry(s: System, t: System, all: seq<Command>, more: seq<Command>, steps: seq<Step>, step: Step)
    requires EntryInv(s, all, steps) && forall c :: c in more ==> !c.WarpCursor? && !c.ApplyBatch?
    requires t.connection.Some? && t.connection.value.agent.activeFocusEpoch.Some? ==>
               && s.connection.Some? && t.connection.value.generation == s.connection.value.generation
               && t.connection.value.agent.activeFocusEpoch == s.connection.value.agent.activeFocusEpoch
    ensures EntryInv(t, all + more, steps + [step])
  {
    hide EnteredAt;
    InputStaysEntered(all, more, steps, step);
    if t.connection.Some? && t.connection.value.agent.activeFocusEpoch.Some? {
      StillEntered(all, more, steps, step, s.connection.value.generation,
        s.connection.value.agent.activeFocusEpoch.value);
    }
  }

  // What a message makes the agent do, as far as warps and input go.
  datatype Effect = Enters(e: U64, n: NodeId, p: Point) | Applies(batch: InputBatch) | Neither

  function EffectOf(agent: Agent.State, message: Session): Effect {
    var r := Agent.Handle(agent, message);
    if r.result.Err? then Neither
    else if message.FocusChanged? && message.focusEpoch > agent.highestFocusEpoch && message.target == agent.localNode
    then Enters(message.focusEpoch, message.target, message.entryPosition)
    else if message.InputMessage? && agent.pendingBatch.None? && r.state.pendingBatch.Some? then Applies(message.batch)
    else Neither
  }

  lemma EffectCommands(c: Connection, message: Session)
    requires Agent.Inv(c.agent)
    ensures var r := Agent.Handle(c.agent, message);
            var commands := AnswerCommands(c, r);
            match EffectOf(c.agent, message)
            case Enters(e, n, p) =>
              && message == FocusChanged(e, n, p) && r.state.activeFocusEpoch == Some(e)
              && (commands == [WarpCursor(c.generation, p)]
                  || commands == [ReleaseAll(c.generation), WarpCursor(c.generation, p)])
            case Applies(batch) =>
              && commands == [ApplyBatch(c.generation, batch.focusEpoch, batch.sequence, batch.events)]
              && c.agent.activeFocusEpoch == r.state.activeFocusEpoch == Some(batch.focusEpoch)
            case Neither =>
              && (r.result.Ok? ==> r.state.activeFocusEpoch in {None, c.agent.activeFocusEpoch})
              && commands in {[], [ReleaseAll(c.generation)]}
  {
    var r := Agent.Handle(c.agent, message);
    if r.result.Ok? {
      var actions := r.result.value;
      if |actions| == 1 {
        CommandsOfFew(c.generation, actions[0], actions[0]);
        assert actions == [actions[0]];
      } else if |actions| == 2 {
        CommandsOfFew(c.generation, actions[0], actions[1]);
        assert actions == [actions[0], actions[1]];
      }
    }
  }

  lemma EnteringEntry(s: System, t: System, all: seq<Command>, more: seq<Command>, steps: seq<Step>, step: Step, e: U64,
          n: NodeId, p: Point)
    requires EntryInv(s, all, steps) && step == Receive(FocusChanged(e, n, p))
    requires t.connection.Some? && t.connection.value.agent.activeFocusEpoch == Some(e)
    requires var g := t.connection.value.generation;
             more == [WarpCursor(g, p)] || more == [ReleaseAll(g), WarpCursor(g, p)]
    ensures EntryInv(t, all + more, steps + [step])
  {
    var g := t.connection.value.generation;
    InputStaysEntered(all, more, steps, step);
    assert WarpedAt(all + more, g, p, |all + more| - 1);
    assert Receive(FocusChanged(e, n, p)) in steps + [step];
    assert WarpedTo(all + more, g, p) && EntryFor(steps + [step], e, p);
  }

  lemma ApplyingEntry(s: System, t: System, all: seq<Command>, command: Command, steps: seq<Step>, step: Step)
    requires EntryInv(s, all, steps) && command.ApplyBatch?
    requires s.connection.Some? && s.connection.value.agent.activeFocusEpoch == Some(command.epoch)
    requires s.connection.value.generation == command.generation
    requires t.connection.Some? ==>
               && t.connection.value.generation == command.generation
               && t.connection.value.agent.activeFocusEpoch == Some(command.epoch)
    ensures EntryInv(t, all + [command], steps + [step])
  {
    var none: seq<Command> := [];
    assert all + none == all && [command][..0] == none;
    StillEntered(all, none, steps, step, command.generation, command.epoch);
    StillEntered(all, [command], steps, step, command.generation, command.epoch);
    InputStaysEntered(all, [command], steps, step);
  }

  lemma ReceiveEntry(s: System, all: seq<Command>, steps: seq<Step>, message: Session)
    requires EntryInv(s, all, steps) && Enabled(s, Receive(message)) && Agent.Inv(s.connection.value.agent)
    ensures EntryInv(Next(s, Receive(message)), all + Queues(s, Receive(message)), steps + [Receive(message)])
  {
    var c := s.connection.value;
    var t, more := Next(s, Receive(message)), Queues(s, Receive(message));
    EffectCommands(c, message);
    hide EntryInv, Agent.Handle, Agent.Inv, CommandsOf, EffectOf;
    match EffectOf(c.agent, message)
    case Enters(e, n, p) =>
      if t.connection.Some? {
        EnteringEntry(s, t, all, more, steps, Receive(message), e, n, p);
      }
    case Applies(batch) => ApplyingEntry(s, t, all, more[0], steps, Receive(message));
    case Neither => QuietEntry(s, t, all, more, steps, Receive(message));
  }

  lemma ConfirmQueuesNothing(c: Connection, sequence: U64)
    ensures AnswerCommands(c, Agent.ConfirmApplied(c.agent, sequence)) == []
    ensures Agent.ConfirmApplied(c.agent, sequence).state.activeFocusEpoch == c.agent.activeFocusEpoch
  {
    var acknowledged := Agent.Send(InputAcknowledged(sequence));
    CommandsOfFew(c.generation, acknowledged, acknowledged);
  }

  // Every step other than a message queues neither warps nor input, and enters no epoch.
  lemma OtherEntry(s: System, all: seq<Command>, steps: seq<Step>, step: Step)
    requires EntryInv(s, all, steps) && Enabled(s, step) && !step.Receive?
    ensures EntryInv(Next(s, step), all + Queues(s, step), steps + [step])
  {
    hide EntryInv, Execute, Fits, Drained, CommandsOf, Agent.ConfirmApplied;
    if step.Connect? {
      DrainedKeepsRest(s);
    } else if step.TakeNotice? && s.worker.notices[0].Applied? {
      ConfirmQueuesNothing(s.connection.value, s.worker.notices[0].sequence);
    }
    QuietEntry(s, Next(s, step), all, Queues(s, step), steps, step);
  }

  lemma NextEntry(s: System, all: seq<Command>, steps: seq<Step>, step: Step, owner: Option<Tag>)
    requires EntryInv(s, all, steps) && Enabled(s, step) && InvWith(s, owner)
    ensures EntryInv(Next(s, step), all + Queues(s, step), steps + [step])
  {
    hide EntryInv, Queues, Next, StreamOk, QueueOk, Agent.Inv;
    if step.Receive? {
      ReceiveEntry(s, all, steps, step.message);
    } else {
      OtherEntry(s, all, steps, step);
    }
  }

  lemma {:induction false} RunEntry(display: DesktopGeometry, steps: seq<Step>)
    requires Runs(display, steps)
    ensures EntryInv(Reached(display, steps), Queued(display, steps), steps)
  {
    if steps != [] {
      hide EntryInv, Queues, Next, Enabled, InvWith;
      var before, last := steps[..|steps| - 1], steps[|steps| - 1];
      RunEntry(display, before);
      var owner := RunKeeps(display, before);
      assert steps == before + [last];
      NextEntry(Reached(display, before), Queued(display, before), before, last, owner);
    }
  }

  /**
   * The cursor is placed before input resumes: in any run, whenever a batch of some session and epoch is
   * queued, the last warp queued before it was for that session and to the position a focus message announced
   * for that epoch. The worker takes its commands in the order they were queued in.
   */
  lemma WarpsComeFirst(display: DesktopGeometry, steps: seq<Step>, i: nat)
    requires Runs(display, steps) && i < |Queued(display, steps)| && Queued(display, steps)[i].ApplyBatch?
    ensures var all := Queued(display, steps);
            exists p, n, j ::
              && Receive(FocusChanged(all[i].epoch, n, p)) in steps
              && 0 <= j < i && all[j] == WarpCursor(all[i].generation, p)
              && forall k :: j < k < i ==> !all[k].WarpCursor?
    ensures RestOf(Queued(display, steps), Reached(display, steps).queue)
  {
    hide Runs, Reached, Queued;
    RunEntry(display, steps);
    QueueIsRest(display, steps);
    var all := Queued(display, steps);
    var g, e := all[i].generation, all[i].epoch;
    assert EnteredAt(all[..i], steps, g, e);
    var p :| WarpedTo(all[..i], g, p) && EntryFor(steps, e, p);
    var j :| WarpedAt(all[..i], g, p, j);
    var n :| Receive(FocusChanged(e, n, p)) in steps;
    assert all[..i][j] == all[j] && forall k :: 0 <= k < i ==> all[..i][k] == all[k];
  }
}
