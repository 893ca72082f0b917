/**
 * The agent's runtime loop with its injection worker: sessions come and go, commands queue up in order, and
 * notices come back in order. Messages are arbitrary: nothing is assumed about the controller.
 */
module AgentHost {
  import opened Base
  import opened Input
  import opened Protocol
  import opened HeldState
  import opened Injection
  import Agent

  // A connection, its session generation, and the flag that holds back further control messages.
  datatype Connection = Connection(generation: U64, agent: Agent.State, applicationPending: bool)

  // `display` is the desktop the agent last reported.
  datatype System = System(
    connection: Option<Connection>,
    display: DesktopGeometry,
    nextGeneration: U64,
    queue: seq<Command>,
    worker: Worker,
    stopped: bool)

  // A display change is seen by the worker and reaches the host among the other notices, in order.
  datatype Step =
    | Connect(localNode: NodeId)
    | Receive(message: Session)
    | TakeNotice
    | Leave
    | Work(choice: Choice)
    | SeeDisplay(geometry: DesktopGeometry)
    | StopWorker(releases: seq<InputEvent>)

  function Start(display: DesktopGeometry): System {
    System(None, display, 1, [], NEW_WORKER, false)
  }

  function CommandOf(generation: U64, action: Agent.Action): seq<Command> {
    match action
    case FocusEntered(position) => [WarpCursor(generation, position)]
    case ApplyInput(batch) => [ApplyBatch(generation, batch.focusEpoch, batch.sequence, batch.events)]
    case ReleaseAllInput => [ReleaseAll(generation)]
    case _ => []
  }

  function CommandsOf(generation: U64, actions: seq<Agent.Action>): seq<Command> {
    if actions == [] then [] else CommandOf(generation, actions[0]) + CommandsOf(generation, actions[1..])
  }

  predicate StartsApplication(actions: seq<Agent.Action>) {
    exists i :: 0 <= i < |actions| && actions[i].ApplyInput?
  }

  // A refused message or confirmation ends the connection, leaving whatever is held to the next session.
  function After(s: System, connection: Connection, r: Agent.Outcome, applicationPending: bool): System {
    match r.result
    case Err(_) => s.(connection := None)
    case Ok(actions) =>
      s.(connection := Some(connection.(agent := r.state, applicationPending := applicationPending)),
         queue := s.queue + CommandsOf(connection.generation, actions))
  }

  function Heard(s: System, connection: Connection, notice: Notice): System {
    match notice
    case Failed => s.(connection := None)
    case Stopped => s.(connection := None)
    case Released(_) => s
    case DesktopChanged(geometry) =>
      if geometry == s.display then s
      else
        var (agent, actions) := Agent.ReconcileDisplay(connection.agent, geometry.layout.size);
        After(s.(display := geometry), connection, Agent.Outcome(agent, Ok(actions)), false)
    case Applied(generation, _, sequence) =>
      if generation != connection.generation then s
      else After(s, connection, Agent.ConfirmApplied(connection.agent, sequence), false)
  }

  // Before a session begins the notices of earlier ones are read; a failure among them ends the attempt.
  function Drained(s: System): (System, bool)
    decreases |s.worker.notices|
  {
    if s.worker.notices == [] then (s, true)
    else
      var rest := s.(worker := s.worker.(notices := s.worker.notices[1..]));
      match s.worker.notices[0]
      case Failed => (rest, false)
      case Stopped => (rest, false)
      case DesktopChanged(geometry) => Drained(rest.(display := geometry))
      case _ => Drained(rest)
  }

  function Begun(s: System, localNode: NodeId): System
    requires s.nextGeneration < U64_MAX
  {
    s.(connection := Some(Connection(s.nextGeneration, Agent.New(localNode, s.display.layout.size), false)),
       nextGeneration := s.nextGeneration + 1,
       queue := s.queue + [BeginSession(s.nextGeneration)])
  }

  ghost predicate Enabled(s: System, step: Step) {
    match step
    case Connect(_) => s.connection.None? && s.nextGeneration < U64_MAX
    case Receive(_) => s.connection.Some? && !s.connection.value.applicationPending
    case TakeNotice => s.connection.Some? && s.worker.notices != []
    case Leave => s.connection.Some?
    case Work(choice) => !s.stopped && s.queue != [] && Fits(s.worker, s.queue[0], choice)
    case SeeDisplay(_) => !s.stopped
    case StopWorker(releases) => !s.stopped && Letting(s.worker.held, 0, releases)
  }

  lemma {:induction false} DrainedKeepsRest(s: System)
    ensures var (t, ready) := Drained(s);
            && t == s.(display := t.display, worker := s.worker.(notices := t.worker.notices))
            && (ready ==> t.worker.notices == [])
    decreases |s.worker.notices|
  {
    if s.worker.notices != [] {
      var rest := s.(worker := s.worker.(notices := s.worker.notices[1..]));
      if s.worker.notices[0].DesktopChanged? {
        DrainedKeepsRest(rest.(display := s.worker.notices[0].geometry));
      } else {
        DrainedKeepsRest(rest);
      }
    }
  }

  function Next(s: System, step: Step): System
    requires Enabled(s, step)
  {
    match step
    case Connect(localNode) =>
      DrainedKeepsRest(s);
      var (drained, ready) := Drained(s);
      if ready then Begun(drained, localNode) else drained
    case Receive(message) =>
      var connection := s.connection.value;
      var r := Agent.Handle(connection.agent, message);
      After(s, connection, r, r.result.Ok? && StartsApplication(r.result.value))
    case TakeNotice =>
      Heard(s.(worker := s.worker.(notices := s.worker.notices[1..])), s.connection.value, s.worker.notices[0])
    case Leave => s.(connection := None, queue := s.queue + [ReleaseAll(s.connection.value.generation)])
    case Work(choice) => s.(queue := s.queue[1..], worker := Execute(s.worker, s.queue[0], choice))
    case SeeDisplay(geometry) => s.(worker := s.worker.(notices := s.worker.notices + [DesktopChanged(geometry)]))
    case StopWorker(releases) =>
      var released := ReleaseHeld(s.worker, releases);
      s.(stopped := true, worker := released.(notices := released.notices + [Stopped]))
  }

  // ---- The invariant: running the queue, the worker only ever presses for the owner of what is down ----

  datatype Progress = Progress(active: U64, owner: Option<Tag>)

  // None when some command would inject for one tag while another still owns what is down, or would be stale.
  function Pass(p: Progress, command: Command): Option<Progress> {
    match command
    case BeginSession(generation) => Some(Progress(generation, None))
    case ApplyBatch(generation, epoch, _, _) =>
      if generation != p.active then None
      else if p.owner.None? || p.owner.value == Tag(generation, epoch)
        then Some(p.(owner := Some(Tag(generation, epoch))))
      else None
    case WarpCursor(_, _) => Some(p)
    case ReleaseAll(generation) => Some(if generation == p.active then p.(owner := None) else p)
  }

  function PassAll(p: Progress, queue: seq<Command>): Option<Progress>
    decreases |queue|
  {
    if queue == [] then Some(p)
    else match Pass(p, queue[0]) case None => None case Some(next) => PassAll(next, queue[1..])
  }

  predicate OwnerFits(connection: Connection, p: Progress) {
    && p.active == connection.generation
    && (p.owner.Some? ==>
          && connection.agent.activeFocusEpoch.Some?
          && p.owner.value == Tag(connection.generation, connection.agent.activeFocusEpoch.value))
  }

  predicate QueueOk(s: System, owner: Option<Tag>) {
    var end := PassAll(Progress(s.worker.active, owner), s.queue);
    end.Some? && (s.connection.Some? ==> OwnerFits(s.connection.value, end.value))
  }

  predicate ConnectionOk(s: System) {
    s.connection.Some? ==>
      && Agent.Inv(s.connection.value.agent)
      && s.connection.value.applicationPending == s.connection.value.agent.pendingBatch.Some?
      && s.connection.value.generation < s.nextGeneration
  }

  ghost predicate InvWith(s: System, owner: Option<Tag>) {
    && ConnectionOk(s)
    && StreamOk(s.worker, owner)
    && (s.stopped ==> owner.None?)
    && (!s.stopped ==> QueueOk(s, owner))
  }

  lemma {:induction false} PassJoins(p: Progress, a: seq<Command>, b: seq<Command>)
    ensures PassAll(p, a + b) == match PassAll(p, a) case None => None case Some(next) => PassAll(next, b)
    decreases |a|
  {
    if a == [] {
      assert a + b == b;
    } else {
      assert (a + b)[1..] == a[1..] + b;
      if Pass(p, a[0]).Some? {
        PassJoins(Pass(p, a[0]).value, a[1..], b);
      }
    }
  }

  lemma CommandPasses(generation: U64, action: Agent.Action, p: Progress)
    requires p.active == generation
    requires action.ApplyInput? ==> p.owner.None? || p.owner.value == Tag(generation, action.batch.focusEpoch)
    ensures PassAll(p, CommandOf(generation, action)) == Some(p.(owner :=
              if action.ReleaseAllInput? then None
              else if action.ApplyInput? then Some(Tag(generation, action.batch.focusEpoch))
              else p.owner))
  {
    var commands := CommandOf(generation, action);
    if commands != [] {
      assert commands[1..] == [];
    }
  }

  // An answer releases before it leaves an epoch, and applies only what belongs to the active one.
  predicate Answers(agent: Agent.State, r: Agent.Outcome)
    requires r.result.Ok?
  {
    var actions := r.result.value;
    && |actions| <= 2
    && (r.state.activeFocusEpoch != agent.activeFocusEpoch && agent.activeFocusEpoch.Some? ==>
         actions != [] && actions[0].ReleaseAllInput?)
    && (forall i :: 0 <= i < |actions| && actions[i].ApplyInput? ==>
          |actions| == 1 && r.state.activeFocusEpoch == agent.activeFocusEpoch == Some(actions[i].batch.focusEpoch))
  }

  // What the commands of an agent's answer do to whoever owns the queue's end.
  lemma AnswerPasses(connection: Connection, r: Agent.Outcome, p: Progress)
    requires OwnerFits(connection, p) && Agent.Inv(connection.agent) && r.result.Ok? && |r.result.value| <= 2
    requires Answers(connection.agent, r)
    ensures var end := PassAll(p, CommandsOf(connection.generation, r.result.value));
            end.Some? && OwnerFits(connection.(agent := r.state), end.value)
  {
    var actions := r.result.value;
    if actions != [] {
      CommandPasses(connection.generation, actions[0], p);
      var rest := CommandsOf(connection.generation, actions[1..]);
      PassJoins(p, CommandOf(connection.generation, actions[0]), rest);
      if |actions| == 2 {
        var second := actions[1..];
        assert second[1..] == [];
        assert CommandsOf(connection.generation, second[1..]) == [];
        assert rest == CommandOf(connection.generation, second[0]);
        CommandPasses(connection.generation, actions[1],
          PassAll(p, CommandOf(connection.generation, actions[0])).value);
      } else {
        assert actions[1..] == [];
      }
    }
  }

  lemma HandleAnswers(agent: Agent.State, message: Session)
    requires Agent.Inv(agent) && agent.pendingBatch.None?
    ensures var r := Agent.Handle(agent, message);
            r.result.Ok? ==> Answers(agent, r) && StartsApplication(r.result.value) == r.state.pendingBatch.Some?
  {
    var r := Agent.Handle(agent, message);
    if r.result.Ok? && r.state.pendingBatch.Some? {
      assert r.result.value[0].ApplyInput?;
    }
  }

  lemma AnswersFew(agent: Agent.State, r: Agent.Outcome)
    requires r.result.Ok? && Answers(agent, r)
    ensures |r.result.value| <= 2
  {
  }

  lemma AfterKeeps(s: System, connection: Connection, r: Agent.Outcome, applicationPending: bool, owner: Option<Tag>)
    requires InvWith(s, owner) && s.connection == Some(connection)
    requires r.result.Ok? ==>
             Answers(connection.agent, r) && Agent.Inv(r.state) && applicationPending == r.state.pendingBatch.Some?
    ensures InvWith(After(s, connection, r, applicationPending), owner)
  {
    hide StreamOk, Answers;
    if r.result.Ok? {
      AnswersFew(connection.agent, r);
      var p := Progress(s.worker.active, owner);
      PassJoins(p, s.queue, CommandsOf(connection.generation, r.result.value));
      if !s.stopped {
        AnswerPasses(connection, r, PassAll(p, s.queue).value);
      }
    }
  }

  lemma SameStream(w: Worker, active: U64, owner: Option<Tag>)
    requires StreamOk(w, owner)
    ensures StreamOk(w.(active := active), owner)
  {
  }

  lemma SameNotices(w: Worker, more: seq<Notice>, owner: Option<Tag>)
    requires StreamOk(w, owner)
    ensures StreamOk(w.(notices := w.notices + more), owner)
  {
  }

  // Executing a command ends where the pass over it says, or with nothing down at all.
  lemma ExecuteKeeps(w: Worker, command: Command, choice: Choice, owner: Option<Tag>) returns (next: Option<Tag>)
    requires StreamOk(w, owner) && Fits(w, command, choice) && Pass(Progress(w.active, owner), command).Some?
    ensures var after := Execute(w, command, choice);
            var reached := Pass(Progress(w.active, owner), command).value;
            StreamOk(after, next) && after.active == reached.active && (next == reached.owner || next.None?)
  {
    hide StreamOk, Letting;
    next := owner;
    match command
    case BeginSession(generation) =>
      ReleaseKeeps(w, choice.releases, owner);
      next := None;
      SameStream(ReleaseHeld(w, choice.releases), generation, next);
    case ApplyBatch(generation, epoch, sequence, events) =>
      next := ConsumeAllKeeps(w, Tag(generation, epoch), events, choice.consumed, owner);
      SameNotices(ConsumeAll(w, Tag(generation, epoch), events, choice.consumed),
        [Applied(generation, epoch, sequence)], next);
    case WarpCursor(_, _) => SameNotices(w, [Failed], owner);
    case ReleaseAll(generation) =>
      if generation == w.active {
        ReleaseKeeps(w, choice.releases, owner);
        next := None;
      }
  }

  lemma {:induction false} PassMonotone(p: Progress, q: Progress, queue: seq<Command>)
    requires p == q.(owner := None) && PassAll(q, queue).Some?
    ensures PassAll(p, queue).Some? && PassAll(p, queue).value.active == PassAll(q, queue).value.active
    ensures PassAll(p, queue).value.owner.Some? ==> PassAll(p, queue).value == PassAll(q, queue).value
    decreases |queue|
  {
    if queue != [] {
      var after, other := Pass(p, queue[0]).value, Pass(q, queue[0]).value;
      if after != other {
        PassMonotone(after, other, queue[1..]);
      }
    }
  }

  lemma WorkKeeps(s: System, choice: Choice, owner: Option<Tag>) returns (next: Option<Tag>)
    requires InvWith(s, owner) && Enabled(s, Work(choice))
    ensures InvWith(Next(s, Work(choice)), next)
  {
    hide StreamOk, Execute, Letting;
    next := ExecuteKeeps(s.worker, s.queue[0], choice, owner);
    var p := Progress(s.worker.active, owner);
    var reached := Pass(p, s.queue[0]).value;
    if next != reached.owner {
      PassMonotone(reached.(owner := None), reached, s.queue[1..]);
    }
  }

  lemma NoticesKeep(s: System, notices: seq<Notice>, owner: Option<Tag>)
    requires InvWith(s, owner)
    ensures InvWith(s.(worker := s.worker.(notices := notices)), owner)
  {
  }

  lemma ReconcileKeeps(s: System, connection: Connection, geometry: DesktopGeometry, owner: Option<Tag>)
    requires InvWith(s, owner) && s.connection == Some(connection)
    ensures var (agent, actions) := Agent.ReconcileDisplay(connection.agent, geometry.layout.size);
            InvWith(After(s.(display := geometry), connection, Agent.Outcome(agent, Ok(actions)), false), owner)
  {
    hide StreamOk, After;
    var (agent, actions) := Agent.ReconcileDisplay(connection.agent, geometry.layout.size);
    AfterKeeps(s.(display := geometry), connection, Agent.Outcome(agent, Ok(actions)), false, owner);
  }

  lemma TakeNoticeKeeps(s: System, owner: Option<Tag>)
    requires InvWith(s, owner) && Enabled(s, TakeNotice)
    ensures InvWith(Next(s, TakeNotice), owner)
  {
    hide StreamOk, After;
    NoticesKeep(s, s.worker.notices[1..], owner);
    var popped := s.(worker := s.worker.(notices := s.worker.notices[1..]));
    var connection, notice := s.connection.value, s.worker.notices[0];
    if notice.Applied? && notice.generation == connection.generation {
      Agent.ConfirmKeepsInv(connection.agent, notice.sequence);
      var r := Agent.ConfirmApplied(connection.agent, notice.sequence);
      AfterKeeps(popped, connection, r, false, owner);
    } else if notice.DesktopChanged? && notice.geometry != s.display {
      ReconcileKeeps(popped, connection, notice.geometry, owner);
    }
  }

  lemma ConnectKeeps(s: System, localNode: NodeId, owner: Option<Tag>)
    requires InvWith(s, owner) && Enabled(s, Connect(localNode))
    ensures InvWith(Next(s, Connect(localNode)), owner)
  {
    hide StreamOk, Drained;
    DrainedKeepsRest(s);
    NoticesKeep(s, Drained(s).0.worker.notices, owner);
    PassJoins(Progress(s.worker.active, owner), s.queue, [BeginSession(s.nextGeneration)]);
  }

  lemma LeaveKeeps(s: System, owner: Option<Tag>)
    requires InvWith(s, owner) && s.connection.Some?
    ensures InvWith(Next(s, Leave), owner)
  {
    hide StreamOk;
    PassJoins(Progress(s.worker.active, owner), s.queue, [ReleaseAll(s.connection.value.generation)]);
  }

  lemma NextKeeps(s: System, step: Step, owner: Option<Tag>) returns (next: Option<Tag>)
    requires InvWith(s, owner) && Enabled(s, step)
    ensures InvWith(Next(s, step), next)
  {
    hide StreamOk, After, Execute, Letting, Agent.Handle, Answers, Drained;
    next := owner;
    match step
    case Connect(localNode) => ConnectKeeps(s, localNode, owner);
    case Receive(message) =>
      var connection := s.connection.value;
      HandleAnswers(connection.agent, message);
      Agent.HandleKeepsInv(connection.agent, message);
      var r := Agent.Handle(connection.agent, message);
      AfterKeeps(s, connection, r, r.result.Ok? && StartsApplication(r.result.value), owner);
    case TakeNotice => TakeNoticeKeeps(s, owner);
    case Leave => LeaveKeeps(s, owner);
    case Work(choice) => next := WorkKeeps(s, choice, owner);
    case SeeDisplay(geometry) => NoticesKeep(s, s.worker.notices + [DesktopChanged(geometry)], owner);
    case StopWorker(releases) =>
      ReleaseKeeps(s.worker, releases, owner);
      SameNotices(ReleaseHeld(s.worker, releases), [Stopped], None);
      next := None;
  }

  // ---- Whole runs ----

  ghost predicate Runs(display: DesktopGeometry, steps: seq<Step>)
    decreases |steps|, 0
  {
    steps == [] || (Runs(display, steps[..|steps| - 1]) &&
      Enabled(Reached(display, steps[..|steps| - 1]), steps[|steps| - 1]))
  }

  ghost function Reached(display: DesktopGeometry, steps: seq<Step>): System
    requires Runs(display, steps)
    decreases |steps|, 1
  {
    if steps == [] then Start(display) else Next(Reached(display, steps[..|steps| - 1]), steps[|steps| - 1])
  }

  lemma {:induction false} RunKeeps(display: DesktopGeometry, steps: seq<Step>) returns (owner: Option<Tag>)
    requires Runs(display, steps)
    ensures InvWith(Reached(display, steps), owner)
  {
    if steps == [] {
      owner := None;
    } else {
      hide InvWith, Next;
      var before := RunKeeps(display, steps[..|steps| - 1]);
      owner := NextKeeps(Reached(display, steps[..|steps| - 1]), steps[|steps| - 1], before);
    }
  }

  /**
   * Held input never leaks: in any run, over any sessions and messages, what the worker holds is what the
   * injected stream leaves down, and whenever an event of one session and epoch is injected, everything
   * pressed for another has been released in between.
   */
  lemma HeldInputNeverLeaks(display: DesktopGeometry, steps: seq<Step>)
    requires Runs(display, steps)
    ensures Tracks(Reached(display, steps).worker.held, Events(Reached(display, steps).worker.injected))
    ensures Separated(Reached(display, steps).worker.injected)
  {
    var owner := RunKeeps(display, steps);
  }

  /**
   * Once the worker has caught up, an agent without active focus holds nothing down; and a worker that has
   * stopped never does.
   */
  lemma NoFocusHoldsNothing(display: DesktopGeometry, steps: seq<Step>)
    requires Runs(display, steps)
    ensures var s := Reached(display, steps);
            (s.queue == [] && s.connection.Some? && s.connection.value.agent.activeFocusEpoch.None?) || s.stopped ==>
              s.worker.held == NOTHING_HELD
  {
    hide StreamOk, Reached;
    var owner := RunKeeps(display, steps);
    if owner.None? {
      UnownedIsEmpty(Reached(display, steps).worker);
    }
  }

  /** Control messages are held back exactly while the agent has a batch under application. */
  lemma {:induction false} GateIsPendingBatch(display: DesktopGeometry, steps: seq<Step>)
    requires Runs(display, steps) && Reached(display, steps).connection.Some?
    ensures var connection := Reached(display, steps).connection.value;
            connection.applicationPending <==> connection.agent.pendingBatch.Some?
  {
    hide StreamOk, Reached;
    var owner := RunKeeps(display, steps);
  }
}
