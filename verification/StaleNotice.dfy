/** A run in which a notice about a dropped batch confirms the next one, which the worker has not seen yet. */
module StaleNotice {
  import opened Base
  import opened Geometry
  import opened Input
  import opened Protocol
  import opened HeldState
  import opened Injection
  import opened AgentHost
  import opened AppliedInput

  lemma OneMore(display: DesktopGeometry, steps: seq<Step>, step: Step)
    requires Runs(display, steps) && Enabled(Logged(display, steps).system, step)
    ensures Runs(display, steps + [step])
    ensures Logged(display, steps + [step]) == LogNext(Logged(display, steps), step)
  {
    hide Enabled, LogNext, Next;
    assert (steps + [step])[..|steps + [step]| - 1] == steps;
  }

  const ORIGIN := Point(0, 0)

  // The backend refuses nothing, and nothing is held that would have to be released.
  const TAKES_ALL := Choice([], true, [])
  const TAKES_ONE := Choice([true], true, [])

  function Enter(epoch: U64, node: NodeId): Step {
    Receive(FocusChanged(epoch, node, ORIGIN))
  }

  // The first batch of an epoch, as the agent still expects sequence 1.
  function First(epoch: U64, event: InputEvent): InputBatch {
    InputBatch(epoch, 1, [event])
  }

  function Submit(epoch: U64, event: InputEvent): Step {
    Receive(InputMessage(First(epoch, event)))
  }

  // The agent in an epoch, with no batch confirmed yet.
  function Focused(node: NodeId, geometry: DesktopGeometry, epoch: U64, pending: Option<InputBatch>): Agent.State {
    Agent.State(node, geometry.layout.size, epoch, Some(epoch), Some(Agent.FocusState(epoch, node, ORIGIN)), 0, pending,
      false)
  }

  function Waiting(epoch: U64, event: InputEvent): seq<Command> {
    [WarpCursor(1, ORIGIN), ApplyBatch(1, epoch, 1, [event])]
  }

  function Idle(notices: seq<Notice>): Worker {
    Worker(1, NOTHING_HELD, [], notices)
  }

  lemma NothingToRelease()
    ensures Letting(NOTHING_HELD, 0, []) && Untagged([]) == []
  {
  }

  // The first session, with nothing recorded yet.
  function FirstSession(node: NodeId, display: DesktopGeometry, queue: seq<Command>, worker: Worker): Log {
    var connection := Connection(1, Agent.New(node, display.layout.size), false);
    Log(System(Some(connection), display, 2, queue, worker, false), [], [], [], 0, {})
  }

  lemma Connects(node: NodeId, display: DesktopGeometry) returns (steps: seq<Step>)
    ensures Runs(display, steps)
    ensures Logged(display, steps) == FirstSession(node, display, [], Idle([Released(0)]))
  {
    OneMore(display, [], Connect(node));
    var connected := Logged(display, [] + [Connect(node)]);
    NothingToRelease();
    hide Letting, Untagged;
    assert connected == FirstSession(node, display, [BeginSession(1)], NEW_WORKER);
    OneMore(display, [] + [Connect(node)], Work(TAKES_ALL));
    steps := [] + [Connect(node)] + [Work(TAKES_ALL)];
  }

  lemma Enters(c: Connection, node: NodeId, geometry: DesktopGeometry, epoch: U64)
    requires c.agent.highestFocusEpoch < epoch
    requires c.agent == Agent.State(node, geometry.layout.size, c.agent.highestFocusEpoch, None, c.agent.lastFocus,
                                    0, None, false)
    ensures Agent.Handle(c.agent, FocusChanged(epoch, node, ORIGIN))
            == Agent.Outcome(Focused(node, geometry, epoch, None), Ok([Agent.FocusEntered(ORIGIN)]))
    ensures CommandsOf(c.generation, [Agent.FocusEntered(ORIGIN)]) == [WarpCursor(c.generation, ORIGIN)]
  {
    var entered := [Agent.FocusEntered(ORIGIN)];
    assert entered[1..] == [] && [] + entered == entered;
  }

  lemma Applies(node: NodeId, geometry: DesktopGeometry, epoch: U64, event: InputEvent)
    ensures Agent.Handle(Focused(node, geometry, epoch, None), InputMessage(First(epoch, event)))
            == Agent.Outcome(Focused(node, geometry, epoch, Some(First(epoch, event))),
              Ok([Agent.ApplyInput(First(epoch, event))]))
    ensures CommandsOf(1, [Agent.ApplyInput(First(epoch, event))]) == [ApplyBatch(1, epoch, 1, [event])]
    ensures StartsApplication([Agent.ApplyInput(First(epoch, event))])
  {
    assert [Agent.ApplyInput(First(epoch, event))][1..] == [];
    assert [Agent.ApplyInput(First(epoch, event))][0].ApplyInput?;
  }

  // A new session, or one whose epoch a display change ended, that can enter the next epoch.
  predicate Waits(l: Log, node: NodeId, epoch: U64) {
    && epoch > 0 && l.system.connection.Some?
    && var c := l.system.connection.value;
      && c.generation == 1 && !c.applicationPending
      && c.agent.highestFocusEpoch < epoch
      && c.agent == Agent.State(node, l.system.display.layout.size, c.agent.highestFocusEpoch, None,
                                c.agent.lastFocus, 0, None, false)
  }

  function Entered(l: Log, node: NodeId, epoch: U64): Log {
    var agent := Focused(node, l.system.display, epoch, None);
    l.(system := l.system.(connection := Some(Connection(1, agent, false)),
                           queue := l.system.queue + [WarpCursor(1, ORIGIN)]))
  }

  function Submitted(l: Log, node: NodeId, epoch: U64, event: InputEvent): Log {
    var agent := Focused(node, l.system.display, epoch, Some(First(epoch, event)));
    l.(system := l.system.(connection := Some(Connection(1, agent, true)),
                           queue := l.system.queue + Waiting(epoch, event)),
       submitted := l.submitted + [Submission(1, First(epoch, event))])
  }

  lemma EnterNext(l: Log, node: NodeId, epoch: U64)
    requires Waits(l, node, epoch)
    ensures Enabled(l.system, Enter(epoch, node)) && LogNext(l, Enter(epoch, node)) == Entered(l, node, epoch)
  {
    Enters(l.system.connection.value, node, l.system.display, epoch);
    hide Agent.Handle;
  }

  lemma SubmitNext(l: Log, node: NodeId, epoch: U64, event: InputEvent)
    requires epoch > 0
    ensures Enabled(Entered(l, node, epoch).system, Submit(epoch, event))
    ensures LogNext(Entered(l, node, epoch), Submit(epoch, event)) == Submitted(l, node, epoch, event)
  {
    Applies(node, l.system.display, epoch, event);
    hide Agent.Handle;
    Regroup(l.system.queue, [WarpCursor(1, ORIGIN)], [ApplyBatch(1, epoch, 1, [event])]);
    assert [WarpCursor(1, ORIGIN)] + [ApplyBatch(1, epoch, 1, [event])] == Waiting(epoch, event);
  }

  // Entering an epoch and putting its first batch under application.
  lemma Submits(display: DesktopGeometry, before: seq<Step>, node: NodeId, epoch: U64, event: InputEvent)
    returns (steps: seq<Step>)
    requires Runs(display, before) && Waits(Logged(display, before), node, epoch)
    ensures Runs(display, steps) && Logged(display, steps) == Submitted(Logged(display, before), node, epoch, event)
  {
    hide Runs, Logged, LogNext, Enabled, Entered, Submitted;
    var l := Logged(display, before);
    EnterNext(l, node, epoch);
    OneMore(display, before, Enter(epoch, node));
    SubmitNext(l, node, epoch, event);
    OneMore(display, before + [Enter(epoch, node)], Submit(epoch, event));
    steps := before + [Enter(epoch, node)] + [Submit(epoch, event)];
  }

  function Noticed(l: Log, notices: seq<Notice>): Log {
    l.(system := l.system.(worker := Idle(notices)))
  }

  function Dropped(l: Log, other: DesktopGeometry): Log
    requires l.system.connection.Some?
  {
    var agent := Agent.ReconcileDisplay(l.system.connection.value.agent, other.layout.size).0;
    l.(system := l.system.(connection := Some(Connection(1, agent, false)), display := other, worker := Idle([]),
                           queue := l.system.queue + [ReleaseAll(1)]),
       dropped := l.dropped + {1})
  }

  lemma SeeNext(l: Log, other: DesktopGeometry)
    requires l.system.worker == Idle([Released(0)]) && !l.system.stopped
    ensures Enabled(l.system, SeeDisplay(other))
    ensures LogNext(l, SeeDisplay(other)) == Noticed(l, [Released(0), DesktopChanged(other)])
  {
  }

  lemma SkipNext(l: Log, other: DesktopGeometry)
    requires l.system.connection.Some?
    ensures var seen := Noticed(l, [Released(0), DesktopChanged(other)]);
            && Enabled(seen.system, TakeNotice)
            && LogNext(seen, TakeNotice) == Noticed(l, [DesktopChanged(other)])
  {
    assert [Released(0), DesktopChanged(other)][1..] == [DesktopChanged(other)];
  }

  lemma DropNext(l: Log, other: DesktopGeometry)
    requires l.system.connection.Some? && l.system.connection.value.generation == 1 && l.system.display != other
    requires l.system.connection.value.agent.pendingBatch.Some?
    ensures var skipped := Noticed(l, [DesktopChanged(other)]);
            && Enabled(skipped.system, TakeNotice)
            && LogNext(skipped, TakeNotice) == Dropped(l, other)
  {
    assert [DesktopChanged(other)][1..] == [] && [Agent.ReleaseAllInput][1..] == [];
  }

  // A display change that drops the batch under application.
  lemma Drops(display: DesktopGeometry, other: DesktopGeometry, before: seq<Step>) returns (steps: seq<Step>)
    requires Runs(display, before)
    requires var s := Logged(display, before).system;
             && s.worker == Idle([Released(0)]) && !s.stopped && s.display != other
             && s.connection.Some? && s.connection.value.generation == 1
             && s.connection.value.agent.pendingBatch.Some?
    ensures Runs(display, steps) && Logged(display, steps) == Dropped(Logged(display, before), other)
  {
    hide Runs, Logged, LogNext, Enabled, Noticed, Dropped;
    var l := Logged(display, before);
    SeeNext(l, other);
    OneMore(display, before, SeeDisplay(other));
    var a := before + [SeeDisplay(other)];
    SkipNext(l, other);
    OneMore(display, a, TakeNotice);
    DropNext(l, other);
    OneMore(display, a + [TakeNotice], TakeNotice);
    steps := a + [TakeNotice] + [TakeNotice];
  }

  // The worker after it took one event in epoch 1.
  function Taking(event: InputEvent): Worker {
    Worker(1, NOTHING_HELD.Observe(event.kind), [Injected(event, Some(Tag(1, 1)))], [Applied(1, 1, 1)])
  }

  lemma OneTaken(w: Worker, event: InputEvent)
    requires w == Idle([])
    ensures Execute(w, ApplyBatch(1, 1, 1, [event]), TAKES_ONE) == Taking(event)
  {
    assert [event][..0] == [] && [true][..0] == [];
    assert ConsumeAll(w, Tag(1, 1), [], []) == w;
  }

  function Queued(l: Log, queue: seq<Command>): Log {
    l.(system := l.system.(queue := queue))
  }

  function Caught(l: Log, event: InputEvent, rest: seq<Command>): Log {
    l.(system := l.system.(queue := rest, worker := Taking(event)),
       executed := l.executed + [Execution(Submission(1, First(1, event)), [true])])
  }

  lemma WarpNext(l: Log, event: InputEvent, rest: seq<Command>)
    requires !l.system.stopped && l.system.queue == Waiting(1, event) + rest && l.system.worker == Idle([])
    ensures Enabled(l.system, Work(TAKES_ALL))
    ensures LogNext(l, Work(TAKES_ALL)) == Queued(l, [ApplyBatch(1, 1, 1, [event])] + rest)
  {
    assert l.system.queue[0] == WarpCursor(1, ORIGIN);
    assert l.system.queue[1..] == [ApplyBatch(1, 1, 1, [event])] + rest;
  }

  lemma CatchNext(l: Log, event: InputEvent, rest: seq<Command>)
    requires !l.system.stopped && l.system.worker == Idle([])
    ensures var warped := Queued(l, [ApplyBatch(1, 1, 1, [event])] + rest);
            && Enabled(warped.system, Work(TAKES_ONE))
            && LogNext(warped, Work(TAKES_ONE)) == Caught(l, event, rest)
  {
    var queue := [ApplyBatch(1, 1, 1, [event])] + rest;
    assert queue[0] == ApplyBatch(1, 1, 1, [event]) && queue[1..] == rest;
    OneTaken(Idle([]), event);
    hide Execute, Taking;
  }

  // The worker catches up with the dropped batch.
  lemma Injects(display: DesktopGeometry, before: seq<Step>, event: InputEvent, rest: seq<Command>)
    returns (steps: seq<Step>)
    requires Runs(display, before)
    requires var s := Logged(display, before).system;
             !s.stopped && s.queue == Waiting(1, event) + rest && s.worker == Idle([])
    ensures Runs(display, steps) && Logged(display, steps) == Caught(Logged(display, before), event, rest)
  {
    hide Runs, Logged, LogNext, Enabled, Queued, Caught, Waiting;
    var l := Logged(display, before);
    WarpNext(l, event, rest);
    OneMore(display, before, Work(TAKES_ALL));
    CatchNext(l, event, rest);
    OneMore(display, before + [Work(TAKES_ALL)], Work(TAKES_ONE));
    steps := before + [Work(TAKES_ALL)] + [Work(TAKES_ONE)];
  }

  // The stale notice is taken for the batch under application.
  lemma Misleads(l: Log, node: NodeId, geometry: DesktopGeometry, second: InputEvent, taken: seq<Injected>, held: Held,
          queue: seq<Command>)
    requires l.system.connection == Some(Connection(1, Focused(node, geometry, 2, Some(First(2, second))), true))
    requires l.system.worker == Worker(1, held, taken, [Applied(1, 1, 1)]) && l.system.queue == queue
    requires l.confirmed == []
    ensures Enabled(l.system, TakeNotice)
    ensures var k := LogNext(l, TakeNotice);
            && k.confirmed == [Confirmation(Submission(1, First(2, second)), Applied(1, 1, 1))]
            && !k.confirmed[0].Genuine()
            && k.system.worker.injected == taken && k.system.queue == queue
            && k.system.connection.Some? && k.system.connection.value.agent.lastAppliedSequence == 1
            && !k.system.connection.value.applicationPending
  {
    assert Confirms(l.system, TakeNotice);
    var acknowledged := [Agent.Send(InputAcknowledged(1))];
    assert acknowledged[1..] == [] && CommandsOf(1, acknowledged) == [];
  }

  /**
   * A notice may confirm a batch it is not about: the display changes while the first batch of epoch 1 is
   * queued, epoch 2 begins with a batch of its own, which has the same sequence, and then the worker catches
   * up with the first. Its notice makes the agent confirm the second, of which nothing was injected yet.
   */
  lemma StaleNoticeConfirms(node: NodeId, display: DesktopGeometry, other: DesktopGeometry, first: InputEvent,
          second: InputEvent)
    returns (steps: seq<Step>)
    requires display != other
    ensures Runs(display, steps)
    ensures var l := Logged(display, steps);
            && l.confirmed == [Confirmation(Submission(1, First(2, second)), Applied(1, 1, 1))]
            && !l.confirmed[0].Genuine()
            && l.system.worker.injected == [Injected(first, Some(Tag(1, 1)))]
            && ApplyBatch(1, 2, 1, [second]) in l.system.queue
            && l.system.connection.Some? && l.system.connection.value.agent.lastAppliedSequence == 1
            && !l.system.connection.value.applicationPending
  {
    hide Logged, Runs, LogNext, Next, Enabled, Agent.Handle;
    var connect := Connects(node, display);
    var one := Submits(display, connect, node, 1, first);
    var dropped := Drops(display, other, one);
    var two := Submits(display, dropped, node, 2, second);
    var rest := [ReleaseAll(1)] + Waiting(2, second);
    assert Logged(display, two).system.queue == Waiting(1, first) + rest;
    var injected := Injects(display, two, first, rest);
    var k := Logged(display, injected);
    Misleads(k, node, other, second, k.system.worker.injected, k.system.worker.held, rest);
    OneMore(display, injected, TakeNotice);
    steps := injected + [TakeNotice];
    assert rest[2] == ApplyBatch(1, 2, 1, [second]);
  }
}
