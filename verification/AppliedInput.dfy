/**
 * Exactly-once application, down to the native backend: what the agent confirms against what its worker
 * injected, over any connections and messages.
 */
module AppliedInput {
  import opened Base
  import opened Input
  import opened Protocol
  import opened HeldState
  import opened Injection
  import opened AgentHost

  // ---- Records ----

  // A batch handed to the worker, for a session generation.
  datatype Submission = Submission(generation: U64, batch: InputBatch)

  // A batch the worker has worked through, with what the backend took of it.
  datatype Execution = Execution(submission: Submission, consumed: seq<bool>) {
    predicate Complete() {
      |consumed| == |submission.batch.events| && false !in consumed
    }
  }

  // A batch the agent has confirmed, and the notice on which it did.
  datatype Confirmation = Confirmation(submission: Submission, notice: Notice) {
    // The notice is about this very batch.
    predicate Genuine() {
      && notice.Applied? && notice.generation == submission.generation
      && notice.epoch == submission.batch.focusEpoch && notice.sequence == submission.batch.sequence
    }
  }

  // `answered` counts the notices of applied batches the current connection has taken; `dropped` holds the
  // generations in which a display change took a batch out of application.
  datatype Log = Log(
    system: System,
    submitted: seq<Submission>,
    executed: seq<Execution>,
    confirmed: seq<Confirmation>,
    answered: nat,
    dropped: set<U64>)

  function SubmissionOf(command: Command): seq<Submission> {
    match command
    case ApplyBatch(generation, epoch, sequence, events) =>
      [Submission(generation, InputBatch(epoch, sequence, events))]
    case _ => []
  }

  function SubmissionsOf(commands: seq<Command>): seq<Submission> {
    if commands == [] then [] else SubmissionOf(commands[0]) + SubmissionsOf(commands[1..])
  }

  // The batch a message puts under application, if any.
  function Submits(s: System, step: Step): seq<Submission> {
    if step.Receive? && s.connection.Some? then
      var c := s.connection.value;
      var r := Agent.Handle(c.agent, step.message);
      if r.result.Ok? && c.agent.pendingBatch.None? && r.state.pendingBatch.Some?
      then [Submission(c.generation, r.state.pendingBatch.value)] else []
    else []
  }

  function Executes(s: System, step: Step): seq<Execution> {
    if step.Work? && s.queue != [] && s.queue[0].ApplyBatch? && s.queue[0].generation == s.worker.active
    then [Execution(SubmissionOf(s.queue[0])[0], step.choice.consumed)] else []
  }

  // The next notice says that a batch of this connection was applied.
  predicate HearsApplied(s: System, step: Step) {
    && step.TakeNotice? && s.connection.Some? && s.worker.notices != []
    && s.worker.notices[0].Applied? && s.worker.notices[0].generation == s.connection.value.generation
  }

  // ... and the agent takes it for the batch under application.
  predicate Confirms(s: System, step: Step) {
    HearsApplied(s, step) && Agent.ConfirmApplied(s.connection.value.agent, s.worker.notices[0].sequence).result.Ok?
  }

  // A changed display takes the batch under application away.
  predicate DropsBatch(s: System, step: Step) {
    && step.TakeNotice? && s.connection.Some? && s.worker.notices != []
    && s.worker.notices[0].DesktopChanged? && s.worker.notices[0].geometry != s.display
    && s.connection.value.agent.pendingBatch.Some?
  }

  function ConfirmedBy(s: System, step: Step): seq<Confirmation> {
    if Confirms(s, step)
    then [Confirmation(Submission(s.connection.value.generation, s.connection.value.agent.pendingBatch.value),
      s.worker.notices[0])]
    else []
  }

  function LogNext(l: Log, step: Step): Log
    requires Enabled(l.system, step)
  {
    var s := l.system;
    Log(Next(s, step),
        l.submitted + Submits(s, step),
        l.executed + Executes(s, step),
        l.confirmed + ConfirmedBy(s, step),
        if step.Connect? then 0 else if HearsApplied(s, step) then l.answered + 1 else l.answered,
        if DropsBatch(s, step) then l.dropped + {s.connection.value.generation} else l.dropped)
  }

  ghost function Logged(display: DesktopGeometry, steps: seq<Step>): Log
    requires Runs(display, steps)
    ensures Logged(display, steps).system == Reached(display, steps)
  {
    if steps == [] then Log(Start(display), [], [], [], 0, {})
    else LogNext(Logged(display, steps[..|steps| - 1]), steps[|steps| - 1])
  }

  // ---- One generation ----

  function BatchesFor(submitted: seq<Submission>, g: U64): seq<InputBatch> {
    if submitted == [] then []
    else
      var last := submitted[|submitted| - 1];
      BatchesFor(submitted[..|submitted| - 1], g) + if last.generation == g then [last.batch] else []
  }

  function ExecutedFor(executed: seq<Execution>, g: U64): seq<Execution> {
    if executed == [] then []
    else
      var last := executed[|executed| - 1];
      ExecutedFor(executed[..|executed| - 1], g) + if last.submission.generation == g then [last] else []
  }

  function ConfirmedFor(confirmed: seq<Confirmation>, g: U64): seq<InputBatch> {
    if confirmed == [] then []
    else
      var last := confirmed[|confirmed| - 1].submission;
      ConfirmedFor(confirmed[..|confirmed| - 1], g) + if last.generation == g then [last.batch] else []
  }

  function InjectedFor(injected: seq<Injected>, g: U64): seq<Injected> {
    if injected == [] then []
    else
      var last := injected[|injected| - 1];
      InjectedFor(injected[..|injected| - 1], g) +
        if last.source.Some? && last.source.value.generation == g then [last] else []
  }

  // What the backend took of a batch, tagged; and all of it.
  function Taken(tag: Tag, events: seq<InputEvent>, consumed: seq<bool>): seq<Injected>
    requires |consumed| == |events|
  {
    if events == [] then []
    else
      var last := |events| - 1;
      Taken(tag, events[..last], consumed[..last]) + if consumed[last] then [Injected(events[last], Some(tag))] else []
  }

  function Whole(g: U64, batch: InputBatch): seq<Injected> {
    seq(|batch.events|, i requires 0 <= i < |batch.events| => Injected(batch.events[i], Some(Tag(g, batch.focusEpoch))))
  }

  function WholeAll(g: U64, batches: seq<InputBatch>): seq<Injected> {
    if batches == [] then [] else WholeAll(g, batches[..|batches| - 1]) + Whole(g, batches[|batches| - 1])
  }

  predicate WellExecuted(e: Execution) {
    |e.consumed| == |e.submission.batch.events|
  }

  function TakenOf(e: Execution): seq<Injected> {
    if WellExecuted(e)
    then Taken(Tag(e.submission.generation, e.submission.batch.focusEpoch), e.submission.batch.events, e.consumed)
      else []
  }

  function TakenAll(executed: seq<Execution>): seq<Injected> {
    if executed == [] then [] else TakenAll(executed[..|executed| - 1]) + TakenOf(executed[|executed| - 1])
  }

  function Submissions(executed: seq<Execution>): (s: seq<Submission>)
    ensures |s| == |executed|
  {
    seq(|executed|, i requires 0 <= i < |executed| => executed[i].submission)
  }

  function Batches(executed: seq<Execution>): (s: seq<InputBatch>)
    ensures |s| == |executed|
  {
    seq(|executed|, i requires 0 <= i < |executed| => executed[i].submission.batch)
  }

  // ---- Appending ----

  lemma {:induction false} BatchesForJoin(a: seq<Submission>, b: seq<Submission>, g: U64)
    ensures BatchesFor(a + b, g) == BatchesFor(a, g) + BatchesFor(b, g)
  {
    if b == [] {
      assert a + b == a;
    } else {
      BatchesForJoin(a, b[..|b| - 1], g);
      assert (a + b)[..|a + b| - 1] == a + b[..|b| - 1];
    }
  }

  lemma ExecutedForGrows(executed: seq<Execution>, e: Execution, g: U64)
    ensures ExecutedFor(executed + [e], g) == ExecutedFor(executed, g) +
            if e.submission.generation == g then [e] else []
    ensures Submissions(executed + [e]) == Submissions(executed) + [e.submission]
    ensures TakenAll(executed + [e]) == TakenAll(executed) + TakenOf(e)
  {
    assert (executed + [e])[..|executed + [e]| - 1] == executed;
  }

  lemma ConfirmedForGrows(confirmed: seq<Confirmation>, c: Confirmation, g: U64)
    ensures ConfirmedFor(confirmed + [c], g) == ConfirmedFor(confirmed, g) +
            if c.submission.generation == g then [c.submission.batch] else []
  {
    assert (confirmed + [c])[..|confirmed + [c]| - 1] == confirmed;
  }

  lemma {:induction false} InjectedForJoins(a: seq<Injected>, b: seq<Injected>, g: U64)
    ensures InjectedFor(a + b, g) == InjectedFor(a, g) + InjectedFor(b, g)
  {
    if b == [] {
      assert a + b == a;
    } else {
      InjectedForJoins(a, b[..|b| - 1], g);
      assert (a + b)[..|a + b| - 1] == a + b[..|b| - 1] && (a + b)[|a + b| - 1] == b[|b| - 1];
    }
  }

  lemma {:induction false} SubmissionsOfJoin(a: seq<Command>, b: seq<Command>)
    ensures SubmissionsOf(a + b) == SubmissionsOf(a) + SubmissionsOf(b)
  {
    hide SubmissionOf;
    if a == [] {
      assert a + b == b;
    } else {
      SubmissionsOfJoin(a[1..], b);
      assert (a + b)[0] == a[0] && (a + b)[1..] == a[1..] + b;
      Regroup(SubmissionOf(a[0]), SubmissionsOf(a[1..]), SubmissionsOf(b));
    }
  }

  lemma {:induction false} UntaggedForNone(injected: seq<Injected>, g: U64)
    requires forall i :: 0 <= i < |injected| ==> injected[i].source.None?
    ensures InjectedFor(injected, g) == []
  {
    if injected != [] {
      UntaggedForNone(injected[..|injected| - 1], g);
    }
  }

  lemma {:induction false} ExecutedBatches(executed: seq<Execution>, g: U64)
    ensures BatchesFor(Submissions(executed), g) == Batches(ExecutedFor(executed, g))
  {
    if executed != [] {
      var front, last := executed[..|executed| - 1], executed[|executed| - 1];
      ExecutedBatches(front, g);
      assert executed == front + [last];
      ExecutedForGrows(front, last, g);
      BatchesForJoin(Submissions(front), [last.submission], g);
      assert [last.submission][..0] == [];
      assert BatchesFor([last.submission], g) ==
        if last.submission.generation == g then [last.submission.batch] else [];
    }
  }

  // ---- What the worker adds ----

  lemma {:induction false} ConsumeAllAdds(w: Worker, tag: Tag, events: seq<InputEvent>, consumed: seq<bool>)
    returns (failures: seq<Notice>)
    requires |consumed| == |events|
    ensures var t := ConsumeAll(w, tag, events, consumed);
            && t.injected == w.injected + Taken(tag, events, consumed)
            && t.notices == w.notices + failures && t.active == w.active
    ensures failures == [] <==> false !in consumed
    ensures forall n :: n in failures ==> n == Failed
  {
    failures := [];
    if events == [] {
      assert w.injected + [] == w.injected && w.notices + [] == w.notices;
    } else {
      var last := |events| - 1;
      var before := ConsumeAllAdds(w, tag, events[..last], consumed[..last]);
      failures := before + if consumed[last] then [] else [Failed];
      assert consumed == consumed[..last] + [consumed[last]];
      var t := ConsumeAll(w, tag, events[..last], consumed[..last]);
      assert t.injected + [Injected(events[last], Some(tag))] == w.injected +
        (Taken(tag, events[..last], consumed[..last]) + [Injected(events[last], Some(tag))]);
      assert t.notices + [Failed] == w.notices + (before + [Failed]);
      assert before + [] == before;
    }
  }

  lemma {:induction false} TakenFor(tag: Tag, events: seq<InputEvent>, consumed: seq<bool>, g: U64)
    requires |consumed| == |events|
    ensures InjectedFor(Taken(tag, events, consumed), g) ==
            if tag.generation == g then Taken(tag, events, consumed) else []
  {
    if events != [] {
      var last := |events| - 1;
      TakenFor(tag, events[..last], consumed[..last], g);
      var front, one := Taken(tag, events[..last], consumed[..last]), [Injected(events[last], Some(tag))];
      InjectedForJoins(front, one, g);
      assert one[..0] == [];
      assert InjectedFor(one, g) == if tag.generation == g then one else [];
      assert front + [] == front;
    }
  }

  lemma {:induction false} CompleteTakesWhole(tag: Tag, events: seq<InputEvent>, consumed: seq<bool>)
    requires |consumed| == |events| && false !in consumed
    ensures Taken(tag, events, consumed) == seq(|events|, i requires 0 <= i < |events| =>
            Injected(events[i], Some(tag)))
  {
    if events != [] {
      var last := |events| - 1;
      assert consumed[last] in consumed;
      CompleteTakesWhole(tag, events[..last], consumed[..last]);
    }
  }

  // ---- The invariant ----

  // The notices about generation g, up to the first failure, answer the executed batches from `next` on.
  predicate LineOk(notices: seq<Notice>, g: U64, batches: seq<InputBatch>, executed: seq<Execution>, next: nat)
    decreases |notices|
  {
    if notices == [] then next == |executed|
    else match notices[0]
      case Failed => true
      case Stopped => true
      case Applied(generation, epoch, sequence) =>
        if generation != g then LineOk(notices[1..], g, batches, executed, next)
        else
          && next < |executed| && next < |batches| && executed[next].Complete()
          && batches[next].focusEpoch == epoch && batches[next].sequence == sequence
          && LineOk(notices[1..], g, batches, executed, next + 1)
      case _ => LineOk(notices[1..], g, batches, executed, next)
  }

  lemma {:induction false} LineExtends(notices: seq<Notice>, more: seq<Notice>, g: U64, batches: seq<InputBatch>,
          batches': seq<InputBatch>, executed: seq<Execution>, executed': seq<Execution>, next: nat)
    requires LineOk(notices, g, batches, executed, next) && batches <= batches' && executed <= executed'
    requires LineOk(more, g, batches', executed', |executed|)
    ensures LineOk(notices + more, g, batches', executed', next)
    decreases |notices|
  {
    if notices == [] {
      assert notices + more == more;
    } else {
      assert (notices + more)[0] == notices[0] && (notices + more)[1..] == notices[1..] + more;
      if !notices[0].Failed? && !notices[0].Stopped? {
        LineExtends(notices[1..], more, g, batches, batches', executed, executed',
                    if notices[0].Applied? && notices[0].generation == g then next + 1 else next);
      }
    }
  }

  // Everything confirmed was submitted, in order, with at most one batch more, and was injected completely.
  predicate GenerationOk(l: Log, g: U64) {
    var confirmed, batches, executed :=
      ConfirmedFor(l.confirmed, g), BatchesFor(l.submitted, g), ExecutedFor(l.executed, g);
    && confirmed <= batches && |batches| <= |confirmed| + 1
    && |confirmed| <= |executed| && (forall i :: 0 <= i < |confirmed| ==> executed[i].Complete())
  }

  function PendingOf(agent: Agent.State): seq<InputBatch> {
    match agent.pendingBatch case None => [] case Some(batch) => [batch]
  }

  // A batch submitted before now, as far as the agent's epoch and sequence tell.
  predicate Older(agent: Agent.State, batch: InputBatch) {
    && batch.focusEpoch <= agent.highestFocusEpoch
    && (agent.activeFocusEpoch.Some? && batch.focusEpoch == agent.highestFocusEpoch ==>
         batch.sequence <= agent.lastAppliedSequence)
  }

  predicate CurrentOk(l: Log, c: Connection) {
    var g, agent := c.generation, c.agent;
    var confirmed, batches := ConfirmedFor(l.confirmed, g), BatchesFor(l.submitted, g);
    var pending := PendingOf(agent);
    && LineOk(l.system.worker.notices, g, batches, ExecutedFor(l.executed, g), l.answered)
    && |pending| <= |batches| && batches[|batches| - |pending|..] == pending
    && |confirmed| <= l.answered
    && (if g in l.dropped then |batches| - l.answered > |pending|
         else l.answered == |confirmed| && batches == confirmed + pending)
    && (forall t :: l.answered <= t < |batches| - |pending| ==> Older(agent, batches[t]))
  }

  // What the records say of each other and of the native stream.
  ghost predicate RecordsOk(l: Log) {
    var s := l.system;
    && l.submitted == Submissions(l.executed) + SubmissionsOf(s.queue)
    && (forall g :: InjectedFor(s.worker.injected, g) == TakenAll(ExecutedFor(l.executed, g)))
    && (forall e :: e in l.executed ==> WellExecuted(e))
    && (forall x :: x in l.submitted ==> x.generation < s.nextGeneration)
    && (forall g :: g in l.dropped ==> g < s.nextGeneration)
    && (forall g :: g !in l.dropped ==> GenerationOk(l, g))
  }

  ghost predicate LogInv(l: Log) {
    RecordsOk(l) && (l.system.connection.Some? ==> CurrentOk(l, l.system.connection.value))
  }

  // ---- What the host's answers submit ----

  lemma {:induction false} NoApplication(g: U64, actions: seq<Agent.Action>)
    requires forall a :: a in actions ==> !a.ApplyInput?
    ensures SubmissionsOf(CommandsOf(g, actions)) == []
  {
    if actions != [] {
      NoApplication(g, actions[1..]);
      var command := CommandOf(g, actions[0]);
      SubmissionsOfJoin(command, CommandsOf(g, actions[1..]));
      if command != [] {
        assert command[1..] == [];
      }
    }
  }

  // Epochs and sequences never go back, and an epoch becomes active only as a new highest one.
  predicate MovesOn(agent: Agent.State, next: Agent.State) {
    && next.lastAppliedSequence >= agent.lastAppliedSequence
    && next.highestFocusEpoch >= agent.highestFocusEpoch
    && (next.highestFocusEpoch == agent.highestFocusEpoch && next.activeFocusEpoch.Some? ==>
          next.activeFocusEpoch == agent.activeFocusEpoch)
  }

  // A message is answered by putting one batch under application, or by none.
  lemma HandleSubmits(agent: Agent.State, message: Session, g: U64)
    requires Agent.Inv(agent) && agent.pendingBatch.None? && Agent.Handle(agent, message).result.Ok?
    ensures var r := Agent.Handle(agent, message);
            && SubmissionsOf(CommandsOf(g, r.result.value))
               == (if r.state.pendingBatch.Some? then [Submission(g, r.state.pendingBatch.value)] else [])
            && MovesOn(agent, r.state)
  {
    var r := Agent.Handle(agent, message);
    var actions := r.result.value;
    if r.state.pendingBatch.Some? {
      var batch := r.state.pendingBatch.value;
      assert actions == [Agent.ApplyInput(batch)];
      assert actions[1..] == [] && CommandOf(g, actions[0])[1..] == [];
      assert CommandsOf(g, actions) == CommandOf(g, actions[0]) + [];
      assert CommandsOf(g, actions) == CommandOf(g, actions[0]);
    } else {
      NoApplication(g, actions);
    }
  }

  lemma OlderStays(agent: Agent.State, next: Agent.State, batch: InputBatch)
    requires Older(agent, batch) && MovesOn(agent, next)
    ensures Older(next, batch)
  {
  }

  // ---- Each step ----

  // The queue loses nothing of what was submitted.
  lemma SubmittedSplit(l: Log, g: U64)
    requires RecordsOk(l)
    ensures BatchesFor(l.submitted, g)
            == Batches(ExecutedFor(l.executed, g)) + BatchesFor(SubmissionsOf(l.system.queue), g)
  {
    ExecutedBatches(l.executed, g);
    BatchesForJoin(Submissions(l.executed), SubmissionsOf(l.system.queue), g);
  }

  lemma {:induction false} NoneOfGeneration(submitted: seq<Submission>, g: U64)
    requires forall x :: x in submitted ==> x.generation != g
    ensures BatchesFor(submitted, g) == []
  {
    if submitted != [] {
      NoneOfGeneration(submitted[..|submitted| - 1], g);
    }
  }

  // The next queued batch is the first submitted one of its generation that is not executed yet.
  lemma NextQueued(l: Log)
    requires RecordsOk(l) && l.system.queue != [] && l.system.queue[0].ApplyBatch?
    ensures var x := SubmissionOf(l.system.queue[0])[0];
            var batches, executed := BatchesFor(l.submitted, x.generation), ExecutedFor(l.executed, x.generation);
            |executed| < |batches| && batches[|executed|] == x.batch
  {
    hide GenerationOk;
    var queue := l.system.queue;
    var x := SubmissionOf(queue[0])[0];
    SubmittedSplit(l, x.generation);
    BatchesForJoin([x], SubmissionsOf(queue[1..]), x.generation);
    assert [x][..0] == [] && BatchesFor([x], x.generation) == [x.batch];
  }

  lemma ReleasedFor(w: Worker, releases: seq<InputEvent>, g: U64)
    ensures InjectedFor(ReleaseHeld(w, releases).injected, g) == InjectedFor(w.injected, g)
  {
    InjectedForJoins(w.injected, Untagged(releases), g);
    UntaggedForNone(Untagged(releases), g);
  }

  lemma NeverStale(s: System, owner: Option<Tag>)
    requires InvWith(s, owner) && !s.stopped && s.queue != [] && s.queue[0].ApplyBatch?
    ensures s.queue[0].generation == s.worker.active
  {
    hide StreamOk, ConnectionOk;
  }

  // What one execution adds for a generation.
  lemma ExecutionFor(l: Log, e: Execution, w: Worker, g: U64)
    requires RecordsOk(l) && WellExecuted(e)
    requires w.injected == l.system.worker.injected + TakenOf(e)
    ensures InjectedFor(w.injected, g) == TakenAll(ExecutedFor(l.executed + [e], g))
    ensures ExecutedFor(l.executed, g) <= ExecutedFor(l.executed + [e], g)
  {
    hide GenerationOk, Taken;
    ExecutedForGrows(l.executed, e, g);
    InjectedForJoins(l.system.worker.injected, TakenOf(e), g);
    TakenFor(Tag(e.submission.generation, e.submission.batch.focusEpoch), e.submission.batch.events, e.consumed, g);
    var before := ExecutedFor(l.executed, g);
    if e.submission.generation == g {
      ExecutedForGrows(before, e, g);
    } else {
      assert before + [] == before && TakenAll(before) + [] == TakenAll(before);
    }
  }

  lemma GenerationGrows(l: Log, k: Log, g: U64)
    requires GenerationOk(l, g) && k.confirmed == l.confirmed && k.submitted == l.submitted
    requires ExecutedFor(l.executed, g) <= ExecutedFor(k.executed, g)
    ensures GenerationOk(k, g)
  {
    var before, after := ExecutedFor(l.executed, g), ExecutedFor(k.executed, g);
    forall i | 0 <= i < |ConfirmedFor(k.confirmed, g)| ensures after[i].Complete() {
      assert after[i] == before[i];
    }
  }

  // Only failures: the line of answers ends there.
  lemma FailuresEnd(failures: seq<Notice>, g: U64, batches: seq<InputBatch>, executed: seq<Execution>, next: nat)
    requires failures != [] && failures[0] == Failed
    ensures LineOk(failures, g, batches, executed, next)
  {
  }

  lemma OneAnswer(notice: Notice, g: U64, batches: seq<InputBatch>, executed: seq<Execution>, next: nat)
    requires notice.Applied?
    requires if notice.generation == g
             then next + 1 == |executed| && next < |batches| && executed[next].Complete()
                  && batches[next].focusEpoch == notice.epoch && batches[next].sequence == notice.sequence
             else next == |executed|
    ensures LineOk([notice], g, batches, executed, next)
  {
    assert [notice][1..] == [];
  }

  // What the worker posts after a batch continues the line of answers.
  lemma PostsAnswer(l: Log, e: Execution, posted: seq<Notice>, g: U64)
    requires RecordsOk(l) && WellExecuted(e) && l.system.queue != []
    requires SubmissionOf(l.system.queue[0]) == [e.submission]
    requires if e.Complete()
             then posted == [Applied(e.submission.generation, e.submission.batch.focusEpoch,
               e.submission.batch.sequence)]
             else posted != [] && posted[0] == Failed
    ensures LineOk(posted, g, BatchesFor(l.submitted, g), ExecutedFor(l.executed + [e], g),
            |ExecutedFor(l.executed, g)|)
  {
    hide RecordsOk, Taken;
    ExecutedForGrows(l.executed, e, g);
    var before, after := ExecutedFor(l.executed, g), ExecutedFor(l.executed + [e], g);
    if e.Complete() {
      NextQueued(l);
      if e.submission.generation == g {
        assert after[|before|] == e;
      } else {
        assert before + [] == before;
      }
      OneAnswer(posted[0], g, BatchesFor(l.submitted, g), after, |before|);
    } else {
      FailuresEnd(posted, g, BatchesFor(l.submitted, g), after, |before|);
    }
  }

  // What working through a batch does to the worker, as one execution.
  lemma BatchEffects(s: System, choice: Choice) returns (e: Execution, posted: seq<Notice>)
    requires Enabled(s, Work(choice)) && s.queue[0].ApplyBatch? && s.queue[0].generation == s.worker.active
    ensures SubmissionOf(s.queue[0]) == [e.submission] && WellExecuted(e) && Executes(s, Work(choice)) == [e]
    ensures var w := Execute(s.worker, s.queue[0], choice);
            w.injected == s.worker.injected + TakenOf(e) && w.notices == s.worker.notices + posted
    ensures if e.Complete()
            then posted == [Applied(e.submission.generation, e.submission.batch.focusEpoch,
              e.submission.batch.sequence)]
            else posted != [] && posted[0] == Failed
  {
    hide Letting, Taken, ConsumeAll;
    var command := s.queue[0];
    e := Execution(SubmissionOf(command)[0], choice.consumed);
    var failures := ConsumeAllAdds(s.worker, Tag(command.generation, command.epoch), command.events, choice.consumed);
    if e.Complete() {
      posted := [Applied(command.generation, command.epoch, command.sequence)];
      assert s.worker.notices + failures == s.worker.notices;
    } else {
      posted := failures;
      assert failures[0] in failures;
    }
  }

  lemma SubmissionsMove(l: Log, e: Execution, k: Log)
    requires RecordsOk(l) && l.system.queue != [] && SubmissionOf(l.system.queue[0]) == [e.submission]
    requires k.executed == l.executed + [e] && k.system.queue == l.system.queue[1..]
    ensures l.submitted == Submissions(k.executed) + SubmissionsOf(k.system.queue)
  {
    ExecutedForGrows(l.executed, e, 0);
    hide GenerationOk, Submissions, SubmissionOf;
    Regroup(Submissions(l.executed), [e.submission], SubmissionsOf(k.system.queue));
  }

  // The current connection is unaffected when only executions and notices are added.
  lemma CurrentExtends(l: Log, k: Log, posted: seq<Notice>)
    requires l.system.connection.Some? && CurrentOk(l, l.system.connection.value)
    requires k.submitted == l.submitted && k.confirmed == l.confirmed && k.answered == l.answered
    requires k.dropped == l.dropped
    requires k.system.worker.notices == l.system.worker.notices + posted
    requires var g := l.system.connection.value.generation;
             && ExecutedFor(l.executed, g) <= ExecutedFor(k.executed, g)
             && LineOk(posted, g, BatchesFor(l.submitted, g), ExecutedFor(k.executed, g), |ExecutedFor(l.executed, g)|)
    ensures CurrentOk(k, l.system.connection.value)
  {
    hide LineOk, Older;
    var g := l.system.connection.value.generation;
    LineExtends(l.system.worker.notices, posted, g, BatchesFor(l.submitted, g), BatchesFor(l.submitted, g),
                ExecutedFor(l.executed, g), ExecutedFor(k.executed, g), l.answered);
  }

  lemma WorkBatch(l: Log, choice: Choice, owner: Option<Tag>)
    requires LogInv(l) && InvWith(l.system, owner) && Enabled(l.system, Work(choice)) && l.system.queue[0].ApplyBatch?
    ensures LogInv(LogNext(l, Work(choice)))
  {
    hide InvWith, Letting, GenerationOk, CurrentOk, Taken, LineOk, Execute;
    var s, k := l.system, LogNext(l, Work(choice));
    NeverStale(s, owner);
    var e, posted := BatchEffects(s, choice);
    assert k.submitted == l.submitted && k.confirmed == l.confirmed && k.executed == l.executed + [e];
    SubmissionsMove(l, e, k);
    forall g ensures InjectedFor(k.system.worker.injected, g) == TakenAll(ExecutedFor(k.executed, g))
      ensures ExecutedFor(l.executed, g) <= ExecutedFor(k.executed, g)
    {
      ExecutionFor(l, e, k.system.worker, g);
    }
    forall g | g !in k.dropped ensures GenerationOk(k, g) {
      GenerationGrows(l, k, g);
    }
    if s.connection.Some? {
      PostsAnswer(l, e, posted, s.connection.value.generation);
      CurrentExtends(l, k, posted);
    }
  }

  lemma {:induction false} SilentAll(posted: seq<Notice>, g: U64, batches: seq<InputBatch>, executed: seq<Execution>)
    requires forall n :: n in posted ==> !n.Applied?
    ensures LineOk(posted, g, batches, executed, |executed|)
  {
    if posted != [] {
      SilentAll(posted[1..], g, batches, executed);
    }
  }

  // A step that executes nothing and, beyond the queue and some notices, changes only the releases injected.
  // Nothing was submitted, executed or confirmed, and what was posted answers nothing.
  ghost predicate Quiet(l: Log, k: Log, posted: seq<Notice>) {
    && k == l.(system := k.system)
    && SubmissionsOf(k.system.queue) == SubmissionsOf(l.system.queue)
    && k.system.nextGeneration == l.system.nextGeneration
    && (forall g :: InjectedFor(k.system.worker.injected, g) == InjectedFor(l.system.worker.injected, g))
    && k.system.connection == l.system.connection && k.system.worker.notices == l.system.worker.notices + posted
    && forall n :: n in posted ==> !n.Applied?
  }

  lemma QuietStep(l: Log, k: Log, posted: seq<Notice>)
    requires LogInv(l) && Quiet(l, k, posted)
    ensures LogInv(k)
  {
    hide LineOk;
    forall g | g !in k.dropped ensures GenerationOk(k, g) {
      GenerationGrows(l, k, g);
    }
    if l.system.connection.Some? {
      var g := l.system.connection.value.generation;
      SilentAll(posted, g, BatchesFor(l.submitted, g), ExecutedFor(l.executed, g));
      CurrentExtends(l, k, posted);
    }
  }

  lemma OtherIsQuiet(w: Worker, command: Command, choice: Choice) returns (posted: seq<Notice>)
    requires !command.ApplyBatch? && Fits(w, command, choice)
    ensures forall g :: InjectedFor(Execute(w, command, choice).injected, g) == InjectedFor(w.injected, g)
    ensures Execute(w, command, choice).notices == w.notices + posted
    ensures forall n :: n in posted ==> !n.Applied?
  {
    hide Letting, InjectedFor;
    forall g ensures InjectedFor(Execute(w, command, choice).injected, g) == InjectedFor(w.injected, g) {
      ReleasedFor(w, choice.releases, g);
    }
    posted := Execute(w, command, choice).notices[|w.notices|..];
  }

  // Every other command leaves the records alone and posts no answer.
  lemma WorkIsQuiet(l: Log, choice: Choice) returns (posted: seq<Notice>)
    requires Enabled(l.system, Work(choice)) && !l.system.queue[0].ApplyBatch?
    ensures Quiet(l, LogNext(l, Work(choice)), posted)
  {
    hide Letting, Execute, InjectedFor;
    var s := l.system;
    assert SubmissionsOf(s.queue) == [] + SubmissionsOf(s.queue[1..]);
    posted := OtherIsQuiet(s.worker, s.queue[0], choice);
  }

  lemma WorkOther(l: Log, choice: Choice)
    requires LogInv(l) && Enabled(l.system, Work(choice)) && !l.system.queue[0].ApplyBatch?
    ensures LogInv(LogNext(l, Work(choice)))
  {
    hide LogInv, LogNext, Enabled;
    var posted := WorkIsQuiet(l, choice);
    QuietStep(l, LogNext(l, Work(choice)), posted);
  }

  lemma StopLogs(l: Log, releases: seq<InputEvent>)
    requires LogInv(l) && Enabled(l.system, StopWorker(releases))
    ensures LogInv(LogNext(l, StopWorker(releases)))
  {
    hide RecordsOk, CurrentOk, Letting;
    var s, k := l.system, LogNext(l, StopWorker(releases));
    forall g ensures InjectedFor(k.system.worker.injected, g) == InjectedFor(s.worker.injected, g) {
      ReleasedFor(s.worker, releases, g);
    }
    var posted := [Released(s.worker.active), Stopped];
    assert k.system.worker.notices == s.worker.notices + posted;
    QuietStep(l, k, posted);
  }

  lemma SeeDisplayLogs(l: Log, geometry: DesktopGeometry)
    requires LogInv(l) && Enabled(l.system, SeeDisplay(geometry))
    ensures LogInv(LogNext(l, SeeDisplay(geometry)))
  {
    hide RecordsOk, CurrentOk;
    var k := LogNext(l, SeeDisplay(geometry));
    QuietStep(l, k, [DesktopChanged(geometry)]);
  }

  // Records that did not change, apart from dropped generations, stay right.
  lemma SameRecords(l: Log, k: Log)
    requires RecordsOk(l) && k.submitted == l.submitted && k.executed == l.executed && k.confirmed == l.confirmed
    requires SubmissionsOf(k.system.queue) == SubmissionsOf(l.system.queue)
    requires k.system.worker.injected == l.system.worker.injected && k.system.nextGeneration >= l.system.nextGeneration
    requires l.dropped <= k.dropped && forall g :: g in k.dropped ==> g < k.system.nextGeneration
    ensures RecordsOk(k)
  {
    hide Submissions, SubmissionsOf, InjectedFor, TakenAll, ExecutedFor, WellExecuted;
    forall g | g !in k.dropped ensures GenerationOk(k, g) {
      assert GenerationOk(l, g);
    }
  }

  lemma RecordsBounds(l: Log)
    requires RecordsOk(l)
    ensures forall g :: g in l.dropped ==> g < l.system.nextGeneration
    ensures BatchesFor(l.submitted, l.system.nextGeneration) == []
    ensures ExecutedFor(l.executed, l.system.nextGeneration) == []
    ensures ConfirmedFor(l.confirmed, l.system.nextGeneration) == []
  {
    NoneOfGeneration(l.submitted, l.system.nextGeneration);
    SubmittedSplit(l, l.system.nextGeneration);
    assert GenerationOk(l, l.system.nextGeneration);
  }

  lemma LeaveLogs(l: Log)
    requires LogInv(l) && l.system.connection.Some?
    ensures LogInv(LogNext(l, Leave))
  {
    hide RecordsOk, CurrentOk;
    var s, k := l.system, LogNext(l, Leave);
    assert k.submitted == l.submitted && k.confirmed == l.confirmed && k.executed == l.executed;
    var release := [ReleaseAll(s.connection.value.generation)];
    SubmissionsOfJoin(s.queue, release);
    assert release[1..] == [] && SubmissionsOf(release) == [];
    RecordsBounds(l);
    SameRecords(l, k);
  }

  lemma ConnectLogs(l: Log, localNode: NodeId)
    requires LogInv(l) && Enabled(l.system, Connect(localNode))
    ensures LogInv(LogNext(l, Connect(localNode)))
  {
    hide RecordsOk, Drained;
    var s, k := l.system, LogNext(l, Connect(localNode));
    DrainedKeepsRest(s);
    assert k.submitted == l.submitted && k.confirmed == l.confirmed && k.executed == l.executed;
    var begin := [BeginSession(s.nextGeneration)];
    SubmissionsOfJoin(s.queue, begin);
    assert begin[1..] == [] && SubmissionsOf(begin) == [];
    RecordsBounds(l);
    SameRecords(l, k);
  }

  // One more submission, for a generation whose earlier ones are all confirmed.
  lemma SubmissionRecorded(l: Log, k: Log, x: Submission)
    requires RecordsOk(l) && x.generation < l.system.nextGeneration
    requires k.submitted == l.submitted + [x] && k.executed == l.executed && k.confirmed == l.confirmed
    requires k.dropped == l.dropped
    requires SubmissionsOf(k.system.queue) == SubmissionsOf(l.system.queue) + [x]
    requires k.system.worker == l.system.worker && k.system.nextGeneration == l.system.nextGeneration
    requires x.generation !in l.dropped ==>
             BatchesFor(l.submitted, x.generation) == ConfirmedFor(l.confirmed, x.generation)
    ensures RecordsOk(k)
    ensures forall g ::
              BatchesFor(k.submitted, g) == BatchesFor(l.submitted, g) + if x.generation == g then [x.batch] else []
  {
    hide Submissions, SubmissionsOf, InjectedFor, TakenAll, ExecutedFor, WellExecuted;
    Regroup(Submissions(l.executed), SubmissionsOf(l.system.queue), [x]);
    forall g
      ensures BatchesFor(k.submitted, g) == BatchesFor(l.submitted, g) + if x.generation == g then [x.batch] else []
    {
      BatchesForJoin(l.submitted, [x], g);
      assert [x][..0] == [];
    }
    forall g | g !in k.dropped ensures GenerationOk(k, g) {
      assert GenerationOk(l, g);
    }
  }

  lemma HostBounds(s: System, owner: Option<Tag>)
    requires InvWith(s, owner) && s.connection.Some?
    ensures var c := s.connection.value;
            && Agent.Inv(c.agent) && c.generation < s.nextGeneration
            && c.applicationPending == c.agent.pendingBatch.Some?
  {
    hide StreamOk, QueueOk, Agent.Inv;
  }

  lemma LineGrows(notices: seq<Notice>, g: U64, batches: seq<InputBatch>, batches': seq<InputBatch>,
          executed: seq<Execution>, next: nat)
    requires LineOk(notices, g, batches, executed, next) && batches <= batches'
    ensures LineOk(notices, g, batches', executed, next)
  {
    assert notices + [] == notices;
    LineExtends(notices, [], g, batches, batches', executed, executed, next);
  }

  lemma ReceivesBatch(l: Log, k: Log, r: Agent.Outcome)
    requires LogInv(l) && l.system.connection.Some? && r.state.pendingBatch.Some?
    requires var c := l.system.connection.value;
             && c.agent.pendingBatch.None? && c.generation < l.system.nextGeneration
             && MovesOn(c.agent, r.state)
             && var x := Submission(c.generation, r.state.pendingBatch.value);
                && k.submitted == l.submitted + [x]
                && SubmissionsOf(k.system.queue) == SubmissionsOf(l.system.queue) + [x]
                && k.system.connection.Some? && k.system.connection.value.generation == c.generation
                && k.system.connection.value.agent == r.state
    requires k.executed == l.executed && k.confirmed == l.confirmed && k.dropped == l.dropped
    requires k.answered == l.answered
    requires k.system.worker == l.system.worker && k.system.nextGeneration == l.system.nextGeneration
    ensures LogInv(k)
  {
    hide RecordsOk, LineOk, Older;
    var c := l.system.connection.value;
    var g, batch := c.generation, r.state.pendingBatch.value;
    assert CurrentOk(l, c);
    SubmissionRecorded(l, k, Submission(g, batch));
    var before, after := BatchesFor(l.submitted, g), BatchesFor(k.submitted, g);
    var executed := ExecutedFor(l.executed, g);
    LineGrows(l.system.worker.notices, g, before, after, executed, l.answered);
    forall t | l.answered <= t < |after| - 1 ensures Older(r.state, after[t]) {
      assert after[t] == before[t];
      OlderStays(c.agent, r.state, before[t]);
    }
  }

  // The agent moved on, with nothing under application before or after.
  lemma ReceivesNothing(l: Log, k: Log, r: Agent.Outcome)
    requires LogInv(l) && RecordsOk(k) && l.system.connection.Some? && r.state.pendingBatch.None?
    requires var c := l.system.connection.value;
             && c.agent.pendingBatch.None?
             && MovesOn(c.agent, r.state)
             && k.system.connection.Some? && k.system.connection.value.generation == c.generation
             && k.system.connection.value.agent == r.state
    requires k.submitted == l.submitted && k.executed == l.executed && k.confirmed == l.confirmed
    requires k.dropped == l.dropped && k.answered == l.answered && k.system.worker == l.system.worker
    ensures LogInv(k)
  {
    hide RecordsOk, LineOk, Older;
    var c := l.system.connection.value;
    assert CurrentOk(l, c);
    var batches := BatchesFor(l.submitted, c.generation);
    forall t | l.answered <= t < |batches| ensures Older(r.state, batches[t]) {
      OlderStays(c.agent, r.state, batches[t]);
    }
  }

  lemma ReceiveLogs(l: Log, message: Session, owner: Option<Tag>)
    requires LogInv(l) && InvWith(l.system, owner) && Enabled(l.system, Receive(message))
    ensures LogInv(LogNext(l, Receive(message)))
  {
    var s, k := l.system, LogNext(l, Receive(message));
    var c := s.connection.value;
    assert k.confirmed == l.confirmed && k.executed == l.executed;
    HostBounds(s, owner);
    hide InvWith, RecordsOk, Agent.Handle, LineOk, Older;
    RecordsBounds(l);
    var r := Agent.Handle(c.agent, message);
    if r.result.Ok? {
      HandleSubmits(c.agent, message, c.generation);
      var commands := CommandsOf(c.generation, r.result.value);
      SubmissionsOfJoin(s.queue, commands);
      if r.state.pendingBatch.Some? {
        ReceivesBatch(l, k, r);
      } else {
        assert k.submitted == l.submitted && SubmissionsOf(s.queue) + [] == SubmissionsOf(s.queue);
        SameRecords(l, k);
        ReceivesNothing(l, k, r);
      }
    } else {
      assert k.submitted == l.submitted;
      SameRecords(l, k);
    }
  }

  // ---- Notices ----

  lemma SilentNotice(l: Log, k: Log, c: Connection)
    requires CurrentOk(l, c) && l.system.worker.notices != []
    requires var notice := l.system.worker.notices[0];
             !notice.Failed? && !notice.Stopped? && (notice.Applied? ==> notice.generation != c.generation)
    requires k.submitted == l.submitted && k.executed == l.executed && k.confirmed == l.confirmed
    requires k.dropped == l.dropped && k.answered == l.answered
    requires k.system.worker.notices == l.system.worker.notices[1..]
    ensures CurrentOk(k, c)
  {
    hide Older, BatchesFor, ExecutedFor, ConfirmedFor;
  }

  // A notice that ends the connection, or says nothing to it.
  lemma OtherNoticeLogs(l: Log)
    requires LogInv(l) && Enabled(l.system, TakeNotice) && !HearsApplied(l.system, TakeNotice)
    requires l.system.worker.notices[0].DesktopChanged? ==> l.system.worker.notices[0].geometry == l.system.display
    ensures LogInv(LogNext(l, TakeNotice))
  {
    hide RecordsOk, CurrentOk;
    var k := LogNext(l, TakeNotice);
    assert k.submitted == l.submitted && k.confirmed == l.confirmed && k.executed == l.executed;
    RecordsBounds(l);
    SameRecords(l, k);
    if k.system.connection.Some? {
      SilentNotice(l, k, k.system.connection.value);
    }
  }

  // With no epoch active, everything submitted is older, the batch under application included.
  lemma AllOlder(l: Log, c: Connection, agent: Agent.State)
    requires CurrentOk(l, c) && Agent.Inv(c.agent) && MovesOn(c.agent, agent)
    requires agent.activeFocusEpoch.None? && agent.highestFocusEpoch == c.agent.highestFocusEpoch
    ensures var batches := BatchesFor(l.submitted, c.generation);
            forall t :: l.answered <= t < |batches| ==> Older(agent, batches[t])
  {
    hide LineOk;
    var batches := BatchesFor(l.submitted, c.generation);
    forall t | l.answered <= t < |batches| ensures Older(agent, batches[t]) {
      if t < |batches| - |PendingOf(c.agent)| {
        OlderStays(c.agent, agent, batches[t]);
      } else {
        assert batches[|batches| - 1..][0] == batches[t];
      }
    }
  }

  // The agent after a display change, with nothing under application.
  lemma ReconciledCurrent(l: Log, k: Log, c: Connection, d: Connection)
    requires CurrentOk(l, c) && Agent.Inv(c.agent) && d.generation == c.generation
    requires l.system.worker.notices != [] && l.system.worker.notices[0].DesktopChanged?
    requires MovesOn(c.agent, d.agent) && d.agent.activeFocusEpoch.None? && d.agent.pendingBatch.None?
    requires d.agent.highestFocusEpoch == c.agent.highestFocusEpoch
    requires k.submitted == l.submitted && k.executed == l.executed && k.confirmed == l.confirmed
    requires k.answered == l.answered
    requires k.dropped == if c.agent.pendingBatch.Some? then l.dropped + {c.generation} else l.dropped
    requires k.system.worker.notices == l.system.worker.notices[1..]
    ensures CurrentOk(k, d)
  {
    AllOlder(l, c, d.agent);
    var batches := BatchesFor(l.submitted, c.generation);
    var confirmed := ConfirmedFor(l.confirmed, c.generation);
    assert batches[|batches|..] == [] && confirmed + [] == confirmed;
    hide Older, BatchesFor, ExecutedFor, ConfirmedFor;
  }

  lemma ReconcileSubmitsNothing(l: Log)
    requires Enabled(l.system, TakeNotice)
    requires l.system.worker.notices[0].DesktopChanged? && l.system.worker.notices[0].geometry != l.system.display
    ensures var s, k := l.system, LogNext(l, TakeNotice);
            && k.submitted == l.submitted && k.executed == l.executed && k.confirmed == l.confirmed
            && k.answered == l.answered
            && k.dropped == (if s.connection.value.agent.pendingBatch.Some?
                             then l.dropped + {s.connection.value.generation} else l.dropped)
            && k.system.worker == s.worker.(notices := s.worker.notices[1..])
            && k.system.nextGeneration == s.nextGeneration
            && SubmissionsOf(k.system.queue) == SubmissionsOf(s.queue)
    ensures var s, k := l.system, LogNext(l, TakeNotice);
            && k.system.connection.Some?
            && k.system.connection.value.generation == s.connection.value.generation
            && k.system.connection.value.agent.highestFocusEpoch == s.connection.value.agent.highestFocusEpoch
            && k.system.connection.value.agent.activeFocusEpoch.None?
            && k.system.connection.value.agent.pendingBatch.None?
            && MovesOn(s.connection.value.agent, k.system.connection.value.agent)
  {
    var s := l.system;
    var c := s.connection.value;
    var (agent, actions) := Agent.ReconcileDisplay(c.agent, s.worker.notices[0].geometry.layout.size);
    NoApplication(c.generation, actions);
    SubmissionsOfJoin(s.queue, CommandsOf(c.generation, actions));
    assert SubmissionsOf(s.queue) + [] == SubmissionsOf(s.queue);
  }

  // The display change ends the active epoch, and drops the batch under application if there is one.
  lemma ReconcileLogs(l: Log, owner: Option<Tag>)
    requires LogInv(l) && InvWith(l.system, owner) && Enabled(l.system, TakeNotice)
    requires l.system.worker.notices[0].DesktopChanged? && l.system.worker.notices[0].geometry != l.system.display
    ensures LogInv(LogNext(l, TakeNotice))
  {
    hide InvWith, RecordsOk, CurrentOk, LogNext;
    var k := LogNext(l, TakeNotice);
    HostBounds(l.system, owner);
    ReconcileSubmitsNothing(l);
    RecordsBounds(l);
    SameRecords(l, k);
    ReconciledCurrent(l, k, l.system.connection.value, k.system.connection.value);
  }

  // What the next notice answers.
  lemma NextAnswer(l: Log, c: Connection)
    requires CurrentOk(l, c) && l.system.connection == Some(c) && HearsApplied(l.system, TakeNotice)
    ensures var notice, g := l.system.worker.notices[0], c.generation;
            var batches, executed := BatchesFor(l.submitted, g), ExecutedFor(l.executed, g);
            && l.answered < |executed| && l.answered < |batches| && executed[l.answered].Complete()
            && batches[l.answered].focusEpoch == notice.epoch && batches[l.answered].sequence == notice.sequence
            && LineOk(l.system.worker.notices[1..], g, batches, executed, l.answered + 1)
  {
    hide Older;
  }

  /** On a notice of a connection that never lost a batch, the agent confirms exactly the batch it is about. */
  lemma NoticeIsForPending(l: Log, c: Connection)
    requires CurrentOk(l, c) && l.system.connection == Some(c) && HearsApplied(l.system, TakeNotice)
    requires c.generation !in l.dropped && Agent.Inv(c.agent)
    ensures c.agent.pendingBatch == Some(BatchesFor(l.submitted, c.generation)[l.answered])
    ensures l.answered + 1 == |BatchesFor(l.submitted, c.generation)| && Confirms(l.system, TakeNotice)
  {
    hide LineOk, Older;
    NextAnswer(l, c);
  }

  lemma ConfirmRecorded(l: Log, k: Log, x: Confirmation)
    requires RecordsOk(l) && k.confirmed == l.confirmed + [x] && k.submitted == l.submitted && k.executed == l.executed
    requires k.dropped == l.dropped && SubmissionsOf(k.system.queue) == SubmissionsOf(l.system.queue)
    requires k.system.worker.injected == l.system.worker.injected && k.system.nextGeneration == l.system.nextGeneration
    requires x.submission.generation !in l.dropped ==> GenerationOk(k, x.submission.generation)
    ensures RecordsOk(k)
  {
    hide Submissions, SubmissionsOf, InjectedFor, TakenAll, ExecutedFor, WellExecuted;
    forall g | g !in k.dropped ensures GenerationOk(k, g) {
      ConfirmedForGrows(l.confirmed, x, g);
      assert GenerationOk(l, g);
      if x.submission.generation != g {
        assert ConfirmedFor(l.confirmed, g) + [] == ConfirmedFor(l.confirmed, g);
      }
    }
  }

  lemma ConfirmationFits(l: Log, k: Log, c: Connection, x: Confirmation)
    requires RecordsOk(l) && CurrentOk(l, c) && l.system.connection == Some(c) && HearsApplied(l.system, TakeNotice)
    requires Agent.Inv(c.agent)
    requires c.generation !in l.dropped && c.agent.pendingBatch == Some(x.submission.batch)
    requires x.submission.generation == c.generation
    requires k.confirmed == l.confirmed + [x] && k.submitted == l.submitted && k.executed == l.executed
    ensures GenerationOk(k, c.generation)
    ensures ConfirmedFor(k.confirmed, c.generation) == BatchesFor(l.submitted, c.generation)
  {
    hide LineOk, Older;
    var g := c.generation;
    NoticeIsForPending(l, c);
    NextAnswer(l, c);
    ConfirmedForGrows(l.confirmed, x, g);
    assert GenerationOk(l, g);
    var confirmed, executed := ConfirmedFor(l.confirmed, g), ExecutedFor(l.executed, g);
    forall i | 0 <= i < |confirmed| + 1 ensures executed[i].Complete() {
      if i == |confirmed| {
        assert i == l.answered;
      }
    }
  }

  // Once confirmed, the batch is older too.
  lemma AllOlderConfirmed(l: Log, c: Connection, agent: Agent.State)
    requires CurrentOk(l, c) && Agent.Inv(c.agent) && c.agent.pendingBatch.Some?
    requires agent == c.agent.(lastAppliedSequence := c.agent.pendingBatch.value.sequence, pendingBatch := None)
    ensures var batches := BatchesFor(l.submitted, c.generation);
            forall t :: l.answered + 1 <= t < |batches| ==> Older(agent, batches[t])
  {
    hide LineOk;
    var batches := BatchesFor(l.submitted, c.generation);
    forall t | l.answered + 1 <= t < |batches| ensures Older(agent, batches[t]) {
      if t < |batches| - 1 {
        OlderStays(c.agent, agent, batches[t]);
      } else {
        assert batches[|batches| - 1..][0] == batches[t];
      }
    }
  }

  // The connection after a confirmation.
  lemma ConfirmedCurrent(l: Log, k: Log, c: Connection, d: Connection, x: Confirmation)
    requires CurrentOk(l, c) && Agent.Inv(c.agent) && d.generation == c.generation
    requires l.system.connection == Some(c) && HearsApplied(l.system, TakeNotice)
    requires c.agent.pendingBatch == Some(x.submission.batch) && x.submission.generation == c.generation
    requires d.agent == c.agent.(lastAppliedSequence := x.submission.batch.sequence, pendingBatch := None)
    requires k.submitted == l.submitted && k.executed == l.executed && k.confirmed == l.confirmed + [x]
    requires k.answered == l.answered + 1 && k.dropped == l.dropped
    requires k.system.worker.notices == l.system.worker.notices[1..]
    ensures CurrentOk(k, d)
  {
    NextAnswer(l, c);
    AllOlderConfirmed(l, c, d.agent);
    ConfirmedForGrows(l.confirmed, x, c.generation);
    var batches := BatchesFor(l.submitted, c.generation);
    assert batches[|batches|..] == [] && batches + [] == batches;
    hide Older, BatchesFor, ExecutedFor, ConfirmedFor, LineOk, Agent.Inv;
  }

  // What a confirmation changes.
  lemma ConfirmEffects(l: Log)
    requires LogInv(l) && Confirms(l.system, TakeNotice) && Agent.Inv(l.system.connection.value.agent)
    ensures var s, k, c := l.system, LogNext(l, TakeNotice), l.system.connection.value;
            && ConfirmedBy(s, TakeNotice) != [] && k.confirmed == l.confirmed + [ConfirmedBy(s, TakeNotice)[0]]
            && k.submitted == l.submitted && k.executed == l.executed && k.answered == l.answered + 1
            && k.dropped == l.dropped
            && k.system.worker == s.worker.(notices := s.worker.notices[1..])
            && k.system.nextGeneration == s.nextGeneration
            && SubmissionsOf(k.system.queue) == SubmissionsOf(s.queue)
            && k.system.connection.Some? && k.system.connection.value.generation == c.generation
            && c.agent.pendingBatch.Some?
            && k.system.connection.value.agent
               == c.agent.(lastAppliedSequence := c.agent.pendingBatch.value.sequence, pendingBatch := None)
  {
    hide LogInv;
    var s, c := l.system, l.system.connection.value;
    var r := Agent.ConfirmApplied(c.agent, s.worker.notices[0].sequence);
    NoApplication(c.generation, r.result.value);
    SubmissionsOfJoin(s.queue, CommandsOf(c.generation, r.result.value));
    assert SubmissionsOf(s.queue) + [] == SubmissionsOf(s.queue);
  }

  lemma ConfirmLogs(l: Log, owner: Option<Tag>)
    requires LogInv(l) && InvWith(l.system, owner) && Confirms(l.system, TakeNotice)
    ensures LogInv(LogNext(l, TakeNotice))
  {
    var s, k := l.system, LogNext(l, TakeNotice);
    var c := s.connection.value;
    HostBounds(s, owner);
    ConfirmEffects(l);
    hide InvWith, RecordsOk, CurrentOk, GenerationOk, LogNext;
    var x := ConfirmedBy(s, TakeNotice)[0];
    if c.generation !in l.dropped {
      ConfirmationFits(l, k, c, x);
    }
    ConfirmRecorded(l, k, x);
    ConfirmedCurrent(l, k, c, k.system.connection.value, x);
  }

  lemma RefusedNoticeLogs(l: Log)
    requires LogInv(l) && HearsApplied(l.system, TakeNotice) && !Confirms(l.system, TakeNotice)
    ensures LogInv(LogNext(l, TakeNotice))
  {
    hide RecordsOk, CurrentOk;
    var k := LogNext(l, TakeNotice);
    assert k.submitted == l.submitted && k.confirmed == l.confirmed && k.executed == l.executed;
    RecordsBounds(l);
    SameRecords(l, k);
  }

  lemma LogNextKeeps(l: Log, step: Step, owner: Option<Tag>)
    requires LogInv(l) && InvWith(l.system, owner) && Enabled(l.system, step)
    ensures LogInv(LogNext(l, step))
  {
    hide LogInv, InvWith, LogNext, Fits, Confirms;
    match step
    case Connect(localNode) => ConnectLogs(l, localNode);
    case Receive(message) => ReceiveLogs(l, message, owner);
    case Leave => LeaveLogs(l);
    case SeeDisplay(geometry) => SeeDisplayLogs(l, geometry);
    case StopWorker(releases) => StopLogs(l, releases);
    case Work(choice) =>
      if l.system.queue[0].ApplyBatch? {
        WorkBatch(l, choice, owner);
      } else {
        WorkOther(l, choice);
      }
    case TakeNotice =>
      var notice := l.system.worker.notices[0];
      if HearsApplied(l.system, TakeNotice) {
        if Confirms(l.system, TakeNotice) {
          ConfirmLogs(l, owner);
        } else {
          RefusedNoticeLogs(l);
        }
      } else if notice.DesktopChanged? && notice.geometry != l.system.display {
        ReconcileLogs(l, owner);
      } else {
        OtherNoticeLogs(l);
      }
  }

  // ---- Whole runs ----

  lemma {:induction false} LogKeeps(display: DesktopGeometry, steps: seq<Step>)
    requires Runs(display, steps)
    ensures LogInv(Logged(display, steps))
  {
    if steps == [] {
      assert Logged(display, steps) == Log(Start(display), [], [], [], 0, {});
    } else {
      hide LogInv, InvWith, LogNext, Next, Enabled;
      var front := steps[..|steps| - 1];
      LogKeeps(display, front);
      var owner := RunKeeps(display, front);
      LogNextKeeps(Logged(display, front), steps[|steps| - 1], owner);
    }
  }

  lemma CompleteIsWhole(g: U64, e: Execution)
    requires e.Complete() && e.submission.generation == g
    ensures TakenOf(e) == Whole(g, e.submission.batch)
  {
    CompleteTakesWhole(Tag(g, e.submission.batch.focusEpoch), e.submission.batch.events, e.consumed);
  }

  lemma {:induction false} TakenWhole(g: U64, executed: seq<Execution>, n: nat)
    requires n <= |executed| <= n + 1
    requires forall i :: 0 <= i < n ==> executed[i].Complete() && executed[i].submission.generation == g
    ensures TakenAll(executed) == WholeAll(g, Batches(executed[..n])) +
            if |executed| > n then TakenOf(executed[n]) else []
  {
    hide Taken, Whole;
    if |executed| > n {
      TakenWhole(g, executed[..n], n);
      assert executed[..n][..n] == executed[..n];
      assert TakenAll(executed) == TakenAll(executed[..n]) + TakenOf(executed[n]);
    } else if n > 0 {
      assert executed[..n] == executed;
      TakenWhole(g, executed[..n - 1], n - 1);
      assert executed[..n - 1][..n - 1] == executed[..n - 1];
      CompleteIsWhole(g, executed[n - 1]);
      assert Batches(executed)[..n - 1] == Batches(executed[..n - 1]);
    }
  }

  lemma {:induction false} ExecutedIn(executed: seq<Execution>, g: U64)
    ensures forall e :: e in ExecutedFor(executed, g) ==> e in executed && e.submission.generation == g
  {
    if executed != [] {
      ExecutedIn(executed[..|executed| - 1], g);
    }
  }

  // What is injected for a generation is what the executed batches took, confirmed ones whole.
  lemma TakenIsConfirmed(l: Log, g: U64)
    requires RecordsOk(l) && g !in l.dropped
    ensures var confirmed, executed := ConfirmedFor(l.confirmed, g), ExecutedFor(l.executed, g);
            && |confirmed| <= |executed|
            && InjectedFor(l.system.worker.injected, g)
               == WholeAll(g, confirmed) + if |executed| > |confirmed| then TakenOf(executed[|confirmed|]) else []
  {
    hide TakenOf, WholeAll, WellExecuted;
    assert GenerationOk(l, g);
    var confirmed, executed := ConfirmedFor(l.confirmed, g), ExecutedFor(l.executed, g);
    SubmittedSplit(l, g);
    ExecutedIn(l.executed, g);
    TakenWhole(g, executed, |confirmed|);
    assert Batches(executed[..|confirmed|]) == confirmed by {
      forall i | 0 <= i < |confirmed| ensures Batches(executed[..|confirmed|])[i] == confirmed[i] {
        assert BatchesFor(l.submitted, g)[i] == confirmed[i];
      }
    }
  }

  /**
   * Exactly-once application: in any run, for a connection in which no display change dropped a batch, the
   * events injected for it are those of the batches its agent confirmed, whole, in order and each once,
   * followed by at most a part of one batch more, the next one submitted. As this holds in every state, each
   * confirmation comes after the complete injection of its own batch.
   */
  lemma ConfirmedIsInjected(display: DesktopGeometry, steps: seq<Step>, g: U64)
    returns (part: seq<Injected>, consumed: seq<bool>)
    requires Runs(display, steps) && g !in Logged(display, steps).dropped
    ensures var l := Logged(display, steps);
            var confirmed, submitted := ConfirmedFor(l.confirmed, g), BatchesFor(l.submitted, g);
            && InjectedFor(l.system.worker.injected, g) == WholeAll(g, confirmed) + part
            && confirmed <= submitted && |submitted| <= |confirmed| + 1
            && (part != [] ==>
                  && |submitted| == |confirmed| + 1 && |consumed| == |submitted[|confirmed|].events|
                  && part == Taken(Tag(g, submitted[|confirmed|].focusEpoch), submitted[|confirmed|].events, consumed))
            && (l.system.connection.Some? && l.system.connection.value.generation == g ==>
                  submitted == confirmed + PendingOf(l.system.connection.value.agent))
  {
    var l := Logged(display, steps);
    LogKeeps(display, steps);
    hide Taken, Logged, LineOk, Runs, InjectedFor, WholeAll;
    TakenIsConfirmed(l, g);
    assert GenerationOk(l, g);
    var confirmed, executed := ConfirmedFor(l.confirmed, g), ExecutedFor(l.executed, g);
    SubmittedSplit(l, g);
    ExecutedIn(l.executed, g);
    part := if |executed| > |confirmed| then TakenOf(executed[|confirmed|]) else [];
    consumed := if |executed| > |confirmed| then executed[|confirmed|].consumed else [];
    if |executed| > |confirmed| {
      assert executed[|confirmed|] in l.executed;
      assert BatchesFor(l.submitted, g)[|confirmed|] == executed[|confirmed|].submission.batch;
    }
  }

  /**
   * What the worker injects is what was submitted, without exception: for every connection the injected
   * events are what the backend took of the batches executed, and these are the submitted ones, in order and
   * each once, up to those still queued.
   */
  lemma InjectedIsSubmitted(display: DesktopGeometry, steps: seq<Step>, g: U64)
    requires Runs(display, steps)
    ensures var l := Logged(display, steps);
            && InjectedFor(l.system.worker.injected, g) == TakenAll(ExecutedFor(l.executed, g))
            && BatchesFor(l.submitted, g) == Batches(ExecutedFor(l.executed, g)) +
                 BatchesFor(SubmissionsOf(l.system.queue), g)
  {
    LogKeeps(display, steps);
    hide Logged, GenerationOk, CurrentOk;
    SubmittedSplit(Logged(display, steps), g);
  }

  /**
   * The batches a connection has submitted are those it confirmed and the one under application, exactly as
   * long as no display change dropped one.
   */
  lemma SubmittedIsConfirmedExactly(display: DesktopGeometry, steps: seq<Step>)
    requires Runs(display, steps) && Logged(display, steps).system.connection.Some?
    ensures var l := Logged(display, steps);
            var c := l.system.connection.value;
            BatchesFor(l.submitted, c.generation) == ConfirmedFor(l.confirmed, c.generation) + PendingOf(c.agent)
            <==> c.generation !in l.dropped
  {
    LogKeeps(display, steps);
    hide Logged, RecordsOk, LineOk, Older;
  }

  // A confirmation in a connection that lost a batch to a display change.
  predicate Misleads(l: Log, step: Step) {
    Confirms(l.system, step) && l.system.connection.value.generation in l.dropped
  }

  ghost predicate NeverMisled(display: DesktopGeometry, steps: seq<Step>)
    requires Runs(display, steps)
  {
    steps == [] ||
    var front := steps[..|steps| - 1];
    NeverMisled(display, front) && !Misleads(Logged(display, front), steps[|steps| - 1])
  }

  predicate AllGenuine(confirmed: seq<Confirmation>) {
    forall x :: x in confirmed ==> x.Genuine()
  }

  lemma ConfirmationIsGenuine(l: Log, owner: Option<Tag>)
    requires LogInv(l) && InvWith(l.system, owner) && Confirms(l.system, TakeNotice)
    ensures ConfirmedBy(l.system, TakeNotice)[0].Genuine() <==> l.system.connection.value.generation !in l.dropped
  {
    var c := l.system.connection.value;
    HostBounds(l.system, owner);
    hide InvWith, RecordsOk, LineOk;
    NextAnswer(l, c);
    if c.generation !in l.dropped {
      NoticeIsForPending(l, c);
    } else {
      var batches := BatchesFor(l.submitted, c.generation);
      assert Older(c.agent, batches[l.answered]);
    }
  }

  lemma ConfirmsTakesNotice(s: System, step: Step)
    requires Confirms(s, step)
    ensures step == TakeNotice && |ConfirmedBy(s, step)| == 1
  {
  }

  lemma OneMoreGenuine(confirmed: seq<Confirmation>, x: Confirmation)
    ensures AllGenuine(confirmed + [x]) <==> AllGenuine(confirmed) && x.Genuine()
  {
    assert x in confirmed + [x];
  }

  /**
   * A confirmation is for the batch its notice is about, exactly: in any run every one is, if and only if
   * none was taken in a connection in which a display change had dropped a batch. After such a drop the next
   * notice is still about the dropped batch, whatever batch is under application by then.
   */
  lemma {:induction false} ConfirmationsAreGenuine(display: DesktopGeometry, steps: seq<Step>)
    requires Runs(display, steps)
    ensures AllGenuine(Logged(display, steps).confirmed) <==> NeverMisled(display, steps)
  {
    if steps != [] {
      var front, step := steps[..|steps| - 1], steps[|steps| - 1];
      ConfirmationsAreGenuine(display, front);
      LogKeeps(display, front);
      var owner := RunKeeps(display, front);
      var l := Logged(display, front);
      hide LogInv, InvWith, Next, Enabled, Confirms;
      assert Logged(display, steps).confirmed == l.confirmed + ConfirmedBy(l.system, step);
      if Confirms(l.system, step) {
        ConfirmsTakesNotice(l.system, step);
        ConfirmationIsGenuine(l, owner);
        OneMoreGenuine(l.confirmed, ConfirmedBy(l.system, step)[0]);
      } else {
        assert l.confirmed + [] == l.confirmed;
      }
    }
  }
}
