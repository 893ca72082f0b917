/** The agent's session: it accepts focus epochs and gap-free input, and acknowledges after application. */
module Agent {
  import opened Base
  import opened Geometry
  import opened Display
  import opened Input
  import opened ClipboardData
  import opened Protocol

  datatype FocusState = FocusState(epoch: U64, target: NodeId, entryPosition: Point)

  datatype State = State(
    localNode: NodeId,
    displaySize: Size,
    highestFocusEpoch: U64,
    activeFocusEpoch: Option<U64>,
    lastFocus: Option<FocusState>,
    lastAppliedSequence: U64,
    pendingBatch: Option<InputBatch>,
    closed: bool)

  datatype Action =
    | FocusEntered(position: Point)
    | ApplyInput(batch: InputBatch)
    | ReleaseAllInput
    | Send(message: Session)
    | ForwardClipboard(control: Control)
    | CloseConnection

  datatype Error =
    | SessionClosed
    | ConflictingFocusEpoch(epoch: U64)
    | EntryPositionOutsideDisplay(position: Point, size: Size)
    | StaleInputEpoch(received: U64, current: U64)
    | InactiveInputEpoch(received: U64, active: Option<U64>)
    | InputSequenceGap(expected: U64, received: U64)
    | InputSequenceExhausted
    | EmptyInputBatch
    | TooManyInputEvents(actual: nat)
    | InputApplicationPending(sequence: U64)
    | NoInputApplicationPending
    | AppliedSequenceMismatch(expected: U64, received: U64)
    | UnexpectedAcknowledgement
    | UnexpectedDisplayChange

  datatype Outcome = Outcome(state: State, result: Result<seq<Action>, Error>)

  function New(localNode: NodeId, displaySize: Size): State {
    State(localNode, displaySize, 0, None, None, 0, None, false)
  }

  predicate ContainsLocal(size: Size, point: Point) {
    point.x >= 0 && point.y >= 0 && point.x < size.width && point.y < size.height
  }

  function Close(s: State): Outcome {
    Outcome(s.(activeFocusEpoch := None, pendingBatch := None, closed := true), Ok([ReleaseAllInput, CloseConnection]))
  }

  function ChangeFocus(s: State, epoch: U64, target: NodeId, position: Point): Outcome {
    var next := FocusState(epoch, target, position);
    if epoch < s.highestFocusEpoch then Outcome(s, Ok([]))
    else if epoch == s.highestFocusEpoch then
      if s.lastFocus == Some(next) then Outcome(s, Ok([])) else Outcome(s, Err(ConflictingFocusEpoch(epoch)))
    else if s.pendingBatch.Some? then Outcome(s, Err(InputApplicationPending(s.pendingBatch.value.sequence)))
    else if target == s.localNode && !ContainsLocal(s.displaySize, position) then
      Outcome(s, Err(EntryPositionOutsideDisplay(position, s.displaySize)))
    else
      var entered := target == s.localNode;
      var release := if s.activeFocusEpoch.Some? then [ReleaseAllInput] else [];
      Outcome(s.(highestFocusEpoch := epoch, lastFocus := Some(next),
                 activeFocusEpoch := if entered then Some(epoch) else None),
              Ok(release + if entered then [FocusEntered(position)] else []))
  }

  function ReceiveInput(s: State, batch: InputBatch): Outcome {
    if batch.events == [] then Outcome(s, Err(EmptyInputBatch))
    else if |batch.events| > MAX_INPUT_EVENTS_PER_BATCH then Outcome(s, Err(TooManyInputEvents(|batch.events|)))
    else if batch.focusEpoch < s.highestFocusEpoch then
      Outcome(s, Err(StaleInputEpoch(batch.focusEpoch, s.highestFocusEpoch)))
    else if s.activeFocusEpoch != Some(batch.focusEpoch) then
      Outcome(s, Err(InactiveInputEpoch(batch.focusEpoch, s.activeFocusEpoch)))
    else if s.pendingBatch.Some? then Outcome(s, Err(InputApplicationPending(s.pendingBatch.value.sequence)))
    else if batch.sequence <= s.lastAppliedSequence then
      Outcome(s, Ok([Send(InputAcknowledged(s.lastAppliedSequence))]))
    else if s.lastAppliedSequence == U64_MAX then Outcome(s, Err(InputSequenceExhausted))
    else if batch.sequence != s.lastAppliedSequence + 1 then
      Outcome(s, Err(InputSequenceGap(s.lastAppliedSequence + 1, batch.sequence)))
    else Outcome(s.(pendingBatch := Some(batch)), Ok([ApplyInput(batch)]))
  }

  function Handle(s: State, message: Session): Outcome {
    if s.closed then Outcome(s, Err(SessionClosed))
    else match message
      case DisplayChanged(_) => Outcome(s, Err(UnexpectedDisplayChange))
      case FocusChanged(epoch, target, position) => ChangeFocus(s, epoch, target, position)
      case InputMessage(batch) => ReceiveInput(s, batch)
      case InputAcknowledged(_) => Outcome(s, Err(UnexpectedAcknowledgement))
      case Heartbeat(nonce) => Outcome(s, Ok([Send(HeartbeatAcknowledged(nonce))]))
      case HeartbeatAcknowledged(_) => Outcome(s, Ok([]))
      case Clipboard(control) => Outcome(s, Ok([ForwardClipboard(control)]))
      case Disconnect => Close(s)
  }

  function ConfirmApplied(s: State, sequence: U64): Outcome {
    if s.closed then Outcome(s, Err(SessionClosed))
    else if s.pendingBatch.None? then Outcome(s, Err(NoInputApplicationPending))
    else if s.pendingBatch.value.sequence != sequence then
      Outcome(s, Err(AppliedSequenceMismatch(s.pendingBatch.value.sequence, sequence)))
    else Outcome(s.(lastAppliedSequence := sequence, pendingBatch := None), Ok([Send(InputAcknowledged(sequence))]))
  }

  function ReconcileDisplay(s: State, displaySize: Size): (State, seq<Action>) {
    (s.(displaySize := displaySize, activeFocusEpoch := None, pendingBatch := None), [ReleaseAllInput])
  }

  // ---- What every operation keeps ----

  predicate Inv(s: State) {
    && (s.activeFocusEpoch.Some? ==>
          && s.lastFocus.Some? && s.lastFocus.value.target == s.localNode
          && s.activeFocusEpoch.value == s.highestFocusEpoch)
    && (s.lastFocus.Some? ==> s.lastFocus.value.epoch == s.highestFocusEpoch)
    && (s.pendingBatch.Some? ==>
          && s.activeFocusEpoch == Some(s.pendingBatch.value.focusEpoch)
          && s.pendingBatch.value.sequence == s.lastAppliedSequence + 1
          && 0 < |s.pendingBatch.value.events| <= MAX_INPUT_EVENTS_PER_BATCH)
    && (s.closed ==> s.activeFocusEpoch.None?)
  }

  /**
   * The invariant holds over any messages and confirmations; errors change nothing; epochs and sequences never go back.
   */
  lemma HandleKeepsInv(s: State, message: Session)
    requires Inv(s)
    ensures var r := Handle(s, message);
            && Inv(r.state)
            && (r.result.Err? ==> r.state == s)
            && s.highestFocusEpoch <= r.state.highestFocusEpoch
            && r.state.lastAppliedSequence == s.lastAppliedSequence
  {
  }

  lemma ConfirmKeepsInv(s: State, sequence: U64)
    requires Inv(s)
    ensures var r := ConfirmApplied(s, sequence);
            && Inv(r.state)
            && (r.result.Err? ==> r.state == s)
            && (r.result.Ok? <==> s.pendingBatch.Some? && sequence == s.lastAppliedSequence + 1)
            && (r.result.Ok? ==> r.state == s.(lastAppliedSequence := s.lastAppliedSequence + 1, pendingBatch := None))
  {
  }

  /**
   * The actions say exactly what changed: focus is entered at the announced position, inside the display,
   * exactly when a new epoch becomes active here; input is released first whenever the active epoch ends,
   * and only then or on closing; a batch is applied exactly when it becomes the pending one; and an
   * acknowledgement never promises more than was applied.
   */
  lemma ActionsMatchChange(s: State, message: Session)
    requires Inv(s) && Handle(s, message).result.Ok?
    ensures var r := Handle(s, message);
            var actions, t := r.result.value, r.state;
            var ends := s.activeFocusEpoch.Some? && t.activeFocusEpoch != s.activeFocusEpoch;
            && (t.activeFocusEpoch.Some? && t.activeFocusEpoch != s.activeFocusEpoch <==>
                 exists a :: a in actions && a.FocusEntered?)
            && (forall a :: a in actions && a.FocusEntered? ==>
                  && t.highestFocusEpoch > s.highestFocusEpoch
                  && t.lastFocus == Some(FocusState(t.highestFocusEpoch, s.localNode, a.position))
                  && ContainsLocal(t.displaySize, a.position))
            && (ends ==> actions != [] && actions[0] == ReleaseAllInput)
            && (ReleaseAllInput in actions ==> ends || (t.closed && !s.closed))
            && (forall a :: a in actions && a.ApplyInput? ==> s.pendingBatch.None? && t.pendingBatch == Some(a.batch))
            && (t.pendingBatch.Some? && t.pendingBatch != s.pendingBatch ==>
                 ApplyInput(t.pendingBatch.value) in actions)
            && (forall a :: a in actions && a.Send? && a.message.InputAcknowledged? ==>
                 a.message.throughSequence == t.lastAppliedSequence)
  {
    var r := Handle(s, message);
    var actions := r.result.value;
    if message.FocusChanged? && message.focusEpoch > s.highestFocusEpoch && message.target == s.localNode {
      assert actions[|actions| - 1] == FocusEntered(message.entryPosition);
    }
    if message.InputMessage? && r.state.pendingBatch != s.pendingBatch {
      assert actions[0] == ApplyInput(message.batch);
    }
  }

  /**
   * Input is taken exactly when it is the next batch of the active epoch and nothing is pending; a batch
   * already applied only repeats the acknowledgement; every other batch is refused without effect.
   */
  lemma InputIsTakenExactly(s: State, batch: InputBatch)
    requires Inv(s)
    ensures var r := Handle(s, InputMessage(batch));
            var admissible := s.activeFocusEpoch == Some(batch.focusEpoch) && s.pendingBatch.None?
                              && 0 < |batch.events| <= MAX_INPUT_EVENTS_PER_BATCH;
            && (r == Outcome(s.(pendingBatch := Some(batch)), Ok([ApplyInput(batch)])) <==>
                  admissible && batch.sequence == s.lastAppliedSequence + 1)
            && (r == Outcome(s, Ok([Send(InputAcknowledged(s.lastAppliedSequence))])) <==>
                  admissible && batch.sequence <= s.lastAppliedSequence)
            && (r.result.Err? <==> !admissible || batch.sequence > s.lastAppliedSequence + 1)
            && (r.result.Err? ==> r.state == s)
  {
  }

  // What each refusal of a batch says about it.
  predicate Explains(s: State, batch: InputBatch, error: Error) {
    match error
    case EmptyInputBatch => batch.events == []
    case TooManyInputEvents(actual) => |batch.events| == actual > MAX_INPUT_EVENTS_PER_BATCH
    case StaleInputEpoch(received, current) => batch.focusEpoch == received < current == s.highestFocusEpoch
    case InactiveInputEpoch(received, active) =>
      batch.focusEpoch == received && active == s.activeFocusEpoch != Some(received)
    case InputApplicationPending(sequence) => s.pendingBatch.Some? && s.pendingBatch.value.sequence == sequence
    case InputSequenceGap(expected, received) =>
      s.lastAppliedSequence + 1 == expected < received == batch.sequence
    case _ => false
  }

  /** A refused batch is refused for a reason that is there. */
  lemma RefusalsExplain(s: State, batch: InputBatch)
    requires Inv(s) && !s.closed && Handle(s, InputMessage(batch)).result.Err?
    ensures Explains(s, batch, Handle(s, InputMessage(batch)).result.error)
  {
  }

  /**
   * A focus message is answered exactly so: an older epoch, or the current one repeated word for word, changes
   * nothing; a current one that differs is a conflict; a newer one waits for no batch and, if it is for this
   * node, enters at a position inside the display, releasing first what an active epoch holds.
   */
  lemma FocusIsTakenExactly(s: State, epoch: U64, target: NodeId, position: Point)
    requires Inv(s) && !s.closed
    ensures var r := Handle(s, FocusChanged(epoch, target, position));
            var inside := 0 <= position.x < s.displaySize.width && 0 <= position.y < s.displaySize.height;
            && (epoch < s.highestFocusEpoch ==> r == Outcome(s, Ok([])))
            && (epoch == s.highestFocusEpoch ==>
                  r == Outcome(s, if s.lastFocus == Some(FocusState(epoch, target, position)) then Ok([])
                                  else Err(ConflictingFocusEpoch(epoch))))
            && (epoch > s.highestFocusEpoch ==>
                  && (r.result.Err? <==> s.pendingBatch.Some? || (target == s.localNode && !inside))
                  && (r.result.Err? ==> r.state == s)
                  && (r.result.Err? && s.pendingBatch.None? ==>
                        r.result.error == EntryPositionOutsideDisplay(position, s.displaySize))
                  && (r.result.Ok? ==>
                        && r.state == s.(highestFocusEpoch := epoch,
                                         lastFocus := Some(FocusState(epoch, target, position)),
                                         activeFocusEpoch := if target == s.localNode then Some(epoch) else None)
                        && r.result.value == (if s.activeFocusEpoch.Some? then [ReleaseAllInput] else [])
                                             + if target == s.localNode then [FocusEntered(position)] else []))
  {
  }

  /**
   * A display change ends the active epoch and drops the batch under application, and nothing else: epochs and
   * sequences go on, the last focus message may be repeated, and the next local epoch is entered exactly when
   * its position lies in the new size.
   */
  lemma DisplayChangesExactly(s: State, size: Size, epoch: U64, position: Point)
    requires Inv(s) && !s.closed && epoch > s.highestFocusEpoch
    ensures var (t, actions) := ReconcileDisplay(s, size);
            var r := Handle(t, FocusChanged(epoch, s.localNode, position));
            && Inv(t) && t == s.(displaySize := size, activeFocusEpoch := None, pendingBatch := None)
            && actions == [ReleaseAllInput]
            && (s.lastFocus.Some? ==>
                  var last := s.lastFocus.value;
                  Handle(t, FocusChanged(last.epoch, last.target, last.entryPosition)) == Outcome(t, Ok([])))
            && (r.state.activeFocusEpoch == Some(epoch) && r.result == Ok([FocusEntered(position)]) <==>
                  0 <= position.x < size.width && 0 <= position.y < size.height)
            && (r.state.activeFocusEpoch.None? ==> r == Outcome(t, Err(EntryPositionOutsideDisplay(position, size))))
  {
    assert [] + [FocusEntered(position)] == [FocusEntered(position)];
  }

  /**
   * Everything else on the control channel: a heartbeat is answered with its own nonce, clipboard control is
   * passed on, a controller's own messages are refused, and a disconnect releases and closes for good.
   */
  lemma ControlIsAnsweredExactly(s: State, nonce: U64, control: Control, through: U64, layout: DesktopLayout)
    requires Inv(s) && !s.closed
    ensures Handle(s, Heartbeat(nonce)) == Outcome(s, Ok([Send(HeartbeatAcknowledged(nonce))]))
    ensures Handle(s, HeartbeatAcknowledged(nonce)) == Outcome(s, Ok([]))
    ensures Handle(s, Clipboard(control)) == Outcome(s, Ok([ForwardClipboard(control)]))
    ensures Handle(s, InputAcknowledged(through)) == Outcome(s, Err(UnexpectedAcknowledgement))
    ensures Handle(s, DisplayChanged(layout)) == Outcome(s, Err(UnexpectedDisplayChange))
    ensures var r := Handle(s, Disconnect);
            && r.result == Ok([ReleaseAllInput, CloseConnection])
            && r.state == s.(activeFocusEpoch := None, pendingBatch := None, closed := true)
  {
  }

  /** A closed session refuses every message and confirmation, and stays as it is. */
  lemma ClosedRefuses(s: State, message: Session, sequence: U64)
    requires s.closed
    ensures Handle(s, message) == ConfirmApplied(s, sequence) == Outcome(s, Err(SessionClosed))
  {
  }

  class AgentSession {
    const localNode: NodeId
    var displaySize: Size
    var highestFocusEpoch: U64
    var activeFocusEpoch: Option<U64>
    var lastFocus: Option<FocusState>
    var lastAppliedSequence: U64
    var pendingBatch: Option<InputBatch>
    var closed: bool

    function Current(): State
      reads this
    {
      State(localNode, displaySize, highestFocusEpoch, activeFocusEpoch, lastFocus, lastAppliedSequence, pendingBatch,
        closed)
    }

    constructor (localNode: NodeId, displaySize: Size)
      ensures Current() == New(localNode, displaySize)
    {
      this.localNode, this.displaySize := localNode, displaySize;
      highestFocusEpoch, activeFocusEpoch, lastFocus := 0, None, None;
      lastAppliedSequence, pendingBatch, closed := 0, None, false;
    }

    method HandleMessage(message: Session) returns (r: Result<seq<Action>, Error>)
      modifies this
      ensures Outcome(Current(), r) == Handle(old(Current()), message)
    {
      if closed {
        return Err(SessionClosed);
      }
      match message {
        case DisplayChanged(_) => return Err(UnexpectedDisplayChange);
        case FocusChanged(epoch, target, position) => r := EnterFocus(epoch, target, position);
        case InputMessage(batch) => r := AcceptInput(batch);
        case InputAcknowledged(_) => return Err(UnexpectedAcknowledgement);
        case Heartbeat(nonce) => return Ok([Send(HeartbeatAcknowledged(nonce))]);
        case HeartbeatAcknowledged(_) => return Ok([]);
        case Clipboard(control) => return Ok([ForwardClipboard(control)]);
        case Disconnect =>
          var actions := CloseSession();
          return Ok(actions);
      }
    }

    /** Confirms that the pending batch was applied; only then may its acknowledgement be sent. */
    method Confirm(sequence: U64) returns (r: Result<seq<Action>, Error>)
      modifies this
      ensures Outcome(Current(), r) == ConfirmApplied(old(Current()), sequence)
    {
      if closed {
        return Err(SessionClosed);
      }
      if pendingBatch.None? {
        return Err(NoInputApplicationPending);
      }
      if pendingBatch.value.sequence != sequence {
        return Err(AppliedSequenceMismatch(pendingBatch.value.sequence, sequence));
      }
      lastAppliedSequence := sequence;
      pendingBatch := None;
      return Ok([Send(InputAcknowledged(sequence))]);
    }

    method Reconcile(displaySize: Size) returns (actions: seq<Action>)
      modifies this
      ensures (Current(), actions) == ReconcileDisplay(old(Current()), displaySize)
    {
      this.displaySize := displaySize;
      activeFocusEpoch := None;
      pendingBatch := None;
      return [ReleaseAllInput];
    }

    method EnterFocus(epoch: U64, target: NodeId, position: Point) returns (r: Result<seq<Action>, Error>)
      modifies this
      ensures Outcome(Current(), r) == ChangeFocus(old(Current()), epoch, target, position)
    {
      if epoch < highestFocusEpoch {
        return Ok([]);
      }
      var next := FocusState(epoch, target, position);
      if epoch == highestFocusEpoch {
        return if lastFocus == Some(next) then Ok([]) else Err(ConflictingFocusEpoch(epoch));
      }
      if pendingBatch.Some? {
        return Err(InputApplicationPending(pendingBatch.value.sequence));
      }
      if target == localNode && !ContainsLocal(displaySize, position) {
        return Err(EntryPositionOutsideDisplay(position, displaySize));
      }
      var wasActive := activeFocusEpoch.Some?;
      activeFocusEpoch := None;
      highestFocusEpoch := epoch;
      lastFocus := Some(next);
      var actions := [];
      if wasActive {
        actions := actions + [ReleaseAllInput];
      }
      if target == localNode {
        activeFocusEpoch := Some(epoch);
        actions := actions + [FocusEntered(position)];
      }
      assert actions == (if wasActive then [ReleaseAllInput] else []) +
        (if target == localNode then [FocusEntered(position)] else []);
      return Ok(actions);
    }

    method AcceptInput(batch: InputBatch) returns (r: Result<seq<Action>, Error>)
      modifies this
      ensures Outcome(Current(), r) == ReceiveInput(old(Current()), batch)
    {
      if batch.events == [] {
        return Err(EmptyInputBatch);
      }
      if |batch.events| > MAX_INPUT_EVENTS_PER_BATCH {
        return Err(TooManyInputEvents(|batch.events|));
      }
      if batch.focusEpoch < highestFocusEpoch {
        return Err(StaleInputEpoch(batch.focusEpoch, highestFocusEpoch));
      }
      if activeFocusEpoch != Some(batch.focusEpoch) {
        return Err(InactiveInputEpoch(batch.focusEpoch, activeFocusEpoch));
      }
      if pendingBatch.Some? {
        return Err(InputApplicationPending(pendingBatch.value.sequence));
      }
      if batch.sequence <= lastAppliedSequence {
        return Ok([Send(InputAcknowledged(lastAppliedSequence))]);
      }
      if lastAppliedSequence == U64_MAX {
        return Err(InputSequenceExhausted);
      }
      var expected := lastAppliedSequence + 1;
      if batch.sequence != expected {
        return Err(InputSequenceGap(expected, batch.sequence));
      }
      pendingBatch := Some(batch);
      return Ok([ApplyInput(batch)]);
    }

    method CloseSession() returns (actions: seq<Action>)
      modifies this
      ensures Outcome(Current(), Ok(actions)) == Close(old(Current()))
    {
      activeFocusEpoch := None;
      pendingBatch := None;
      closed := true;
      return [ReleaseAllInput, CloseConnection];
    }
  }
}
