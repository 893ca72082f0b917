# Tevir: a verified model

Tevir lets one keyboard and mouse control several computers. This project models the parts of it that are
deterministic and carry state, and proves what they promise to each other.

* **Focus and input delivery.** `Controller` specifies every controller operation on a state value and
  `ControllerSession` is the object whose methods reach exactly those states; `Agent` does the same for the
  agent. `Delivery` puts one controller, any number of agents and a first-in first-out channel each way per
  agent into one system, with the runtime's rule that an agent takes no control message while a batch awaits
  application. `DeliveryTheorems` proves its invariant ("folding the channel into the agent gives the
  controller's view") and what follows: no protocol error, token conservation, windows that can always be freed,
  exactly-once application, exclusive epochs. `LossyDelivery` proves the parts that survive a network that loses,
  repeats and reorders.
* **Meaning of batches.** `Input` says what a receiver can observe of an event sequence, `Coalesce` merges
  motion, and `Intervals` follows whole runs of the controller: each epoch's batches mean what was accepted.
  `KeptInput` says over whole runs which steps drop accepted input, `TopologyChange` gives the inputs by which
  they do, and `EndToEnd` joins these runs with those of the composed system: what an agent applied for an epoch
  is what was accepted in it.
* **Cursor and focus moves.** `Cursor` compares the saturating micropixel arithmetic with the same computation on
  unbounded integers, `CrossingExample` says where a crossing lands, `FocusMoves` states each focus move, its
  announcement and its failures outright, and `Routing` the whole effect of one event. `CursorRuns` follows the
  cursor over whole runs: it is where the accepted events took it from where the epoch began.
* **Held input.** `Held` (what is down), `Injection` (the worker), `AgentHost` (connections, messages, the
  command queue and the notices coming back), `HostRuns` (how connections begin and end, and what they leave
  behind), `EntryWarps` (the cursor is placed before input resumes) and `Capture` (the controller's side).
* **Application.** `AppliedInput` follows each batch through the agent's host: submitted, executed, confirmed.
  It proves that what an agent confirms was injected, and exactly when that holds; `StaleNotice` is the run in
  which it does not. The commands and notices of `Injection` carry the epoch of their batch, which the original's
  do not; it is recorded for these statements and no branch reads it.
* **Clipboard.** `Clipboard` specifies one side and its invariant for arbitrary inputs, `ClipboardSession` is
  the object, `ClipboardDuplex` is a pair of honest sides that both edit over an unreliable network.
* **Topology.** `Geometry`, `Display`, `Topology` (transitions, stated against pixels), `Connectivity`
  (construction and the breadth-first search) and `Placement` (arming edges, live resizing).
* **Frames and replay.** `Codec` and `Replay`.

The specification functions follow the branches of the original one by one; the classes hold the fields of the
original's structs and their methods are proved to reach exactly the specified state. Theorems are lemmas about
the specification. Rust's integer widths are the subset types of `Base`; saturation, failed conversions and
exhausted counters are written out, and `div_euclid` and truncating `/` are used only where they agree with
Dafny's `/` (a truncating halving of a negative number is written out as `Half` in `Placement`).

## Findings

* Crossings through the left and top edge land one pixel past the requested point, unless the far side of the
  target stops them; through the right and bottom edge they land on it (`CrossingExample.LandsOnRequestExactly`,
  with an instance in `CrossingExample.LeftCrossingLandsPast`).
* The architecture document says that key and button transitions are never dropped. Two steps drop them, and no
  others do (`KeptInput.KeysAreNeverDropped`): returning focus to the local node while one is buffered
  (`TopologyChange.WaitingEventIsDropped`), and a topology change that removes the focused node while one is
  buffered behind a batch in flight (`TopologyChange.WaitingEventIsLost`), after which the next flush fails and
  ends the runtime (`ControllerInvariant.StrandedStays`).
* It also says that events of an old epoch are never injected after a focus change. A topology change made while a
  batch is in flight and something is buffered carries events into the next epoch
  (`TopologyChange.WaitingEventChangesEpoch`); `Intervals.EpochsArePure` says that nothing else does.
* A display change on an agent drops the batch under application but not the notice about it, and the host compares
  only the session generation. If the next epoch brings a batch of the same sequence before that notice, the agent
  confirms and acknowledges a batch that was not injected yet (`StaleNotice.StaleNoticeConfirms`);
  `AppliedInput.ConfirmationsAreGenuine` says exactly when confirmations are right. The agent alone does not
  exclude this; the controller does, as it sends no second batch while the first is unacknowledged
  (`DeliveryTheorems.TokensAreConserved`), and the notice then finds nothing under application and ends the
  connection (`Agent.ConfirmKeepsInv`).
* If the native backend reports the activation of an edge that is not armed while something is held, captured
  input is no longer accepted but what is held is not released (`Capture.IdleHoldsNothingUnless`).
* Exhausted counters do not fail cleanly. `SequenceExhausted` may come after the event has been buffered
  (`ControllerInvariant.RouteAcceptsExactly`). `FocusEpochExhausted` comes after focus and cursor have moved, and
  discards a batch already counted as sent (`FocusMoves.RouteCrossingEnters`).
* `PointerCoordinateOverflow`, and `UnknownPeer` from routing an event, cannot occur
  (`Cursor.PointerDestinationIsExact`, `ControllerInvariant.RouteInputShape`).

## Model

| member | source | states |
|---|---|---|
| DeliveryTheorems.RunKeeps | crates/tevir/src/runtime.rs:1568-1650 | In every state of every run of one controller, any number of agents and first-in first-out channels, folding the messages under way into an agent gives the controller's view of it (highest epoch, active epoch, batches received), and the acknowledgements under way lead from what the controller knows to what the agent applied |
| DeliveryTheorems.NextKeeps | crates/tevir/src/runtime.rs:1846-1880 | Each single step keeps that invariant: any controller operation, control traffic, an arrival at an agent that has nothing under application, a confirmation, an arrival at the controller |
| DeliveryTheorems.NoProtocolErrors | crates/session/src/agent.rs:41-213 | In no reachable state is the next message refused: no stale, inactive or conflicting epoch, gap, position outside the display, pending application, confirmation mismatch, or acknowledgement beyond what was sent |
| DeliveryTheorems.OnlyLocalErrors | crates/session/src/controller.rs:60-245 | The only errors a controller operation can return in a reachable state are misuse of local focus, a missing neighbour, backpressure and exhausted counters |
| DeliveryTheorems.TokensAreConserved | crates/session/src/controller.rs:131-150 | For each peer: inputs under way + batch under application + acknowledgements under way = last sent - last acknowledged = length of the pending queue, at most 1 |
| DeliveryTheorems.WindowCanBeFreed | crates/session/src/controller.rs:131-184 | From every state of the invariant, finitely many deliveries and confirmations of one peer's link, and nothing else, free its window: no window stays occupied for want of a move |
| DeliveryTheorems.AppliedIsPrefixOfSent | crates/session/src/agent.rs:69-89 | Confirmed batches are a prefix of the sent ones, numbered 1, 2, 3, ...; last acknowledged <= last applied <= last sent |
| DeliveryTheorems.EpochsAreExclusive | crates/session/src/controller.rs:262-313 | An epoch active at an agent was announced with that agent as its only target; no two agents share an active epoch; every applied batch was applied at the target of its epoch |
| DeliveryTheorems.RecordsOnlyGrow | crates/session/src/controller.rs:282-313 | Between any two states of a run the announced epochs (target and entry position), the sent and the applied batches only grow, so an epoch never changes its target |
| LossyDelivery.LossyRunKeeps | crates/session/src/agent.rs:93-213 | The invariant that survives a network that loses, repeats and reorders messages and agents whose display changes at any time |
| LossyDelivery.LossyNextKeeps | crates/session/src/controller.rs:154-184 | Under such a network every step keeps the invariant and no acknowledgement that arrives is ever refused |
| LossyDelivery.LossyAppliedIsPrefix | crates/session/src/agent.rs:176-213 | Exactly-once, in-order application under loss, repetition and reordering: confirmed batches are a prefix of the sent ones and last acknowledged <= applied <= sent |
| LossyDelivery.LossyEpochsAreExclusive | crates/session/src/agent.rs:111-174 | Epoch exclusivity under loss, repetition and reordering |
| ControllerInvariant.NewSound | crates/session/src/controller.rs:24-43 | A controller can be created exactly when the local node has a screen, and starts in the invariant: focus on an existing screen, cursor inside it, one delivery per other node, local focus implies an empty buffer |
| FocusMoves.NewCentres | crates/session/src/controller.rs:24-43 | A new controller is in epoch 1 with local focus, the cursor at the middle pixel of the local screen, an empty buffer and nothing sent to any other node |
| ControllerInvariant.FlushSound | crates/session/src/controller.rs:115-152 | A flush keeps the invariant; it sends the whole buffer as the next numbered batch to the focused peer, or leaves everything as it was because the window is occupied, or fails with an exhausted sequence and changes nothing |
| ControllerInvariant.ActivateShape | crates/session/src/controller.rs:60-75 | A successful activation keeps the invariant, sends no batch and announces exactly one epoch to every peer; it fails only with active capture, no neighbour or exhausted epochs |
| ControllerInvariant.RouteInputShape | crates/session/src/controller.rs:77-113 | Routing keeps the invariant, whether it succeeds or fails, and at most sends one batch and then announces one epoch; `InputWhileLocal` exactly for local focus, `Backpressure` exactly for a full buffer that cannot merge the event behind an occupied window, both leaving the state unchanged; no other error but the two exhausted counters |
| ControllerInvariant.RouteAcceptsExactly | crates/session/src/controller.rs:99-113 | For an event of the focused node: `SequenceExhausted` exactly when the event would fill the buffer (or finds it full), the window is free and the last sequence is used, and then the event is buffered and the cursor moved all the same unless the buffer was already full; `Backpressure` exactly on a full buffer that cannot merge it behind an occupied window; anything else is accepted |
| ControllerInvariant.ReturnToLocalShape | crates/session/src/controller.rs:195-205 | Returning focus sends no batch, ends with local focus, and fails only for exhausted epochs |
| ControllerInvariant.AcknowledgeSound | crates/session/src/controller.rs:154-184 | An acknowledgement is accepted exactly for a known peer and a sent sequence; the new window, the new counter, the number of freed batches and each error are stated outright; a refusal changes nothing |
| ControllerInvariant.ResetPeerSound | crates/session/src/controller.rs:186-193 | Resetting a peer changes no other peer; the next flush to it carries sequence 1 |
| ControllerInvariant.ReconcileShape | crates/session/src/controller.rs:207-245 | A topology change that strands nothing keeps the invariant, first sends at most one batch, then announces one epoch to old and new peers alike |
| ControllerInvariant.ReconcileStrandsInput | crates/session/src/controller.rs:215-242 | The invariant "local focus has nothing buffered" survives a topology change exactly when the focused node stays, or the window is free, or nothing is buffered; otherwise the next flush fails with `InputWhileLocal` and discards the events |
| ControllerInvariant.StrandedStays | crates/session/src/controller.rs:60-152 | Once input is stranded with local focus every operation fails or does nothing, and the first flush discards it |
| TopologyChange.SecondEventWaits | crates/session/src/controller.rs:115-152 | From any start on any topology with a crossing, two discrete events with a flush between them fill the window and leave the second one waiting in epoch 2 |
| TopologyChange.WaitingEventChangesEpoch | crates/session/src/controller.rs:215-242 | A topology change then succeeds and moves the waiting event into epoch 3: an input by which epoch purity fails |
| TopologyChange.WaitingEventIsLost | crates/session/src/controller.rs:223-229 | A topology change that removes the focused node leaves the waiting event with local focus, and the next flush fails and discards it |
| TopologyChange.WaitingEventIsDropped | crates/session/src/controller.rs:195-205 | Returning focus while the second event waits succeeds, sends no batch and leaves nothing buffered: from any start on any topology with a crossing, an accepted key or button event that reaches no batch |
| FocusMoves.ActivateEnters | crates/session/src/controller.rs:60-75 | Activation succeeds exactly when focus is local, the edge leads somewhere and an epoch is left; the new focus, the cursor (the facing pixel), the announcement to every peer and each error are stated outright; with no epoch left focus and cursor have moved unannounced, any other failure changes nothing |
| FocusMoves.RouteCrossingEnters | crates/session/src/controller.rs:92-103 | The whole outcome of a crossing motion: nothing at all behind an occupied window with something buffered; a refusal without effect when the batch to send has no sequence left; otherwise the buffer leaves as a batch and focus and cursor move to the node and pixel reached, announced in the next epoch; with no epoch left they move unannounced and the batch counted as sent is in no action |
| FocusMoves.ReturnCentres | crates/session/src/controller.rs:195-205 | Returning focus drops the buffer and puts the cursor at the middle pixel of the local screen (as many pixels before as behind, or one more), announced with a capture release; it succeeds exactly when focus is local already or an epoch is left, and otherwise fails after the move |
| FocusMoves.ReconcilePlaces | crates/session/src/controller.rs:207-245 | After a topology change the focus is kept with the cursor clamped into the new size, or is back at the middle pixel of the local screen; one epoch has passed |
| FocusMoves.ReconcileFailsExactly | crates/session/src/controller.rs:207-245 | A topology change is refused, with nothing changed, exactly when the local node has no screen in it or what is buffered can no longer be numbered; it fails with no epoch left; in every other case it succeeds |
| FocusMoves.ObservedPositionIsExact | crates/session/src/controller.rs:393-429 | Observing a motion is exact integer addition followed by clamping into the focused screen; the 64-bit saturation never shows |
| Base.ClampIsNearest | crates/session/src/controller.rs:393-429 | Clamping keeps a value in its range at the smallest distance |
| FocusMoves.AnnouncedIsPixel | crates/session/src/controller.rs:479-484 | The position a focus message announces is the pixel the cursor is in |
| Routing.CrossingIsExact | crates/session/src/controller.rs:315-391 | Which events cross: exactly the relative motions that leave the focused screen where the edge they leave by (left or right before top or bottom) leads to another screen, at the offset and to the pixel that exact integers give |
| Routing.AcceptedExactly | crates/session/src/controller.rs:99-113 | The whole effect of an accepted event: the cursor is the exact sum, or the absolute point, clamped into the screen, whatever the buffer holds; the event is merged or appended; the buffer leaves as one batch exactly when it is full and the window is free, before the event when there is no room for it |
| CursorRuns.CursorIsSteered | crates/session/src/controller.rs:393-429 | In every state of every run the cursor is where the events accepted in this epoch, one after the other, have steered it from where it was when the epoch began |
| CursorRuns.EpochsBeginPlaced | crates/session/src/controller.rs:60-245 | In every run an epoch begins with focus and cursor at the facing pixel of an activated edge, at the exact pixel a crossing motion reaches, at the middle of the local screen, or, when the arrangement changes around the focus, at the nearest pixel of its screen; nothing else begins one |
| Cursor.PointerDestinationIsExact | crates/session/src/controller.rs:315-391 | For every motion the saturating computation returns exactly the destination of the same computation on unbounded integers in whole pixels; coordinate overflow and unknown peer are unreachable |
| Cursor.CrossingLandsOnRequestedPixel | crates/session/src/controller.rs:357-391 | A crossing keeps the perpendicular global pixel when the requested one lies within the source edge; along the crossing axis it lands on the requested pixel for Right and Bottom and exactly one pixel past it for Left and Top, clamped into the target |
| CrossingExample.LandsOnRequestExactly | crates/session/src/controller.rs:357-391 | A crossing lands on the requested pixel, clamped into the target, exactly when it goes right or down or the request lies at the far side of the target or beyond it; otherwise it lands one pixel past it |
| CrossingExample.LeftCrossingLandsPast | crates/session/src/controller.rs:371-381 | Two screens of 100 by 100 side by side, the cursor in the corner of the right one: one micropixel to the left asks for column 99 of the left one and lands on column 98 |
| ControllerSessions.ControllerSession.FlushEvents | crates/session/src/controller.rs:115-152 | The method reaches exactly the state and result of the `Flush` specification, whose properties the lemmas above prove |
| ControllerSessions.ControllerSession.MoveFocus | crates/session/src/controller.rs:262-280 | The method reaches exactly the state and result of the `ChangeFocus` specification |
| ControllerSessions.ControllerSession.AdvanceEpoch | crates/session/src/controller.rs:282-313 | The method advances the epoch and broadcasts, or fails with exhausted epochs, as specified |
| ControllerSessions.ControllerSession.ActivateEdge | crates/session/src/controller.rs:60-75 | The method reaches exactly the state and result of the `Activate` specification |
| ControllerSessions.ControllerSession.Route | crates/session/src/controller.rs:77-113 | The method reaches exactly the state and result of the `RouteInput` specification |
| ControllerSessions.ControllerSession.AcknowledgeThrough | crates/session/src/controller.rs:154-184 | The loop that pops the pending queue reaches exactly the specified window, counter and number of freed batches |
| ControllerSessions.ControllerSession.Reset | crates/session/src/controller.rs:186-193 | The method reaches exactly the state and result of the `ResetPeer` specification |
| ControllerSessions.ControllerSession.ReturnFocus | crates/session/src/controller.rs:195-205 | The method reaches exactly the state and result of the `ReturnToLocal` specification |
| ControllerSessions.ControllerSession.Reconcile | crates/session/src/controller.rs:207-245 | The method reaches exactly the state and result of the `ReconcileTopology` specification |
| ControllerSessions.ControllerSession.Open | crates/session/src/controller.rs:24-43 | Construction yields exactly the specified initial state, or the specified error |
| Coalesce.PushPreservesMeaning | crates/session/src/coalesce.rs:10-55 | Merging an event into the buffer keeps what a receiver observes (every key, button and scroll in order, each at the same cursor, and the final cursor) if and only if no sum of displacements leaves the i64 range |
| Coalesce.PushKeepsNonMotion | crates/session/src/coalesce.rs:22-55 | Merging never touches a key, button or scroll event, not even when a displacement saturates |
| Coalesce.PushKeepsCompact | crates/session/src/coalesce.rs:22-55 | Adjacent motions of one kind never stay apart |
| Coalesce.MergedExactly | crates/session/src/coalesce.rs:22-55 | A merged motion happens at the later of the two times, so that buffering keeps events in the order of their times; it moves by the sum, or by the nearest 64-bit value to it, or to the newer absolute point |
| Base.SaturationIsNearest | crates/session/src/coalesce.rs:22-55 | A saturated sum is the 64-bit integer nearest to the exact one |
| CursorRuns.BatchesAreCompact | crates/session/src/controller.rs:99-152 | Coalescing is complete: over whole runs no batch sent, and no buffer, holds two adjacent motions of one kind |
| Coalesce.EventBuffer.PushEvent | crates/session/src/coalesce.rs:22-55 | The buffer becomes exactly the specified merge or append; true exactly at the batch limit |
| Coalesce.EventBuffer.Take | crates/session/src/coalesce.rs:57-59 | Returns the whole buffer and empties it |
| Intervals.BatchesPreserveMeaning | crates/session/src/controller.rs:77-152 | In every run, stranding included, the batches of each epoch, of 1 to 512 events each, followed by what was left unsent, hold exactly the keys, buttons and scrolls carried in and accepted, in order and each once; and unless a merge saturated they are observed exactly like them, each at the same cursor |
| Intervals.EpochsArePure | crates/session/src/controller.rs:115-152 | Over every run, stranding included: no event is carried from one epoch into another if and only if every topology change found the buffer empty or the focused peer's window free |
| KeptInput.DropsAreExact | crates/session/src/controller.rs:195-245 | Over every run: what an epoch leaves unsent is what the next one starts from, and nothing waits where it can never be sent, if and only if no step returned focus, or removed the focused node behind an occupied window, while something was buffered; stated for all events and for keys, buttons and scrolls alone |
| KeptInput.KeysAreNeverDropped | docs/architecture.md:154-158 | Over every run: the keys, buttons and scrolls in all batches sent, followed by those still to be sent, are exactly those accepted, in order and each once, if and only if no such step was taken while one of them was buffered |
| EndToEnd.RunStaysJoined | crates/session/src/controller.rs:115-152 | In every run of the composed system the batches sent to a node for an epoch are exactly those the controller recorded for it when that node is the target, and none otherwise |
| EndToEnd.AppliedIsAccepted | crates/tevir/src/runtime.rs:1568-1650 | End to end: once a node has its window free, the batches its agent applied for an epoch it is the target of, followed by what that epoch left unsent, hold exactly the keys, buttons and scrolls carried into and accepted in it and, unless a merge saturated, are observed alike; with an empty buffer the current epoch leaves nothing unsent |
| Agent.HandleKeepsInv | crates/session/src/agent.rs:41-67 | For arbitrary messages: the active epoch is the highest one and targets this node, a pending batch belongs to it and is the next in sequence; an error changes nothing; epochs never go back; handling never advances the applied sequence |
| Agent.ConfirmKeepsInv | crates/session/src/agent.rs:69-89 | A confirmation is accepted exactly for the pending batch, which is the next in sequence, and advances the applied sequence by one |
| Agent.ActionsMatchChange | crates/session/src/agent.rs:111-221 | The actions say exactly what changed: focus is entered exactly when an epoch becomes active here, at the announced position inside the display; a release comes first whenever the active epoch ends; a batch is applied exactly when it becomes pending; an acknowledgement names what was applied |
| Agent.InputIsTakenExactly | crates/session/src/agent.rs:176-213 | A batch is taken exactly when it is the next one of the active epoch and nothing is pending; an applied one only repeats the acknowledgement; all others are refused without effect |
| Agent.RefusalsExplain | crates/session/src/agent.rs:176-213 | A refused batch is refused for a reason that is there: each error names what is wrong with the batch |
| Agent.FocusIsTakenExactly | crates/session/src/agent.rs:111-174 | Every focus message: an older epoch or an exact repetition of the current one changes nothing, a different one for the current epoch is a conflict, a newer one is refused only while a batch is under application or for a position outside the display, and otherwise releases and enters as announced |
| Agent.DisplayChangesExactly | crates/session/src/agent.rs:93-104 | A display change records the size, ends the active epoch, drops the batch under application and changes nothing else; the last focus message may be repeated, and the next local epoch is entered exactly when its position lies in the new size |
| Agent.ControlIsAnsweredExactly | crates/session/src/agent.rs:41-67 | A heartbeat is answered with its own nonce, clipboard control is passed on, a controller's own messages are refused, a disconnect releases and closes |
| Agent.ClosedRefuses | crates/session/src/agent.rs:41-72 | A closed session refuses every message and confirmation and stays as it is |
| Agent.AgentSession.HandleMessage | crates/session/src/agent.rs:41-67 | The method reaches exactly the state and result of the `Handle` specification |
| Agent.AgentSession.Confirm | crates/session/src/agent.rs:69-89 | The method reaches exactly the state and result of the `ConfirmApplied` specification |
| Agent.AgentSession.EnterFocus | crates/session/src/agent.rs:111-174 | The method reaches exactly the state and result of the `ChangeFocus` specification |
| Agent.AgentSession.AcceptInput | crates/session/src/agent.rs:176-213 | The method reaches exactly the state and result of the `ReceiveInput` specification |
| Agent.AgentSession.Reconcile | crates/session/src/agent.rs:93-104 | The method drops the active epoch and the pending batch and asks for a release |
| HeldState.HeldInput.Observe | crates/platform/src/state.rs:12-34 | The held sets follow each press, repeat and release |
| HeldState.HeldInput.ReleaseAll | crates/platform/src/state.rs:36-53 | Returns, keys first, one release for each held key and button and for nothing else, without repetition, and empties the sets |
| HeldState.ObserveTracks | crates/platform/src/state.rs:12-34 | The held set stays equal to what is down: pressed in the stream and not released since |
| HeldState.ReleasesLetGo | crates/platform/src/state.rs:36-53 | Whatever the order of the releases, nothing is down after them |
| Injection.InjectionWorker.Run | crates/platform/src/service.rs:610-673 | Each command has exactly its specified effect on the held set, the native stream and the notices, whichever events and cursor warps the native backend refuses |
| Injection.InjectionWorker.RunBatch | crates/platform/src/service.rs:615-653 | The loop over a batch injects exactly the accepted events, in order, and reports the batch applied exactly when none was refused |
| Injection.InjectionWorker.LetGo | crates/platform/src/service.rs:702-722 | Releases everything held and reports it |
| Injection.ConsumeKeeps | crates/platform/src/service.rs:630-646 | Injecting for the owner of everything held keeps the stream separated by session and epoch |
| Injection.RefusalsAreReported | crates/platform/src/service.rs:615-663 | A command of the current session posts one failure for each event, or warp, that the native backend refuses; a command of another session, or a release, posts none |
| AgentHost.HeldInputNeverLeaks | crates/tevir/src/runtime.rs:1846-1880 | In every run of connections, arbitrary messages, notices (display changes, failures and the end of the worker among them) and disconnections over the command queue: the held set is what the injected stream leaves down, and between a press for one session and epoch and any event injected for another, the key or button was released |
| AgentHost.NoFocusHoldsNothing | crates/platform/src/service.rs:655-700 | Once the worker has caught up, an agent without active focus holds nothing; a stopped worker never does |
| HostRuns.LeavingLetsGo | crates/tevir/src/runtime.rs:1536-1579 | In every run, after a disconnection and until the next connection, the worker holds nothing once it has caught up or has stopped |
| HostRuns.DisplayIsKnown | crates/tevir/src/runtime.rs:1718-1757 | In every run a connected agent has the size of the desktop the host last read about, which is the one the worker saw last as soon as no notice of a change is waiting |
| HostRuns.ConnectionEndsExactly | crates/tevir/src/runtime.rs:1536-1790 | In every run a connection ends exactly when it is left, when a message or a confirmation is refused, or when the worker reports a failure or its end; until then its generation stays |
| HostRuns.ConnectionBeginsExactly | crates/tevir/src/runtime.rs:1467-1489 | A connection begins exactly when nothing the worker reported before says that it failed or stopped: with a generation never used before, a new agent that knows the last desktop reported, and the worker told |
| HostRuns.FailuresEndConnections | crates/tevir/src/runtime.rs:1750-1826 | When a failure, or the end of the worker, waits among the notices, reading them ends the connection; and a worker that stops always leaves such a notice |
| HostRuns.EnteringWarps | crates/tevir/src/runtime.rs:1846-1858 | A newer focus message for this node that the agent accepts queues, after the release an active epoch needs, the warp of this session to exactly the announced position |
| EntryWarps.WarpsComeFirst | crates/tevir/src/runtime.rs:1846-1866 | In every run, whenever a batch of some session and epoch is queued, the last warp queued before it was for that session and to the position a focus message announced for that epoch; and the queue is what was queued, in order, less what the worker took off its front |
| AgentHost.GateIsPendingBatch | crates/tevir/src/runtime.rs:1568-1640 | The runtime flag that holds back control messages is set exactly while the agent has a batch under application |
| AgentHost.HandleAnswers | crates/session/src/agent.rs:153-174 | An agent's answer releases before it leaves an active epoch, and applies input only for the epoch that is active |
| AppliedInput.ConfirmedIsInjected | crates/tevir/src/runtime.rs:1759-1787 | Exactly-once application down to the native stream: in every run, for a connection that lost no batch to a display change, the events injected for it are those of the batches its agent confirmed, whole, in order and each once, followed by at most a part of the next one submitted; so each confirmation follows the complete injection of its own batch |
| AppliedInput.InjectedIsSubmitted | crates/platform/src/service.rs:610-673 | Without exception: what is injected for a connection is what the backend took of its submitted batches, in order and each once, up to those still queued |
| AppliedInput.SubmittedIsConfirmedExactly | crates/tevir/src/runtime.rs:1718-1787 | The batches a connection submitted are those its agent confirmed and the one under application if and only if no display change dropped one |
| AppliedInput.NoticeIsForPending | crates/tevir/src/runtime.rs:1759-1787 | In a connection that lost no batch, the next notice of an applied batch is about the batch under application, which was injected completely, and the agent confirms it |
| AppliedInput.ConfirmationsAreGenuine | crates/tevir/src/runtime.rs:1759-1787 | In every run, each confirmation is of the very batch its notice is about if and only if none was taken in a connection in which a display change had dropped a batch |
| StaleNotice.StaleNoticeConfirms | crates/tevir/src/runtime.rs:1718-1787 | A run in which it is not: the display changes while the first batch is queued, the next epoch begins with a batch of its own, and the notice about the first one confirms the second, of which nothing was injected |
| Capture.CaptureWorker.Handle | crates/platform/src/service.rs:444-543 | Each command and native event has exactly its specified effect on the armed edges, the accepting flag, the held set and the emitted stream |
| Capture.HeldIsEmitted | crates/platform/src/service.rs:444-562 | In every run the held set is what the emitted stream leaves down |
| Capture.SignalsDecide | crates/platform/src/service.rs:452-510 | In every run the armed edges are those of the last configuration, and input is accepted exactly when an edge armed at that point was activated and only captured input, or a configuration that changed nothing, came since |
| Capture.EmittedIsSeen | crates/platform/src/service.rs:444-543 | In every run the emitted stream is every event seen while capturing, in order and each once, with the releases of what ended a capture between them, and nothing else |
| Capture.IdleHoldsNothingUnless | crates/platform/src/service.rs:488-510 | Over every run: each state that is not accepting input holds nothing if and only if no step was an activation of an edge that is not armed while something was held |
| Capture.UnarmedActivationKeepsHolding | crates/platform/src/service.rs:499-505 | A run that reaches the exception: the key stays down while input is no longer accepted |
| ClipboardData.VerifyIsOwnOffer | crates/protocol/src/clipboard.rs:42-57 | An offer accepts a text of permitted length exactly when it is the offer that text would make: the same generation, its length and its digest |
| ClipboardProtocol.RunKeeps | crates/session/src/clipboard.rs:41-344 | For arbitrary inputs: last applied < applying < incoming = highest seen (where present), a complete incoming pair waits only behind an application, and every pair holds only what was received |
| ClipboardProtocol.StateInvariantUnreachable | crates/session/src/clipboard.rs:90-344 | For arbitrary inputs the `StateInvariant` error is never returned |
| ClipboardProtocol.AppliedOnceInOrder | crates/session/src/clipboard.rs:314-344 | For arbitrary inputs the texts handed to the platform have strictly increasing generations of the peer, and each was received together with an offer that verifies it |
| ClipboardProtocol.ConfirmKeepsInv | crates/session/src/clipboard.rs:125-164 | A confirmation succeeds exactly for the generation being applied, makes it the last applied one, and starts the pair waiting behind it |
| ClipboardProtocol.AcknowledgementKeepsInv | crates/session/src/clipboard.rs:216-251 | An acknowledgement is accepted exactly for an own generation that was sent; the acknowledged counter becomes the larger of the two and the pending generation is cleared exactly when it is covered; a refusal changes nothing |
| ClipboardProtocol.TransferIsTakenExactly | crates/session/src/clipboard.rs:90-123 | Every text, from every state: a foreign owner is refused, an applied or older generation is ignored, a text already held may be repeated but not changed, a new one begins or completes the pair of the newest generation, which is refused and dropped unless it verifies and applied unless another application is under way |
| ClipboardProtocol.OfferIsTakenExactly | crates/session/src/clipboard.rs:181-214 | The same for every offer |
| ClipboardDuplex.RunKeepsLinked | crates/session/src/clipboard.rs:41-251 | Two parties that both edit, over a network that loses, repeats and reorders: each side holds exactly the genuine offers and texts that arrived of the newest generation seen |
| ClipboardDuplex.ActionsMatchRecords | crates/session/src/clipboard.rs:41-164 | What goes on the network is what the system records: an edit sends exactly the offer and text it logs, a confirmation exactly its acknowledgement, and a text is handed to the platform exactly when its pair enters application, as the sender announced it |
| ClipboardDuplex.NothingIsRefused | crates/session/src/clipboard.rs:41-251 | Between them no offer, text, confirmation or acknowledgement is ever refused; an edit is refused exactly for a new text that is too long or when sequences have run out |
| ClipboardDuplex.NewestWins | crates/session/src/clipboard.rs:90-344 | Once the last generation's offer and text have arrived and nothing is being applied: last applied = highest seen = last sent, the remembered text is the one sent, and once the acknowledgement arrives the sender has nothing pending |
| ClipboardDuplex.DrainConverges | crates/session/src/clipboard.rs:90-164 | From every reachable state, delivering the last offer and text and confirming at most twice applies exactly that generation |
| ClipboardDuplex.EchoAnnouncesNothing | crates/session/src/clipboard.rs:41-58 | A change notification that repeats the text just confirmed announces nothing and changes nothing |
| ClipboardDuplex.EchoIsSuppressedExactly | crates/session/src/clipboard.rs:41-75 | At any point of any run a change notification is suppressed exactly when it repeats the text last confirmed, with no announced edit since; any later echo is suppressed like the first, and one after an edit is announced |
| ClipboardDuplex.StagesAs | crates/session/src/clipboard.rs:253-290 | Where a message of the peer belongs: ignored or answered when its generation is old or under application, otherwise with the pair of that generation, newer ones replacing older |
| ClipboardSessions.ClipboardSession.ChangeLocal | crates/session/src/clipboard.rs:41-75 | The method reaches exactly the state and result of the `LocalChanged` specification |
| ClipboardSessions.ClipboardSession.HandleControl | crates/session/src/clipboard.rs:77-88 | The method reaches exactly the state and result of the `ReceiveControl` specification |
| ClipboardSessions.ClipboardSession.HandleTransfer | crates/session/src/clipboard.rs:90-123 | The method reaches exactly the state and result of the `ReceiveTransfer` specification |
| ClipboardSessions.ClipboardSession.HandleOffer | crates/session/src/clipboard.rs:181-214 | The method reaches exactly the state and result of the `ReceiveOffer` specification |
| ClipboardSessions.ClipboardSession.HandleAcknowledgement | crates/session/src/clipboard.rs:216-251 | The method reaches exactly the state and result of the `ReceiveAcknowledgement` specification |
| ClipboardSessions.ClipboardSession.Confirm | crates/session/src/clipboard.rs:125-164 | The method reaches exactly the state and result of the `ConfirmApplied` specification |
| ClipboardSessions.ClipboardSession.Stage | crates/session/src/clipboard.rs:253-290 | The method reaches exactly the state and result of the `StageGeneration` specification |
| ClipboardSessions.ClipboardSession.Begin | crates/session/src/clipboard.rs:314-344 | The method moves a complete, verified incoming pair into application, as specified |
| Geometry.OverlapIsCommonPixel | crates/domain/src/geometry.rs:57-62 | Two rectangles overlap exactly when some pixel lies in both, by origin, width and height |
| Display.DesktopLayout.Validate | crates/domain/src/display.rs:78-119 | The loop with its four flags accepts exactly the layouts with 1 to 32 monitors, short names, all inside, reaching all four sides; each refusal names a defect that is there |
| Display.EdgeSegmentsAreEdgeOffsets | crates/domain/src/display.rs:129-198 | The segment list and the offset test describe the same offsets of an edge, and every segment is non-empty |
| Display.SegmentsFollowMonitors | crates/domain/src/display.rs:166-198 | The segments of an edge are those of the monitors that reach it, in the order of the monitors |
| Display.ExposedOffsetIsMonitorPixel | crates/domain/src/display.rs:129-164 | An offset is exposed exactly when the desktop's edge pixel there lies on a monitor |
| Topology.TryEnterIsFaces | crates/domain/src/topology.rs:144-225 | The candidate test accepts exactly the screens with a monitor pixel directly across the exit pixel, and enters at that pixel |
| Topology.CrossReachesFacingScreen | crates/domain/src/topology.rs:131-233 | A transition reaches exactly the facing screen, at the facing pixel; no integer conversion ever turns one away |
| Topology.CrossIffFaced | crates/domain/src/topology.rs:131-233 | A transition exists exactly when some screen faces the exit pixel |
| Topology.FacingScreenIsUnique | crates/domain/src/topology.rs:131-233 | At most one screen faces an exit pixel |
| Topology.CrossBackReturns | crates/domain/src/topology.rs:131-233 | Crossing back through the opposite edge at the entry offset returns to the source screen at the pixel that was left |
| Topology.CrossIgnoresOrder | crates/domain/src/topology.rs:131-233 | The result of a transition does not depend on the order of the screens |
| Connectivity.SharesExposedEdgeSymmetric | crates/domain/src/topology.rs:261-332 | Sharing an exposed edge is symmetric |
| Connectivity.SharedEdgeIsCrossable | crates/domain/src/topology.rs:261-332 | Two screens share an exposed edge exactly when some offset transitions from one to the other |
| Connectivity.ConnectedScreenIndexes | crates/domain/src/topology.rs:240-259 | The breadth-first search terminates although indexes are queued repeatedly, and returns exactly the screens linked to the first |
| Connectivity.NewTopology | crates/domain/src/topology.rs:61-110 | Construction accepts exactly the valid topologies and every refusal names a defect that is there |
| Connectivity.CheckUniqueNodes | crates/domain/src/topology.rs:66-71 | Finds no duplicate exactly when all nodes differ |
| Connectivity.CheckScreens | crates/domain/src/topology.rs:73-97 | Finds no defect exactly when all screens are valid and pairwise disjoint |
| Connectivity.ConnectedIffNavigable | crates/domain/src/topology.rs:61-332 | Valid disjoint screens are connected exactly when every node can be reached from every other by a chain of transitions |
| Placement.SharedEdgeOffsetCrosses | crates/tevir/src/runtime.rs:2233-2288 | The chosen offset transitions to that candidate; none is chosen only when no offset does |
| Placement.SharedOffsetIsMiddle | crates/tevir/src/runtime.rs:2262-2287 | The chosen offset is the middle, or the lower of two, of the first stretch over which a segment of the source's edge faces one of the candidate's |
| Placement.ReportedPositionIsNearest | crates/tevir/src/runtime.rs:2214-2223 | A reported position activates the pixel nearest to it, from the first at 0 to the last at 1, and the target is the screen that the crossing there reaches, if any |
| Placement.ActivationTargetCrosses | crates/tevir/src/runtime.rs:2208-2231 | The activation target is entered at the chosen offset; there is none exactly when the edge leads nowhere |
| Placement.ActivationTargetIsFirst | crates/tevir/src/runtime.rs:2224-2230 | The target is the first screen, in the order of the arrangement, to which the edge leads at all |
| Placement.CaptureEdgesAreExact | crates/tevir/src/runtime.rs:2136-2148 | An edge is armed exactly when it is enabled and some offset on it has a transition |
| Placement.ResizeTopologyScreen | crates/tevir/src/runtime.rs:2150-2206 | A resize succeeds exactly when the arrangement with only that screen moved and resized is valid, and returns that arrangement; each error is stated |
| Placement.ResizedOrigin | crates/tevir/src/runtime.rs:2163-2194 | The loop over the neighbours ends at the anchored origin |
| Placement.ResizeKeepsTouchedSide | crates/tevir/src/runtime.rs:2163-2194 | When all touching neighbours on an axis are on one side that side stays; when none touches, the centre stays, or moves by half a pixel, up when the screen grows and down when it shrinks |
| Placement.LastTouchDecides | crates/tevir/src/runtime.rs:2166-2184 | When neighbours touch on both sides of an axis, the last of them in the arrangement decides which side stays |
| Placement.TwoScreensStayFlush | crates/tevir/src/runtime.rs:2150-2206 | In a two-screen topology the shared edge stays flush through a resize |
| Codec.FragmentationIsInvisible | crates/protocol/src/codec.rs:45-68 | For any bytes, valid or not, cut into any pieces: the reader gets the same messages and the same failure as from the whole, and keeps the same rest |
| Codec.StreamRoundTrip | crates/protocol/src/codec.rs:30-68 | The encodings of any messages, in any pieces and possibly broken off inside the next frame, are read back as exactly those messages with only the broken-off bytes kept |
| Codec.WholeStreamRoundTrip | crates/protocol/src/codec.rs:30-68 | With nothing broken off, the buffer ends empty |
| Codec.EncodeDecode | crates/protocol/src/codec.rs:30-68 | Decoding an encoded message gives it back and leaves exactly what followed it |
| Codec.PrefixRoundTrip | crates/protocol/src/codec.rs:35-56 | The length prefix, most significant byte first, and the length determine each other |
| Codec.EncodesExactly | crates/protocol/src/codec.rs:30-43 | A message is encoded exactly when the check and the serializer accept it and it is no longer than the maximum, as four bytes that hold its length and the serialized bytes; otherwise the error names the reason |
| Codec.DecodesExactly | crates/protocol/src/codec.rs:45-68 | Fewer than four bytes are waited for, a length beyond the maximum is refused at once, an incomplete frame is waited for untouched, and a whole one is taken off exactly, whether or not it holds a message |
| Codec.OversizedIsRefused | crates/protocol/src/codec.rs:45-56 | An announced length beyond the maximum, in any pieces, is refused after exactly the messages before it, whatever follows |
| Codec.FrameCodec.Open | crates/protocol/src/codec.rs:17-28 | A codec is created exactly for a maximum of 1 to 16 MiB |
| Codec.FrameCodec.EncodeMessage | crates/protocol/src/codec.rs:30-43 | The method returns exactly the specified frame or error |
| Codec.FrameCodec.DecodeNext | crates/protocol/src/codec.rs:45-68 | The method changes the buffer in place exactly as the `Decode` specification says |
| Replay.ReplayGuard.Admit | crates/transport/src/replay.rs:22-34 | The set and the queue always hold the same entries: the `capacity` most recently admitted pairs, without repetition; a pair is refused exactly when it is one of them |
| Replay.ReadmissionsAreFarApart | crates/transport/src/replay.rs:22-34 | Over any attempts, two admissions of the same pair have at least `capacity` other admissions between them |
| Replay.AdmittedAreAttempted | crates/transport/src/replay.rs:22-34 | Every attempted pair was admitted at some point, and nothing else was |

## Left out

- Intervals.BatchesPreserveMeaning: of an epoch in which a merged displacement left the i64 range it says which
  keys, buttons and scrolls were sent, but not at which cursor.
- EndToEnd.AppliedIsAccepted: about the first-in first-out network, and about a node whose window is free; events
  still in flight are counted by `DeliveryTheorems.TokensAreConserved`.
- Injection.InjectionWorker.LetGo: releases to the native backend succeed, while the original reports one that
  fails.
- AgentHost.HeldInputNeverLeaks: assumes that native releases succeed; injected events and cursor warps may fail.
- DeliveryTheorems.RunKeeps: agents keep the display size the topology gives them, and no peer reconnects.
- Order of recipients: a broadcast carries the set of its recipients; the original sends in identifier order.
- Node identifier syntax, monitor scale and rotation, and text of errors: nothing modelled reads them.
- QUIC, TLS, pairing, trust files, discovery, configuration and the user interface: foreign libraries or easy
  registries.
- Postcard and SHA-256: a serializer with its inverse and a digest function are parameters; collision freedom is
  not assumed. The message check of a frame is a parameter of `Codec` too; the batch bounds it enforces
  (`crates/protocol/src/message.rs:130-140`) are proved of every sent batch by `Intervals.BatchesPreserveMeaning`.
- Wall-clock timers, switch delay, heartbeat timeouts, reconnect delays and bounded queues that overflow: each
  ends or delays a run; a run here is any interleaving.
- Placement.ReportedPositionIsNearest: computes over real numbers; the rounding of 64-bit floating point and
  positions that are not numbers are not modelled.
- Reconnects and peer resets in the composed delivery systems, agent display changes in the first-in first-out
  one (the lossy one has them), and the runtime's repetition of the current focus after an unchanged display
  report (`crates/tevir/src/runtime.rs:1103-1111`), which can conflict with the first announcement of the epoch.
  `ControllerInvariant.ResetPeerSound` covers the reset of one controller.
- Node sets that change during a composed run: the composed systems allow only topology changes that keep the
  nodes and the agents' desktop sizes; single-machine results allow any.
- A controller operation that returns an error ends a run, as it ends the runtime.
- The agreement of two clipboards whose owners both keep editing: each direction converges separately.
- Unicode: a clipboard text is its UTF-8 bytes.
