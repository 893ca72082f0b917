/** One side of a clipboard session: its state, its operations, and what they keep for arbitrary inputs. */
module ClipboardProtocol {
  import opened Base
  import opened ClipboardData

  datatype Incoming = Incoming(generation: Generation, offer: Option<Offer>, transfer: Option<Transfer>) {
    predicate Ready() {
      offer.Some? && transfer.Some?
    }
  }

  datatype State = State(
    localNode: NodeId,
    peerNode: NodeId,
    nextLocalSequence: Option<NonZeroU64>,
    lastSent: U64,
    lastAcknowledged: U64,
    lastApplied: U64,
    highest: U64,
    pendingLocal: Option<Generation>,
    incoming: Option<Incoming>,
    applying: Option<Incoming>,
    remoteText: Option<Text>)

  datatype Action = SendControl(control: Control) | SendTransfer(transfer: Transfer) | ApplyRemote(transfer: Transfer)

  datatype Error =
    | Invalid(error: ClipboardError)
    | LocalSequenceExhausted
    | UnexpectedGenerationOwner(expected: NodeId, received: NodeId)
    | AcknowledgementBeyondSent(acknowledged: U64, lastSent: U64)
    | ConflictingOffer(generation: Generation)
    | ConflictingTransfer(generation: Generation)
    | NoApplicationPending
    | ApplicationGenerationMismatch(pending: Generation, confirmed: Generation)
    | StateInvariant

  datatype Outcome = Outcome(state: State, result: Result<seq<Action>, Error>)

  datatype Stage = Ignore | Applying | Fresh

  function New(localNode: NodeId, peerNode: NodeId): State {
    State(localNode, peerNode, Some(1), 0, 0, 0, 0, None, None, None, None)
  }

  function LocalChanged(s: State, text: Text, hash: Hash): Outcome {
    if s.remoteText == Some(text) then Outcome(s, Ok([]))
    else match s.nextLocalSequence
      case None => Outcome(s, Err(LocalSequenceExhausted))
      case Some(sequence) =>
        var generation := Generation(s.localNode, sequence);
        match NewTransfer(generation, text)
        case Err(error) => Outcome(s, Err(Invalid(error)))
        case Ok(transfer) =>
          Outcome(s.(nextLocalSequence := if sequence == U64_MAX then None else Some(sequence + 1),
                     lastSent := sequence, pendingLocal := Some(generation), remoteText := None),
                  Ok([SendControl(Offered(OfferOf(transfer, hash))), SendTransfer(transfer)]))
  }

  // Where an offer or a text of this generation belongs.
  function StageGeneration(s: State, generation: Generation): (State, Result<Stage, Error>) {
    if generation.owner != s.peerNode then (s, Err(UnexpectedGenerationOwner(s.peerNode, generation.owner)))
    else if generation.sequence <= s.lastApplied || generation.sequence < s.highest then (s, Ok(Ignore))
    else if s.applying.Some? && s.applying.value.generation == generation then (s, Ok(Applying))
    else
      var staged :=
        if generation.sequence > s.highest then
          s.(highest := generation.sequence, incoming := Some(Incoming(generation, None, None)))
        else if s.incoming.None? then s.(incoming := Some(Incoming(generation, None, None)))
        else s;
      if staged.incoming.None? || staged.incoming.value.generation != generation then (staged, Err(StateInvariant))
      else (staged, Ok(Fresh))
  }

  function ValidateIncoming(s: State, hash: Hash): Result<(), Error> {
    if s.incoming.Some? && s.incoming.value.Ready() then
      match Verify(s.incoming.value.offer.value, s.incoming.value.transfer.value, hash)
      case Err(error) => Err(Invalid(error))
      case Ok(_) => Ok(())
    else Ok(())
  }

  function BeginApplication(s: State, hash: Hash): Outcome {
    if s.applying.Some? then Outcome(s, Ok([]))
    else if s.incoming.None? || !s.incoming.value.Ready() then Outcome(s, Ok([]))
    else
      var incoming := s.incoming.value;
      var taken := s.(incoming := None);
      match Verify(incoming.offer.value, incoming.transfer.value, hash)
      case Err(error) => Outcome(taken, Err(Invalid(error)))
      case Ok(_) => Outcome(taken.(applying := Some(incoming)), Ok([ApplyRemote(incoming.transfer.value)]))
  }

  function FinishIncoming(s: State, hash: Hash): Outcome {
    match ValidateIncoming(s, hash)
    case Err(error) => Outcome(s.(incoming := None), Err(error))
    case Ok(_) => if s.applying.Some? then Outcome(s, Ok([])) else BeginApplication(s, hash)
  }

  function ReceiveTransfer(s: State, transfer: Transfer, hash: Hash): Outcome {
    var (staged, stage) := StageGeneration(s, transfer.generation);
    match stage
    case Err(error) => Outcome(staged, Err(error))
    case Ok(Ignore) => Outcome(staged, Ok([]))
    case Ok(Applying) =>
      if staged.applying.None? then Outcome(staged, Err(StateInvariant))
      else if staged.applying.value.transfer == Some(transfer) then Outcome(staged, Ok([]))
      else Outcome(staged, Err(ConflictingTransfer(transfer.generation)))
    case Ok(Fresh) =>
      match staged.incoming
      case None => Outcome(staged, Err(StateInvariant))
      case Some(incoming) =>
        if incoming.transfer.Some? then
          if incoming.transfer.value != transfer then Outcome(staged, Err(ConflictingTransfer(transfer.generation)))
          else Outcome(staged, Ok([]))
        else FinishIncoming(staged.(incoming := Some(incoming.(transfer := Some(transfer)))), hash)
  }

  function ReceiveOffer(s: State, offer: Offer, hash: Hash): Outcome {
    var (staged, stage) := StageGeneration(s, offer.generation);
    match stage
    case Err(error) => Outcome(staged, Err(error))
    case Ok(Ignore) => Outcome(staged, Ok([]))
    case Ok(Applying) =>
      if staged.applying.None? then Outcome(staged, Err(StateInvariant))
      else if staged.applying.value.offer == Some(offer) then Outcome(staged, Ok([]))
      else Outcome(staged, Err(ConflictingOffer(offer.generation)))
    case Ok(Fresh) =>
      match staged.incoming
      case None => Outcome(staged, Err(StateInvariant))
      case Some(incoming) =>
        if incoming.offer.Some? then
          if incoming.offer.value != offer then Outcome(staged, Err(ConflictingOffer(offer.generation)))
          else Outcome(staged, Ok([]))
        else FinishIncoming(staged.(incoming := Some(incoming.(offer := Some(offer)))), hash)
  }

  function ReceiveAcknowledgement(s: State, generation: Generation): (State, Result<(), Error>) {
    if generation.owner != s.localNode then (s, Err(UnexpectedGenerationOwner(s.localNode, generation.owner)))
    else if generation.sequence > s.lastSent then (s, Err(AcknowledgementBeyondSent(generation.sequence, s.lastSent)))
    else if generation.sequence <= s.lastAcknowledged then (s, Ok(()))
    else
      var pending := if s.pendingLocal.Some? && s.pendingLocal.value.sequence <= generation.sequence then None
        else s.pendingLocal;
      (s.(lastAcknowledged := generation.sequence, pendingLocal := pending), Ok(()))
  }

  function ReceiveControl(s: State, control: Control, hash: Hash): Outcome {
    match control
    case Offered(offer) => ReceiveOffer(s, offer, hash)
    case Applied(generation) =>
      var (t, r) := ReceiveAcknowledgement(s, generation);
      Outcome(t, match r case Ok(_) => Ok([]) case Err(error) => Err(error))
  }

  function ConfirmApplied(s: State, generation: Generation, hash: Hash): Outcome {
    if s.applying.None? then Outcome(s, Err(NoApplicationPending))
    else if s.applying.value.generation != generation then
      Outcome(s, Err(ApplicationGenerationMismatch(s.applying.value.generation, generation)))
    else match ValidateIncoming(s, hash)
      case Err(error) => Outcome(s, Err(error))
      case Ok(_) =>
        match s.applying.value.transfer
        case None => Outcome(s.(applying := None), Err(StateInvariant))
        case Some(transfer) =>
          var applied := s.(applying := None, lastApplied := generation.sequence, remoteText := Some(transfer.text));
          var begun := BeginApplication(applied, hash);
          match begun.result
          case Err(error) => begun
          case Ok(more) => Outcome(begun.state, Ok([SendControl(Applied(generation))] + more))
  }

  // ---- The invariant, for any inputs whatsoever ----

  predicate PairShape(s: State, pair: Incoming) {
    && pair.generation.owner == s.peerNode
    && s.lastApplied < pair.generation.sequence <= s.highest
    && (pair.offer.Some? ==> pair.offer.value.generation == pair.generation)
    && (pair.transfer.Some? ==> pair.transfer.value.generation == pair.generation)
  }

  predicate Verified(pair: Incoming, hash: Hash) {
    pair.Ready() ==> Verify(pair.offer.value, pair.transfer.value, hash).Ok?
  }

  predicate LocalOk(s: State) {
    && s.lastAcknowledged <= s.lastSent
    && s.nextLocalSequence == (if s.lastSent == U64_MAX then None else Some(s.lastSent + 1))
    && s.pendingLocal == (if s.lastSent == s.lastAcknowledged then None else Some(Generation(s.localNode, s.lastSent)))
  }

  // The newest pair may be complete but not yet checked.
  predicate Collecting(s: State, hash: Hash) {
    && s.lastApplied <= s.highest
    && LocalOk(s)
    && (s.applying.Some? ==>
         PairShape(s, s.applying.value) && Verified(s.applying.value, hash) && s.applying.value.Ready())
    && (s.incoming.Some? ==>
          && PairShape(s, s.incoming.value)
          && s.incoming.value.generation.sequence == s.highest
          && (s.applying.Some? ==> s.applying.value.generation.sequence < s.highest))
  }

  // last applied < applying < incoming = highest; a complete pair waits only behind an active application.
  predicate Inv(s: State, hash: Hash) {
    && Collecting(s, hash)
    && (s.incoming.Some? && s.incoming.value.Ready() ==> s.applying.Some? && Verified(s.incoming.value, hash))
  }

  datatype Step = Local(text: Text) | Controlled(control: Control) | Payload(transfer: Transfer)
    | Confirm(generation: Generation)

  function Take(s: State, step: Step, hash: Hash): Outcome {
    match step
    case Local(text) => LocalChanged(s, text, hash)
    case Controlled(control) => ReceiveControl(s, control, hash)
    case Payload(transfer) => ReceiveTransfer(s, transfer, hash)
    case Confirm(generation) => ConfirmApplied(s, generation, hash)
  }

  // The application an action list starts, if any.
  function Applications(actions: seq<Action>): seq<Transfer> {
    if actions == [] then []
      else (if actions[0].ApplyRemote? then [actions[0].transfer] else []) + Applications(actions[1..])
  }

  function Started(r: Result<seq<Action>, Error>): seq<Transfer> {
    match r case Ok(actions) => Applications(actions) case Err(_) => []
  }

  // A pair enters application exactly when it becomes the applying one, newer than any before.
  predicate Starts(s: State, t: State, started: seq<Transfer>) {
    if started == [] then t.applying == s.applying
    else
      && |started| == 1 && s.applying.None? && t.applying.Some?
      && t.applying.value.transfer == Some(started[0])
      && t.incoming.None? && t.applying.value.generation.sequence == t.highest
  }

  lemma StartedOne(actions: seq<Action>)
    requires |actions| <= 1
    ensures Applications(actions) == if actions != [] && actions[0].ApplyRemote? then [actions[0].transfer] else []
  {
    if actions != [] {
      assert actions[1..] == [];
    }
  }

  lemma StartedOf(first: seq<Action>, more: seq<Action>)
    requires |first| <= 1 && |more| <= 1
    ensures Applications(first + more) == (if first != [] && first[0].ApplyRemote? then [first[0].transfer] else [])
                                        + (if more != [] && more[0].ApplyRemote? then [more[0].transfer] else [])
  {
    StartedOne(more);
    if first == [] {
      assert first + more == more;
    } else {
      assert (first + more)[1..] == more;
    }
  }

  lemma LocalKeepsInv(s: State, text: Text, hash: Hash)
    requires Inv(s, hash)
    ensures var r := LocalChanged(s, text, hash);
            && Inv(r.state, hash) && r.result != Err(StateInvariant) && Started(r.result) == []
            && r.state.applying == s.applying && r.state.lastApplied == s.lastApplied
            && (r.result.Err? ==> r.state == s)
  {
    var r := LocalChanged(s, text, hash);
    if r.result.Ok? && r.result.value != [] {
      StartedOf([r.result.value[0]], [r.result.value[1]]);
      assert r.result.value == [r.result.value[0]] + [r.result.value[1]];
    }
  }

  lemma AcknowledgementKeepsInv(s: State, generation: Generation, hash: Hash)
    requires Inv(s, hash)
    ensures var (t, r) := ReceiveAcknowledgement(s, generation);
            && Inv(t, hash) && r != Err(StateInvariant)
            && (r.Ok? <==> generation.owner == s.localNode && generation.sequence <= s.lastSent)
            && (r.Err? ==> t == s)
            && (r.Ok? ==>
                  var acknowledged := Max(s.lastAcknowledged, generation.sequence);
                  t == s.(lastAcknowledged := acknowledged,
                          pendingLocal := if acknowledged == s.lastSent then None
                            else Some(Generation(s.localNode, s.lastSent))))
  {
  }

  lemma StageKeeps(s: State, generation: Generation, hash: Hash)
    requires Inv(s, hash)
    ensures var (t, r) := StageGeneration(s, generation);
            && Inv(t, hash) && r != Err(StateInvariant)
            && t.applying == s.applying && t.lastApplied == s.lastApplied
            && (r == Ok(Applying) ==> s.applying.Some? && t == s)
            && (r == Ok(Fresh) ==> t.incoming.Some? && t.incoming.value.generation == generation)
  {
    hide Verify, Verified;
  }

  lemma BeginKeeps(s: State, hash: Hash)
    requires Collecting(s, hash) && (s.incoming.Some? ==> Verified(s.incoming.value, hash))
    ensures var r := BeginApplication(s, hash);
            && Inv(r.state, hash) && r.result.Ok? && |r.result.value| <= 1
            && Starts(s, r.state, Applications(r.result.value)) && r.state.lastApplied == s.lastApplied
  {
    hide Verify;
    var r := BeginApplication(s, hash);
    StartedOf([], r.result.value);
    assert [] + r.result.value == r.result.value;
  }

  lemma FinishKeeps(s: State, hash: Hash)
    requires Collecting(s, hash)
    ensures var r := FinishIncoming(s, hash);
            && Inv(r.state, hash) && r.result != Err(StateInvariant)
            && Starts(s, r.state, Started(r.result)) && r.state.lastApplied == s.lastApplied
  {
    hide Verify;
    if ValidateIncoming(s, hash).Ok? {
      BeginKeeps(s, hash);
    }
  }

  lemma TransferKeepsInv(s: State, transfer: Transfer, hash: Hash)
    requires Inv(s, hash)
    ensures var r := ReceiveTransfer(s, transfer, hash);
            && Inv(r.state, hash) && r.result != Err(StateInvariant)
            && Starts(s, r.state, Started(r.result)) && r.state.lastApplied == s.lastApplied
  {
    hide StageGeneration, FinishIncoming, Verify;
    StageKeeps(s, transfer.generation, hash);
    var (staged, stage) := StageGeneration(s, transfer.generation);
    if stage == Ok(Fresh) && staged.incoming.value.transfer.None? {
      FinishKeeps(staged.(incoming := Some(staged.incoming.value.(transfer := Some(transfer)))), hash);
    }
  }

  lemma OfferKeepsInv(s: State, offer: Offer, hash: Hash)
    requires Inv(s, hash)
    ensures var r := ReceiveOffer(s, offer, hash);
            && Inv(r.state, hash) && r.result != Err(StateInvariant)
            && Starts(s, r.state, Started(r.result)) && r.state.lastApplied == s.lastApplied
  {
    hide StageGeneration, FinishIncoming, Verify;
    StageKeeps(s, offer.generation, hash);
    var (staged, stage) := StageGeneration(s, offer.generation);
    if stage == Ok(Fresh) && staged.incoming.value.offer.None? {
      FinishKeeps(staged.(incoming := Some(staged.incoming.value.(offer := Some(offer)))), hash);
    }
  }

  lemma ConfirmKeepsInv(s: State, generation: Generation, hash: Hash)
    requires Inv(s, hash)
    ensures var r := ConfirmApplied(s, generation, hash);
            && Inv(r.state, hash) && r.result != Err(StateInvariant)
            && (r.result.Ok? <==> s.applying.Some? && s.applying.value.generation == generation)
            && (r.result.Ok? ==>
                 Starts(s.(applying := None), r.state, Started(r.result)) && r.state.lastApplied == generation.sequence)
            && (r.result.Err? ==> r.state == s)
  {
    hide Verify, BeginApplication;
    if s.applying.Some? && s.applying.value.generation == generation {
      var applied :=
        s.(applying := None, lastApplied := generation.sequence,
        remoteText := Some(s.applying.value.transfer.value.text));
      BeginKeeps(applied, hash);
      StartedOf([SendControl(Applied(generation))], BeginApplication(applied, hash).result.value);
      StartedOf([], BeginApplication(applied, hash).result.value);
      assert [] + BeginApplication(applied, hash).result.value == BeginApplication(applied, hash).result.value;
    }
  }

  // ---- What exactly becomes of an offer or a text ----

  predicate Stale(s: State, g: Generation) {
    g.sequence <= s.lastApplied || g.sequence < s.highest
  }

  // What is held of a generation: under application, collected, or nothing yet.
  function Held(s: State, g: Generation): Incoming {
    if s.applying.Some? && s.applying.value.generation == g then s.applying.value
    else if s.incoming.Some? && s.incoming.value.generation == g then s.incoming.value
    else Incoming(g, None, None)
  }

  // A pair of the newest generation: collected until complete, then refused and dropped unless it verifies, then
  // applied, or kept behind the application under way.
  function Completed(s: State, pair: Incoming, hash: Hash): Outcome {
    var newest := s.(highest := pair.generation.sequence, incoming := None);
    if !pair.Ready() then Outcome(newest.(incoming := Some(pair)), Ok([]))
    else match Verify(pair.offer.value, pair.transfer.value, hash)
      case Err(error) => Outcome(newest, Err(Invalid(error)))
      case Ok(_) =>
        if s.applying.Some? then Outcome(newest.(incoming := Some(pair)), Ok([]))
        else Outcome(newest.(applying := Some(pair)), Ok([ApplyRemote(pair.transfer.value)]))
  }

  /**
   * A text is taken exactly so, from whatever state: one of a foreign owner is refused; one of a generation
   * that is applied already or older than the newest seen is ignored; one already held for its generation may
   * be repeated but not changed; and a new one begins or completes the pair of the newest generation.
   */
  lemma TransferIsTakenExactly(s: State, transfer: Transfer, hash: Hash)
    requires Inv(s, hash)
    ensures var r, g := ReceiveTransfer(s, transfer, hash), transfer.generation;
            if g.owner != s.peerNode then r == Outcome(s, Err(UnexpectedGenerationOwner(s.peerNode, g.owner)))
            else if Stale(s, g) then r == Outcome(s, Ok([]))
            else
              var pair := Held(s, g);
              if pair.transfer.Some? then
                r == Outcome(s, if pair.transfer == Some(transfer) then Ok([]) else Err(ConflictingTransfer(g)))
              else r == Completed(s, pair.(transfer := Some(transfer)), hash)
  {
    hide Verify;
  }

  /**
   * An offer is taken exactly so, from whatever state: one of a foreign owner is refused; one of a generation
   * that is applied already or older than the newest seen is ignored; one already held for its generation may
   * be repeated but not changed; and a new one begins or completes the pair of the newest generation.
   */
  lemma OfferIsTakenExactly(s: State, offer: Offer, hash: Hash)
    requires Inv(s, hash)
    ensures var r, g := ReceiveOffer(s, offer, hash), offer.generation;
            if g.owner != s.peerNode then r == Outcome(s, Err(UnexpectedGenerationOwner(s.peerNode, g.owner)))
            else if Stale(s, g) then r == Outcome(s, Ok([]))
            else
              var pair := Held(s, g);
              if pair.offer.Some? then
                r == Outcome(s, if pair.offer == Some(offer) then Ok([]) else Err(ConflictingOffer(g)))
              else r == Completed(s, pair.(offer := Some(offer)), hash)
  {
    hide Verify;
  }

  // ---- Runs over arbitrary inputs ----

  // `started` lists the remote texts handed to the platform; `offers` and `transfers` everything received.
  datatype Trace = Trace(state: State, started: seq<Transfer>, offers: set<Offer>, transfers: set<Transfer>)

  function Extend(t: Trace, step: Step, hash: Hash): Trace {
    var r := Take(t.state, step, hash);
    Trace(r.state, t.started + Started(r.result),
          if step.Controlled? && step.control.Offered? then t.offers + {step.control.offer} else t.offers,
          if step.Payload? then t.transfers + {step.transfer} else t.transfers)
  }

  function After(local: NodeId, peer: NodeId, steps: seq<Step>, hash: Hash): Trace {
    if steps == [] then Trace(New(local, peer), [], {}, {})
    else Extend(After(local, peer, steps[..|steps| - 1], hash), steps[|steps| - 1], hash)
  }

  predicate Backed(t: Trace, transfer: Transfer, hash: Hash) {
    transfer in t.transfers && exists offer :: offer in t.offers && Verify(offer, transfer, hash).Ok?
  }

  predicate Known(t: Trace, pair: Incoming) {
    && (pair.offer.Some? ==> pair.offer.value in t.offers)
    && (pair.transfer.Some? ==> pair.transfer.value in t.transfers)
  }

  predicate KnownPairs(t: Trace, s: State) {
    && (s.incoming.Some? ==> Known(t, s.incoming.value))
    && (s.applying.Some? ==> Known(t, s.applying.value))
  }

  // The newest started text is the one being applied, or has been applied.
  predicate TraceInv(t: Trace, hash: Hash) {
    && Inv(t.state, hash)
    && KnownPairs(t, t.state)
    && (forall i :: 0 <= i < |t.started| ==>
         t.started[i].generation.owner == t.state.peerNode && Backed(t, t.started[i], hash))
    && (forall i, j :: 0 <= i < j < |t.started| ==> t.started[i].generation.sequence < t.started[j].generation.sequence)
    && (forall i :: 0 <= i < |t.started| ==>
          t.started[i].generation.sequence <= if t.state.applying.Some? then t.state.applying.value.generation.sequence
            else t.state.lastApplied)
    && (t.state.applying.Some? ==>
         t.started != [] && t.state.applying.value.transfer == Some(t.started[|t.started| - 1]))
  }

  lemma StageKnows(t: Trace, s: State, generation: Generation)
    requires KnownPairs(t, s)
    ensures KnownPairs(t, StageGeneration(s, generation).0) && StageGeneration(s, generation).0.peerNode == s.peerNode
  {
  }

  lemma FinishKnows(t: Trace, s: State, hash: Hash)
    requires KnownPairs(t, s)
    ensures KnownPairs(t, FinishIncoming(s, hash).state) && FinishIncoming(s, hash).state.peerNode == s.peerNode
    ensures KnownPairs(t, BeginApplication(s, hash).state) && BeginApplication(s, hash).state.peerNode == s.peerNode
  {
    hide Verify;
  }

  // A step never learns an offer or text it was not given.
  lemma TakeKnows(t: Trace, s: State, step: Step, hash: Hash)
    requires KnownPairs(t, s)
    requires step.Controlled? && step.control.Offered? ==> step.control.offer in t.offers
    requires step.Payload? ==> step.transfer in t.transfers
    ensures KnownPairs(t, Take(s, step, hash).state) && Take(s, step, hash).state.peerNode == s.peerNode
  {
    hide Verify, StageGeneration, FinishIncoming, BeginApplication, ValidateIncoming;
    match step
    case Local(_) =>
    case Controlled(Applied(_)) =>
    case Controlled(Offered(offer)) =>
      StageKnows(t, s, offer.generation);
      var staged := StageGeneration(s, offer.generation).0;
      if staged.incoming.Some? {
        FinishKnows(t, staged.(incoming := Some(staged.incoming.value.(offer := Some(offer)))), hash);
      }
    case Payload(transfer) =>
      StageKnows(t, s, transfer.generation);
      var staged := StageGeneration(s, transfer.generation).0;
      if staged.incoming.Some? {
        FinishKnows(t, staged.(incoming := Some(staged.incoming.value.(transfer := Some(transfer)))), hash);
      }
    case Confirm(generation) =>
      if s.applying.Some? && s.applying.value.transfer.Some? {
        FinishKnows(t, s.(applying := None, lastApplied := generation.sequence,
          remoteText := Some(s.applying.value.transfer.value.text)), hash);
      }
  }

  lemma ExtendKnows(t: Trace, step: Step, hash: Hash)
    requires KnownPairs(t, t.state)
    ensures KnownPairs(Extend(t, step, hash), Extend(t, step, hash).state)
    ensures Extend(t, step, hash).state.peerNode == t.state.peerNode
  {
    hide Take, Started;
    TakeKnows(Extend(t, step, hash), t.state, step, hash);
  }

  lemma TakeStarts(s: State, step: Step, hash: Hash)
    requires Inv(s, hash)
    ensures var r := Take(s, step, hash);
            && Inv(r.state, hash) && r.result != Err(StateInvariant)
            && var before := if step.Confirm? && r.result.Ok? then s.(applying := None) else s;
               && Starts(before, r.state, Started(r.result))
               && (step.Confirm? && r.result.Ok? ==>
                    s.applying.Some? && r.state.lastApplied == s.applying.value.generation.sequence)
               && (!(step.Confirm? && r.result.Ok?) ==> r.state.lastApplied == s.lastApplied)
  {
    hide LocalChanged, ReceiveOffer, ReceiveTransfer, ConfirmApplied, ReceiveAcknowledgement, Inv;
    match step
    case Local(text) => LocalKeepsInv(s, text, hash);
    case Controlled(Offered(offer)) => OfferKeepsInv(s, offer, hash);
    case Controlled(Applied(generation)) => AcknowledgementKeepsInv(s, generation, hash);
    case Payload(transfer) => TransferKeepsInv(s, transfer, hash);
    case Confirm(generation) => ConfirmKeepsInv(s, generation, hash);
  }

  lemma StillBacked(t: Trace, step: Step, hash: Hash)
    requires TraceInv(t, hash)
    ensures forall i :: 0 <= i < |t.started| ==> Backed(Extend(t, step, hash), t.started[i], hash)
  {
    hide Take, Verify, Started, Inv, Known;
    forall i | 0 <= i < |t.started| ensures Backed(Extend(t, step, hash), t.started[i], hash) {
      assert Backed(t, t.started[i], hash);
    }
  }

  lemma NewBacked(u: Trace, hash: Hash)
    requires Inv(u.state, hash) && u.state.applying.Some? && Known(u, u.state.applying.value)
    ensures Backed(u, u.state.applying.value.transfer.value, hash)
  {
    hide Verify;
    assert u.state.applying.value.offer.value in u.offers;
  }

  lemma ExtendKeeps(t: Trace, step: Step, hash: Hash)
    requires TraceInv(t, hash)
    ensures TraceInv(Extend(t, step, hash), hash)
    ensures Take(t.state, step, hash).result != Err(StateInvariant)
  {
    hide Verify, Take, Started, Known, Backed, LocalOk, Verified;
    ExtendKnows(t, step, hash);
    TakeStarts(t.state, step, hash);
    StillBacked(t, step, hash);
    var u := Extend(t, step, hash);
    if u.started != t.started {
      var last := u.started[|u.started| - 1];
      NewBacked(u, hash);
    }
  }

  lemma {:induction false} RunKeeps(local: NodeId, peer: NodeId, steps: seq<Step>, hash: Hash)
    ensures TraceInv(After(local, peer, steps, hash), hash) && After(local, peer, steps, hash).state.peerNode == peer
  {
    if steps != [] {
      hide Extend, Inv, Backed, KnownPairs;
      RunKeeps(local, peer, steps[..|steps| - 1], hash);
      ExtendKnows(After(local, peer, steps[..|steps| - 1], hash), steps[|steps| - 1], hash);
      ExtendKeeps(After(local, peer, steps[..|steps| - 1], hash), steps[|steps| - 1], hash);
    }
  }

  /** For any inputs at all, the state invariant error is unreachable. */
  lemma {:induction false} StateInvariantUnreachable(local: NodeId, peer: NodeId, steps: seq<Step>, step: Step,
          hash: Hash)
    ensures Take(After(local, peer, steps, hash).state, step, hash).result != Err(StateInvariant)
  {
    hide Take;
    RunKeeps(local, peer, steps, hash);
    ExtendKeeps(After(local, peer, steps, hash), step, hash);
  }

  /**
   * For any inputs at all, remote texts are applied in strictly increasing generations of the peer, so none
   * twice, and each was received together with an offer that verifies it.
   */
  lemma AppliedOnceInOrder(local: NodeId, peer: NodeId, steps: seq<Step>, hash: Hash)
    ensures var t := After(local, peer, steps, hash);
            && (forall i, j :: 0 <= i < j < |t.started| ==>
                 t.started[i].generation.sequence < t.started[j].generation.sequence)
            && (forall i :: 0 <= i < |t.started| ==>
                 t.started[i].generation.owner == peer && Backed(t, t.started[i], hash))
  {
    hide Backed;
    RunKeeps(local, peer, steps, hash);
  }
}
