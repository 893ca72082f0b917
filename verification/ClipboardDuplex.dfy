/**
 * Two honest parties that both edit their clipboards, over a network that may lose, repeat and reorder
 * offers, texts and acknowledgements: the newest generation of each direction wins.
 */
module ClipboardDuplex {
  import opened Base
  import opened ClipboardData
  import opened ClipboardProtocol

  // `log` holds the texts this side has announced: generation k carries log[k - 1]. The sets hold the
  // peer's generations whose offer, text or acknowledgement has arrived here, and those acknowledged here.
  datatype Side = Side(
    state: State,
    log: seq<Text>,
    offersSeen: set<NonZeroU64>,
    textsSeen: set<NonZeroU64>,
    acknowledged: set<NonZeroU64>,
    acksSeen: set<NonZeroU64>)

  datatype Event =
    | Edits(text: Text)
    | OfferArrives(sequence: NonZeroU64)
    | TextArrives(sequence: NonZeroU64)
    | Confirms
    | AckArrives(sequence: NonZeroU64)

  function Transferred(node: NodeId, log: seq<Text>, k: NonZeroU64): Transfer
    requires k <= |log|
  {
    Transfer(Generation(node, k), log[k - 1])
  }

  // Whether an event can happen at `me`, given what `peer` has put on the network.
  predicate Possible(me: Side, peer: Side, event: Event) {
    match event
    case Edits(_) => true
    case OfferArrives(k) => k <= |peer.log|
    case TextArrives(k) => k <= |peer.log|
    case Confirms => me.state.applying.Some?
    case AckArrives(k) => k in peer.acknowledged
  }

  function Operation(me: Side, peer: Side, event: Event, hash: Hash): Outcome
    requires Possible(me, peer, event)
  {
    match event
    case Edits(text) => LocalChanged(me.state, text, hash)
    case OfferArrives(k) =>
      ReceiveControl(me.state, Offered(OfferOf(Transferred(peer.state.localNode, peer.log, k), hash)), hash)
    case TextArrives(k) => ReceiveTransfer(me.state, Transferred(peer.state.localNode, peer.log, k), hash)
    case Confirms => ConfirmApplied(me.state, me.state.applying.value.generation, hash)
    case AckArrives(k) => ReceiveControl(me.state, Applied(Generation(me.state.localNode, k)), hash)
  }

  function Happens(me: Side, peer: Side, event: Event, hash: Hash): Side
    requires Possible(me, peer, event)
  {
    var r := Operation(me, peer, event, hash);
    match event
    case Edits(text) =>
      me.(state := r.state, log := if r.state.lastSent == me.state.lastSent then me.log else me.log + [text])
    case OfferArrives(k) => me.(state := r.state, offersSeen := me.offersSeen + {k})
    case TextArrives(k) => me.(state := r.state, textsSeen := me.textsSeen + {k})
    case Confirms =>
      me.(state := r.state, acknowledged := me.acknowledged + {me.state.applying.value.generation.sequence})
    case AckArrives(k) => me.(state := r.state, acksSeen := me.acksSeen + {k})
  }

  // ---- One direction: what `receiver` knows of `sender` ----

  // A pair holds exactly the offer and text of its generation, as far as they have arrived.
  predicate Genuine(node: NodeId, log: seq<Text>, pair: Incoming, hash: Hash) {
    && pair.generation.owner == node
    && pair.generation.sequence <= |log|
    && (pair.offer.Some? ==> pair.offer.value == OfferOf(Transferred(node, log, pair.generation.sequence), hash))
    && (pair.transfer.Some? ==> pair.transfer.value == Transferred(node, log, pair.generation.sequence))
  }

  ghost predicate ReceiverOk(r: Side, node: NodeId, log: seq<Text>, hash: Hash) {
    var s := r.state;
    && s.highest <= |log|
    && (s.incoming.Some? ==>
          && Genuine(node, log, s.incoming.value, hash)
          && (s.incoming.value.offer.Some? <==> s.highest in r.offersSeen)
          && (s.incoming.value.transfer.Some? <==> s.highest in r.textsSeen))
    && (s.incoming.None? ==>
          s.highest == if s.applying.Some? then s.applying.value.generation.sequence else s.lastApplied)
    && (s.applying.Some? ==> Genuine(node, log, s.applying.value, hash))
    && (forall k :: k in r.offersSeen || k in r.textsSeen ==> k <= s.highest)
    && (forall k :: k in r.acknowledged ==> k <= s.lastApplied)
    && (s.lastApplied > 0 ==> s.lastApplied in r.acknowledged)
    && (s.remoteText.Some? ==> 0 < s.lastApplied <= |log| && s.remoteText.value == log[s.lastApplied - 1])
  }

  ghost predicate SenderOk(s: Side, applied: U64) {
    && |s.log| == s.state.lastSent
    && (forall i :: 0 <= i < |s.log| ==> |s.log[i]| <= MAX_CLIPBOARD_TEXT_BYTES)
    && s.state.lastAcknowledged <= applied
    && (forall k :: k in s.acksSeen ==> k <= s.state.lastAcknowledged)
  }

  ghost predicate HalfOk(receiver: Side, sender: Side, hash: Hash) {
    && Inv(receiver.state, hash) && Inv(sender.state, hash)
    && receiver.state.peerNode == sender.state.localNode
    && ReceiverOk(receiver, sender.state.localNode, sender.log, hash)
    && SenderOk(sender, receiver.state.lastApplied)
  }

  // ---- Each event, seen from each direction ----

  lemma OwnOfferVerifies(node: NodeId, log: seq<Text>, k: NonZeroU64, hash: Hash)
    requires k <= |log| && |log[k - 1]| <= MAX_CLIPBOARD_TEXT_BYTES
    ensures Verify(OfferOf(Transferred(node, log, k), hash), Transferred(node, log, k), hash).Ok?
  {
    VerifyIsOwnOffer(OfferOf(Transferred(node, log, k), hash), Transferred(node, log, k), hash);
  }

  lemma EditKeepsReceiving(me: Side, peer: Side, text: Text, hash: Hash)
    requires HalfOk(me, peer, hash)
    ensures HalfOk(Happens(me, peer, Edits(text), hash), peer, hash)
  {
    hide Inv;
    LocalKeepsInv(me.state, text, hash);
  }

  lemma LocalCounts(s: State, text: Text, hash: Hash)
    requires Inv(s, hash)
    ensures var t := LocalChanged(s, text, hash).state;
            && (t.lastSent == s.lastSent || (t.lastSent == s.lastSent + 1 && |text| <= MAX_CLIPBOARD_TEXT_BYTES))
            && t.lastAcknowledged == s.lastAcknowledged
  {
  }

  lemma EditKeepsSending(me: Side, peer: Side, text: Text, hash: Hash)
    requires HalfOk(peer, me, hash)
    ensures HalfOk(peer, Happens(me, peer, Edits(text), hash), hash)
  {
    hide Inv;
    LocalKeepsInv(me.state, text, hash);
    LocalCounts(me.state, text, hash);
  }

  // A message of this generation changes nothing: it is applied, superseded, or being applied.
  predicate Known(s: State, k: NonZeroU64) {
    k <= s.lastApplied || k < s.highest || (s.applying.Some? && k == s.applying.value.generation.sequence)
  }

  // The state whose newest pair is the one of generation k.
  function Joined(s: State, k: NonZeroU64): (t: State)
    ensures k > s.highest || s.incoming.None? ==> t.incoming == Some(Incoming(Generation(s.peerNode, k), None, None))
  {
    if k > s.highest then s.(highest := k, incoming := Some(Incoming(Generation(s.peerNode, k), None, None)))
    else if s.incoming.None? then s.(incoming := Some(Incoming(Generation(s.peerNode, k), None, None)))
    else s
  }

  // A complete pair starts when nothing is being applied.
  function Promoted(s: State): State {
    if s.incoming.Some? && s.incoming.value.Ready() && s.applying.None?
      then s.(incoming := None, applying := s.incoming) else s
  }

  // The application that promoting begins.
  function StartOf(s: State): seq<Action> {
    if s.incoming.Some? && s.incoming.value.Ready() && s.applying.None?
      then [ApplyRemote(s.incoming.value.transfer.value)] else []
  }

  function WithOffer(s: State, k: NonZeroU64, offer: Offer): State {
    var joined := Joined(s, k);
    if joined.incoming.None? then joined else joined.(incoming := Some(joined.incoming.value.(offer := Some(offer))))
  }

  function WithText(s: State, k: NonZeroU64, transfer: Transfer): State {
    var joined := Joined(s, k);
    if joined.incoming.None? then joined
      else joined.(incoming := Some(joined.incoming.value.(transfer := Some(transfer))))
  }

  lemma StagesAs(s: State, k: NonZeroU64, hash: Hash)
    requires Inv(s, hash)
    ensures var (t, stage) := StageGeneration(s, Generation(s.peerNode, k));
            if Known(s, k) then
              && t == s && (stage == Ok(Ignore) || stage == Ok(Applying))
              && (stage == Ok(Applying) ==>
                   s.applying.Some? && s.applying.value.generation == Generation(s.peerNode, k))
            else
              && t == Joined(s, k) && stage == Ok(Fresh)
              && t.incoming.Some? && t.incoming.value.generation == Generation(s.peerNode, k)
    ensures !Known(s, k) ==> Collecting(Joined(s, k), hash)
  {
  }

  // Finishing an honest pair starts it, or leaves it waiting.
  lemma FinishHonest(s: State, node: NodeId, log: seq<Text>, hash: Hash)
    requires s.incoming.Some? && Genuine(node, log, s.incoming.value, hash)
    requires |log[s.incoming.value.generation.sequence - 1]| <= MAX_CLIPBOARD_TEXT_BYTES
    ensures FinishIncoming(s, hash) == Outcome(Promoted(s), Ok(StartOf(s)))
  {
    hide OfferOf, Verify;
    OwnOfferVerifies(node, log, s.incoming.value.generation.sequence, hash);
  }

  predicate Honest(s: State, node: NodeId, log: seq<Text>, hash: Hash) {
    && s.peerNode == node
    && (s.incoming.Some? ==> Genuine(node, log, s.incoming.value, hash))
    && (s.applying.Some? ==> Genuine(node, log, s.applying.value, hash))
  }

  lemma ApplyingIsReady(s: State, hash: Hash)
    requires Inv(s, hash)
    ensures s.applying.Some? ==> s.applying.value.offer.Some? && s.applying.value.transfer.Some?
  {
  }

  // A complete pair only ever waits behind an application.
  lemma IncompleteOrWaiting(s: State, k: NonZeroU64, hash: Hash)
    requires Inv(s, hash)
    ensures Promoted(Joined(s, k)) == Joined(s, k) && StartOf(Joined(s, k)) == []
  {
  }

  lemma OfferGeneration(transfer: Transfer, hash: Hash)
    ensures OfferOf(transfer, hash).generation == transfer.generation
  {
  }

  lemma OfferOutcome(s: State, node: NodeId, log: seq<Text>, k: NonZeroU64, hash: Hash)
    requires Inv(s, hash) && Honest(s, node, log, hash) && k <= |log| && |log[k - 1]| <= MAX_CLIPBOARD_TEXT_BYTES
    ensures var offer := OfferOf(Transferred(node, log, k), hash);
            var r := ReceiveOffer(s, offer, hash);
            && r.result == Ok(if Known(s, k) then [] else StartOf(WithOffer(s, k, offer)))
            && r.state == if Known(s, k) then s else Promoted(WithOffer(s, k, offer))
  {
    var offer := OfferOf(Transferred(node, log, k), hash);
    OfferGeneration(Transferred(node, log, k), hash);
    StagesAs(s, k, hash);
    hide StageGeneration, FinishIncoming, OfferOf, Verify, Known, Promoted, StartOf;
    if Known(s, k) {
      ApplyingIsReady(s, hash);
    } else {
      IncompleteOrWaiting(s, k, hash);
      if Joined(s, k).incoming.value.offer.None? {
        FinishHonest(WithOffer(s, k, offer), node, log, hash);
      }
    }
  }

  lemma TextOutcome(s: State, node: NodeId, log: seq<Text>, k: NonZeroU64, hash: Hash)
    requires Inv(s, hash) && Honest(s, node, log, hash) && k <= |log| && |log[k - 1]| <= MAX_CLIPBOARD_TEXT_BYTES
    ensures var transfer := Transferred(node, log, k);
            var r := ReceiveTransfer(s, transfer, hash);
            && r.result == Ok(if Known(s, k) then [] else StartOf(WithText(s, k, transfer)))
            && r.state == if Known(s, k) then s else Promoted(WithText(s, k, transfer))
  {
    var transfer := Transferred(node, log, k);
    StagesAs(s, k, hash);
    hide StageGeneration, FinishIncoming, OfferOf, Verify, Known, Promoted, StartOf;
    if Known(s, k) {
      ApplyingIsReady(s, hash);
    } else {
      IncompleteOrWaiting(s, k, hash);
      if Joined(s, k).incoming.value.transfer.None? {
        FinishHonest(WithText(s, k, transfer), node, log, hash);
      }
    }
  }

  lemma KnownOffer(me: Side, node: NodeId, log: seq<Text>, k: NonZeroU64, hash: Hash)
    requires Inv(me.state, hash) && ReceiverOk(me, node, log, hash) && Known(me.state, k)
    ensures ReceiverOk(me.(offersSeen := me.offersSeen + {k}), node, log, hash)
  {
  }

  lemma KnownText(me: Side, node: NodeId, log: seq<Text>, k: NonZeroU64, hash: Hash)
    requires Inv(me.state, hash) && ReceiverOk(me, node, log, hash) && Known(me.state, k)
    ensures ReceiverOk(me.(textsSeen := me.textsSeen + {k}), node, log, hash)
  {
  }

  lemma JoinKeeps(me: Side, node: NodeId, log: seq<Text>, k: NonZeroU64, hash: Hash)
    requires Inv(me.state, hash) && ReceiverOk(me, node, log, hash) && !Known(me.state, k) && k <= |log|
    requires me.state.peerNode == node
    ensures ReceiverOk(me.(state := Joined(me.state, k)), node, log, hash)
    ensures Joined(me.state, k).highest == k && Joined(me.state, k).incoming.Some?
  {
    hide OfferOf;
  }

  lemma PromoteKeeps(me: Side, node: NodeId, log: seq<Text>, hash: Hash)
    requires Collecting(me.state, hash) && ReceiverOk(me, node, log, hash)
    ensures ReceiverOk(me.(state := Promoted(me.state)), node, log, hash)
  {
    hide OfferOf, Genuine;
  }

  lemma WithOfferKeeps(me: Side, node: NodeId, log: seq<Text>, k: NonZeroU64, hash: Hash)
    requires Inv(me.state, hash) && ReceiverOk(me, node, log, hash) && !Known(me.state, k) && k <= |log|
    requires me.state.peerNode == node
    ensures var with :=
            me.(state := WithOffer(me.state, k, OfferOf(Transferred(node, log, k), hash)),
            offersSeen := me.offersSeen + {k});
            ReceiverOk(with, node, log, hash) && Collecting(with.state, hash)
    ensures WithOffer(me.state, k, OfferOf(Transferred(node, log, k), hash)).lastApplied == me.state.lastApplied
    ensures WithOffer(me.state, k, OfferOf(Transferred(node, log, k), hash)).peerNode == node
  {
    StagesAs(me.state, k, hash);
    JoinKeeps(me, node, log, k, hash);
    hide Inv, StageGeneration, Known, Verify;
  }

  lemma ReceiverHonest(me: Side, node: NodeId, log: seq<Text>, hash: Hash)
    requires ReceiverOk(me, node, log, hash) && me.state.peerNode == node
    ensures Honest(me.state, node, log, hash)
  {
    hide Genuine;
  }

  lemma PromotedKeepsRest(s: State)
    ensures Promoted(s).peerNode == s.peerNode && Promoted(s).lastApplied == s.lastApplied
  {
  }

  lemma OfferKeepsReceiving(me: Side, peer: Side, k: NonZeroU64, hash: Hash)
    requires HalfOk(me, peer, hash) && k <= |peer.log|
    ensures Operation(me, peer, OfferArrives(k), hash).result.Ok?
    ensures HalfOk(Happens(me, peer, OfferArrives(k), hash), peer, hash)
  {
    hide ReceiveOffer, Inv, Verify, OfferOf, Known, Promoted, WithOffer, ReceiverOk, Collecting;
    var s, node, log := me.state, peer.state.localNode, peer.log;
    var offer := OfferOf(Transferred(node, log, k), hash);
    OfferKeepsInv(s, offer, hash);
    ReceiverHonest(me, node, log, hash);
    OfferOutcome(s, node, log, k, hash);
    OfferGeneration(Transferred(node, log, k), hash);
    if Known(s, k) {
      KnownOffer(me, node, log, k, hash);
    } else {
      WithOfferKeeps(me, node, log, k, hash);
      var with := me.(state := WithOffer(s, k, offer), offersSeen := me.offersSeen + {k});
      PromoteKeeps(with, node, log, hash);
      PromotedKeepsRest(with.state);
    }
  }

  lemma WithTextKeeps(me: Side, node: NodeId, log: seq<Text>, k: NonZeroU64, hash: Hash)
    requires Inv(me.state, hash) && ReceiverOk(me, node, log, hash) && !Known(me.state, k) && k <= |log|
    requires me.state.peerNode == node
    ensures var with := me.(state := WithText(me.state, k, Transferred(node, log, k)), textsSeen := me.textsSeen + {k});
            ReceiverOk(with, node, log, hash) && Collecting(with.state, hash)
    ensures WithText(me.state, k, Transferred(node, log, k)).lastApplied == me.state.lastApplied
    ensures WithText(me.state, k, Transferred(node, log, k)).peerNode == node
  {
    StagesAs(me.state, k, hash);
    JoinKeeps(me, node, log, k, hash);
    hide Inv, StageGeneration, Known, Verify;
  }

  lemma TextKeepsReceiving(me: Side, peer: Side, k: NonZeroU64, hash: Hash)
    requires HalfOk(me, peer, hash) && k <= |peer.log|
    ensures Operation(me, peer, TextArrives(k), hash).result.Ok?
    ensures HalfOk(Happens(me, peer, TextArrives(k), hash), peer, hash)
  {
    hide ReceiveTransfer, Inv, Verify, OfferOf, Known, Promoted, WithText, ReceiverOk, Collecting;
    var s, node, log := me.state, peer.state.localNode, peer.log;
    var transfer := Transferred(node, log, k);
    TransferKeepsInv(s, transfer, hash);
    ReceiverHonest(me, node, log, hash);
    TextOutcome(s, node, log, k, hash);
    if Known(s, k) {
      KnownText(me, node, log, k, hash);
    } else {
      WithTextKeeps(me, node, log, k, hash);
      var with := me.(state := WithText(s, k, transfer), textsSeen := me.textsSeen + {k});
      PromoteKeeps(with, node, log, hash);
      PromotedKeepsRest(with.state);
    }
  }

  lemma ConfirmKeepsReceiving(me: Side, peer: Side, hash: Hash)
    requires HalfOk(me, peer, hash) && me.state.applying.Some?
    ensures Operation(me, peer, Confirms, hash).result.Ok?
    ensures HalfOk(Happens(me, peer, Confirms, hash), peer, hash)
  {
    hide OfferOf, Verify;
    ConfirmKeepsInv(me.state, me.state.applying.value.generation, hash);
  }

  lemma AppliedBound(s: State, hash: Hash)
    requires Inv(s, hash)
    ensures s.lastApplied <= s.highest
  {
  }

  lemma AckKeepsSending(me: Side, peer: Side, k: NonZeroU64, hash: Hash)
    requires HalfOk(peer, me, hash) && k in peer.acknowledged
    ensures Operation(me, peer, AckArrives(k), hash).result.Ok?
    ensures HalfOk(peer, Happens(me, peer, AckArrives(k), hash), hash)
  {
    hide Inv;
    AcknowledgementKeepsInv(me.state, Generation(me.state.localNode, k), hash);
    AppliedBound(peer.state, hash);
  }

  // ---- The other half of each event ----

  // What the sending direction reads of a state.
  predicate SameSending(s: State, t: State) {
    && t.localNode == s.localNode && t.peerNode == s.peerNode
    && t.lastSent == s.lastSent && t.lastAcknowledged == s.lastAcknowledged
  }

  lemma StageSends(s: State, generation: Generation)
    ensures SameSending(s, StageGeneration(s, generation).0)
  {
  }

  lemma FinishSends(s: State, hash: Hash)
    ensures SameSending(s, FinishIncoming(s, hash).state) && SameSending(s, BeginApplication(s, hash).state)
  {
    hide Verify;
  }

  lemma ReceivingSends(s: State, offer: Offer, transfer: Transfer, generation: Generation, hash: Hash)
    ensures SameSending(s, ReceiveOffer(s, offer, hash).state)
    ensures SameSending(s, ReceiveTransfer(s, transfer, hash).state)
    ensures SameSending(s, ConfirmApplied(s, generation, hash).state)
  {
    hide StageGeneration, FinishIncoming, Verify, BeginApplication;
    StageSends(s, offer.generation);
    StageSends(s, transfer.generation);
    var forOffer, forText := StageGeneration(s, offer.generation).0, StageGeneration(s, transfer.generation).0;
    if forOffer.incoming.Some? {
      FinishSends(forOffer.(incoming := Some(forOffer.incoming.value.(offer := Some(offer)))), hash);
    }
    if forText.incoming.Some? {
      FinishSends(forText.(incoming := Some(forText.incoming.value.(transfer := Some(transfer)))), hash);
    }
    if s.applying.Some? && s.applying.value.transfer.Some? {
      FinishSends(s.(applying := None, lastApplied := generation.sequence,
        remoteText := Some(s.applying.value.transfer.value.text)), hash);
    }
  }

  // Receiving and confirming leave this side's own announcements, and what is known of them, alone.
  lemma ReceivingKeepsSending(me: Side, peer: Side, event: Event, hash: Hash)
    requires HalfOk(peer, me, hash) && HalfOk(me, peer, hash) && Possible(me, peer, event)
    requires event.OfferArrives? || event.TextArrives? || event.Confirms?
    requires Inv(Happens(me, peer, event, hash).state, hash)
    ensures HalfOk(peer, Happens(me, peer, event, hash), hash)
  {
    hide Inv, ReceiveOffer, ReceiveTransfer, ConfirmApplied, ReceiverOk, OfferOf;
    match event
    case OfferArrives(k) =>
      var transfer := Transferred(peer.state.localNode, peer.log, k);
      ReceivingSends(me.state, OfferOf(transfer, hash), transfer, transfer.generation, hash);
    case TextArrives(k) =>
      var transfer := Transferred(peer.state.localNode, peer.log, k);
      ReceivingSends(me.state, OfferOf(transfer, hash), transfer, transfer.generation, hash);
    case Confirms =>
      var generation := me.state.applying.value.generation;
      var transfer := Transfer(generation, []);
      ReceivingSends(me.state, OfferOf(transfer, hash), transfer, generation, hash);
  }

  lemma AckKeepsReceiving(me: Side, peer: Side, k: NonZeroU64, hash: Hash)
    requires HalfOk(me, peer, hash) && k in peer.acknowledged
    ensures HalfOk(Happens(me, peer, AckArrives(k), hash), peer, hash)
  {
    hide Inv, OfferOf, Genuine;
    AcknowledgementKeepsInv(me.state, Generation(me.state.localNode, k), hash);
  }

  // ---- Runs of both sides ----

  datatype Pair = Pair(left: Side, right: Side)

  // An event at the left side, or at the right one.
  datatype Move = Move(atLeft: bool, event: Event)

  predicate Enabled(p: Pair, move: Move) {
    if move.atLeft then Possible(p.left, p.right, move.event) else Possible(p.right, p.left, move.event)
  }

  function Next(p: Pair, move: Move, hash: Hash): Pair
    requires Enabled(p, move)
  {
    if move.atLeft then p.(left := Happens(p.left, p.right, move.event, hash))
    else p.(right := Happens(p.right, p.left, move.event, hash))
  }

  function Idle(local: NodeId, peer: NodeId): Side {
    Side(New(local, peer), [], {}, {}, {}, {})
  }

  function Start(left: NodeId, right: NodeId): Pair {
    Pair(Idle(left, right), Idle(right, left))
  }

  predicate Runs(p: Pair, moves: seq<Move>, hash: Hash)
    decreases |moves|, 0
  {
    moves == [] || (Runs(p, moves[..|moves| - 1], hash) &&
      Enabled(After(p, moves[..|moves| - 1], hash), moves[|moves| - 1]))
  }

  function After(p: Pair, moves: seq<Move>, hash: Hash): Pair
    requires Runs(p, moves, hash)
    decreases |moves|, 1
  {
    if moves == [] then p else Next(After(p, moves[..|moves| - 1], hash), moves[|moves| - 1], hash)
  }

  ghost predicate Linked(p: Pair, hash: Hash) {
    HalfOk(p.left, p.right, hash) && HalfOk(p.right, p.left, hash)
  }

  lemma HalfInv(me: Side, peer: Side, hash: Hash)
    requires HalfOk(me, peer, hash)
    ensures Inv(me.state, hash)
  {
  }

  lemma HappensKeeps(me: Side, peer: Side, event: Event, hash: Hash)
    requires HalfOk(me, peer, hash) && HalfOk(peer, me, hash) && Possible(me, peer, event)
    ensures !event.Edits? ==> Operation(me, peer, event, hash).result.Ok?
    ensures HalfOk(Happens(me, peer, event, hash), peer, hash) && HalfOk(peer, Happens(me, peer, event, hash), hash)
  {
    hide HalfOk, Happens, Operation;
    match event
    case Edits(text) =>
      EditKeepsReceiving(me, peer, text, hash);
      EditKeepsSending(me, peer, text, hash);
    case OfferArrives(k) =>
      OfferKeepsReceiving(me, peer, k, hash);
      HalfInv(Happens(me, peer, event, hash), peer, hash);
      ReceivingKeepsSending(me, peer, event, hash);
    case TextArrives(k) =>
      TextKeepsReceiving(me, peer, k, hash);
      HalfInv(Happens(me, peer, event, hash), peer, hash);
      ReceivingKeepsSending(me, peer, event, hash);
    case Confirms =>
      ConfirmKeepsReceiving(me, peer, hash);
      HalfInv(Happens(me, peer, event, hash), peer, hash);
      ReceivingKeepsSending(me, peer, event, hash);
    case AckArrives(k) =>
      AckKeepsReceiving(me, peer, k, hash);
      AckKeepsSending(me, peer, k, hash);
  }

  /** Whatever arrives, in any order and any number of times, both directions stay consistent. */
  lemma {:induction false} RunKeepsLinked(left: NodeId, right: NodeId, moves: seq<Move>, hash: Hash)
    requires Runs(Start(left, right), moves, hash)
    ensures Linked(After(Start(left, right), moves, hash), hash)
  {
    if moves != [] {
      hide HalfOk, Happens, Start;
      RunKeepsLinked(left, right, moves[..|moves| - 1], hash);
      var p := After(Start(left, right), moves[..|moves| - 1], hash);
      var move := moves[|moves| - 1];
      if move.atLeft {
        HappensKeeps(p.left, p.right, move.event, hash);
      } else {
        HappensKeeps(p.right, p.left, move.event, hash);
      }
    }
  }

  lemma EditRefusal(me: Side, peer: Side, text: Text, hash: Hash)
    requires HalfOk(peer, me, hash)
    ensures LocalChanged(me.state, text, hash).result.Err? <==>
              me.state.remoteText != Some(text) && (|text| > MAX_CLIPBOARD_TEXT_BYTES || |me.log| == U64_MAX)
  {
  }

  /**
   * Between honest parties no offer, text, acknowledgement or confirmation is ever refused; an edit is
   * refused exactly when its text is new but too long, or the sequence numbers have run out.
   */
  lemma {:induction false} NothingIsRefused(left: NodeId, right: NodeId, moves: seq<Move>, event: Event, hash: Hash)
    requires Runs(Start(left, right), moves, hash)
    requires Possible(After(Start(left, right), moves, hash).left, After(Start(left, right), moves, hash).right, event)
    ensures var p := After(Start(left, right), moves, hash);
            Operation(p.left, p.right, event, hash).result.Err? <==>
              && event.Edits? && p.left.state.remoteText != Some(event.text)
              && (|event.text| > MAX_CLIPBOARD_TEXT_BYTES || |p.left.log| == U64_MAX)
  {
    hide HalfOk, Start;
    RunKeepsLinked(left, right, moves, hash);
    var p := After(Start(left, right), moves, hash);
    HappensKeeps(p.left, p.right, event, hash);
    if event.Edits? {
      EditRefusal(p.left, p.right, event.text, hash);
    }
  }

  lemma HalfApplying(me: Side, peer: Side, hash: Hash)
    requires HalfOk(me, peer, hash)
    ensures me.state.applying.Some? ==> me.state.applying.value.generation.sequence <= |peer.log|
  {
    hide Inv, OfferOf;
  }

  lemma EditActions(me: Side, peer: Side, text: Text, hash: Hash)
    requires HalfOk(peer, me, hash) && Operation(me, peer, Edits(text), hash).result.Ok?
    ensures var actions, next :=
            Operation(me, peer, Edits(text), hash).result.value, Happens(me, peer, Edits(text), hash);
            && next.state.applying == me.state.applying
            && (next.log == me.log ==> actions == [])
            && (next.log != me.log ==>
                  var transfer := Transferred(me.state.localNode, next.log, |next.log|);
                  next.log == me.log + [text] && actions ==
                    [SendControl(Offered(OfferOf(transfer, hash))), SendTransfer(transfer)])
  {
    hide OfferOf;
    LocalCounts(me.state, text, hash);
  }

  // What starting adds to the actions, for a state whose newest pair is genuine.
  lemma StartIsGenuine(s: State, node: NodeId, log: seq<Text>, hash: Hash)
    requires s.incoming.Some? ==> Genuine(node, log, s.incoming.value, hash)
    ensures s.applying.None? && Promoted(s).applying.Some? ==>
              Promoted(s).applying.value.generation.sequence <= |log|
              && StartOf(s) == [ApplyRemote(Transferred(node, log, Promoted(s).applying.value.generation.sequence))]
    ensures s.applying.Some? || Promoted(s).applying.None? ==> StartOf(s) == [] && Promoted(s).applying == s.applying
  {
    hide OfferOf;
  }

  lemma ApplyingIsKnown(me: Side, node: NodeId, log: seq<Text>, hash: Hash)
    requires ReceiverOk(me, node, log, hash)
    ensures me.state.applying.Some? ==> me.state.applying.value.generation.sequence <= |log|
  {
    hide OfferOf;
  }

  lemma OfferActions(me: Side, peer: Side, k: NonZeroU64, hash: Hash)
    requires HalfOk(me, peer, hash) && k <= |peer.log|
    ensures var r, applying :=
            Operation(me, peer, OfferArrives(k), hash), Happens(me, peer, OfferArrives(k), hash).state.applying;
            && Happens(me, peer, OfferArrives(k), hash).log == me.log
            && (applying.Some? ==> applying.value.generation.sequence <= |peer.log|)
            && r.result == Ok(if applying.Some? && me.state.applying.None?
                              then [ApplyRemote(Transferred(peer.state.localNode, peer.log,
                                applying.value.generation.sequence))] else [])
  {
    hide ReceiveOffer, Inv, Verify, OfferOf, Known, Promoted, StartOf, Genuine;
    var s, node, log := me.state, peer.state.localNode, peer.log;
    var offer := OfferOf(Transferred(node, log, k), hash);
    ReceiverHonest(me, node, log, hash);
    OfferOutcome(s, node, log, k, hash);
    ApplyingIsKnown(me, node, log, hash);
    if !Known(s, k) {
      WithOfferKeeps(me, node, log, k, hash);
      var with := WithOffer(s, k, offer);
      StartIsGenuine(with, node, log, hash);
    }
  }

  lemma TextActions(me: Side, peer: Side, k: NonZeroU64, hash: Hash)
    requires HalfOk(me, peer, hash) && k <= |peer.log|
    ensures var r, applying :=
            Operation(me, peer, TextArrives(k), hash), Happens(me, peer, TextArrives(k), hash).state.applying;
            && Happens(me, peer, TextArrives(k), hash).log == me.log
            && (applying.Some? ==> applying.value.generation.sequence <= |peer.log|)
            && r.result == Ok(if applying.Some? && me.state.applying.None?
                              then [ApplyRemote(Transferred(peer.state.localNode, peer.log,
                                applying.value.generation.sequence))] else [])
  {
    hide ReceiveTransfer, Inv, Verify, OfferOf, Known, Promoted, StartOf, Genuine;
    var s, node, log := me.state, peer.state.localNode, peer.log;
    var transfer := Transferred(node, log, k);
    ReceiverHonest(me, node, log, hash);
    TextOutcome(s, node, log, k, hash);
    ApplyingIsKnown(me, node, log, hash);
    if !Known(s, k) {
      WithTextKeeps(me, node, log, k, hash);
      var with := WithText(s, k, transfer);
      StartIsGenuine(with, node, log, hash);
    }
  }

  lemma ConfirmActions(me: Side, peer: Side, hash: Hash)
    requires HalfOk(me, peer, hash) && me.state.applying.Some?
    ensures var r, applying := Operation(me, peer, Confirms, hash), Happens(me, peer, Confirms, hash).state.applying;
            && Happens(me, peer, Confirms, hash).log == me.log
            && (applying.Some? ==> applying.value.generation.sequence <= |peer.log|)
            && r.result == Ok([SendControl(Applied(me.state.applying.value.generation))]
                              + if applying.Some?
                                then [ApplyRemote(Transferred(peer.state.localNode, peer.log,
                                  applying.value.generation.sequence))] else [])
  {
    hide Verify, OfferOf;
  }

  lemma AckActions(me: Side, peer: Side, k: NonZeroU64, hash: Hash)
    requires HalfOk(peer, me, hash) && k in peer.acknowledged && Operation(me, peer, AckArrives(k), hash).result.Ok?
    ensures Operation(me, peer, AckArrives(k), hash).result == Ok([])
    ensures Happens(me, peer, AckArrives(k), hash).log == me.log
    ensures Happens(me, peer, AckArrives(k), hash).state.applying == me.state.applying
  {
    hide Inv;
  }

  /**
   * The records are what is put on the network: an edit sends exactly the offer and the text it logs, or
   * nothing; a confirmation sends exactly the acknowledgement it records; and a text is handed to the
   * platform exactly when its pair enters application, as the sender announced it.
   */
  lemma ActionsMatchRecords(me: Side, peer: Side, event: Event, hash: Hash)
    requires HalfOk(me, peer, hash) && HalfOk(peer, me, hash) && Possible(me, peer, event)
    requires Operation(me, peer, event, hash).result.Ok?
    ensures var applying := Happens(me, peer, event, hash).state.applying;
            applying.Some? ==> applying.value.generation.sequence <= |peer.log|
    ensures var actions, next := Operation(me, peer, event, hash).result.value, Happens(me, peer, event, hash);
            var sent := if next.log == me.log then []
                        else
                          var transfer := Transferred(me.state.localNode, next.log, |next.log|);
                          [SendControl(Offered(OfferOf(transfer, hash))), SendTransfer(transfer)];
            var confirmed := if event.Confirms? then [SendControl(Applied(me.state.applying.value.generation))] else [];
            var starts := next.state.applying.Some? && (event.Confirms? || me.state.applying.None?);
            var started := if starts
                           then [ApplyRemote(Transferred(peer.state.localNode, peer.log,
                             next.state.applying.value.generation.sequence))]
                           else [];
            actions == sent + confirmed + started
  {
    hide HalfOk, Happens, Operation;
    match event
    case Edits(text) =>
      EditActions(me, peer, text, hash);
      HalfApplying(me, peer, hash);
    case OfferArrives(k) => OfferActions(me, peer, k, hash);
    case TextArrives(k) => TextActions(me, peer, k, hash);
    case Confirms => ConfirmActions(me, peer, hash);
    case AckArrives(k) =>
      AckActions(me, peer, k, hash);
      HalfApplying(me, peer, hash);
  }

  // ---- Convergence ----

  lemma Settles(me: Side, peer: Side, n: NonZeroU64, hash: Hash)
    requires HalfOk(me, peer, hash)
    requires n == |peer.log| && n in me.offersSeen && n in me.textsSeen && me.state.applying.None?
    ensures me.state.lastApplied == n && me.state.highest == n && peer.state.lastSent == n
    ensures me.state.incoming.None? && n in me.acknowledged
    ensures me.state.remoteText.Some? ==> me.state.remoteText.value == peer.log[n - 1]
    ensures n in peer.acksSeen ==> peer.state.lastAcknowledged == n && peer.state.pendingLocal.None?
  {
  }

  /**
   * The newest text wins: once the last generation's offer and text have both arrived and nothing is being
   * applied, the receiver has applied exactly that generation, it is the highest it ever saw and the last
   * one sent, its acknowledgement is on the way, and when that has arrived the sender has nothing pending.
   * This holds after every run, whatever was lost, repeated or reordered, and whoever else was editing.
   */
  lemma {:induction false} NewestWins(left: NodeId, right: NodeId, moves: seq<Move>, n: NonZeroU64, hash: Hash)
    requires Runs(Start(left, right), moves, hash)
    requires var p := After(Start(left, right), moves, hash);
             n == |p.left.log| && n in p.right.offersSeen && n in p.right.textsSeen && p.right.state.applying.None?
    ensures var p := After(Start(left, right), moves, hash);
            && p.right.state.lastApplied == p.right.state.highest == p.left.state.lastSent == n
            && p.right.state.incoming.None? && n in p.right.acknowledged
            && (p.right.state.remoteText.Some? ==> p.right.state.remoteText.value == p.left.log[n - 1])
            && (n in p.left.acksSeen ==> p.left.state.lastAcknowledged == n && p.left.state.pendingLocal.None?)
  {
    hide HalfOk, Start;
    RunKeepsLinked(left, right, moves, hash);
    var p := After(Start(left, right), moves, hash);
    Settles(p.right, p.left, n, hash);
  }

  // Confirming the application under way and, if another was waiting behind it, that one too.
  function Confirmed(me: Side, peer: Side, hash: Hash): Side {
    if me.state.applying.None? then me
    else
      var once := Happens(me, peer, Confirms, hash);
      if once.state.applying.None? then once else Happens(once, peer, Confirms, hash)
  }

  function Drained(me: Side, peer: Side, n: NonZeroU64, hash: Hash): Side
    requires n <= |peer.log|
  {
    Confirmed(Happens(Happens(me, peer, OfferArrives(n), hash), peer, TextArrives(n), hash), peer, hash)
  }

  lemma ConfirmDrains(me: Side, peer: Side, hash: Hash)
    requires HalfOk(me, peer, hash) && me.state.applying.Some?
    ensures var once := Happens(me, peer, Confirms, hash);
            && once.offersSeen == me.offersSeen && once.textsSeen == me.textsSeen
            && (once.state.applying.Some? ==> me.state.incoming.Some? && once.state.incoming.None?)
            && once.state.remoteText.Some?
  {
    hide Verify, OfferOf, Genuine;
  }

  lemma NothingAfterNewest(me: Side, peer: Side, hash: Hash)
    requires HalfOk(me, peer, hash)
    ensures me.state.lastApplied == |peer.log| ==> me.state.applying.None?
  {
  }

  lemma DeliverySteps(me: Side, peer: Side, n: NonZeroU64, hash: Hash)
    requires HalfOk(me, peer, hash) && n == |peer.log|
    requires HalfOk(Happens(me, peer, OfferArrives(n), hash), peer, hash)
    ensures var delivered := Happens(Happens(me, peer, OfferArrives(n), hash), peer, TextArrives(n), hash);
            && n in delivered.offersSeen && n in delivered.textsSeen
            && delivered.state.lastApplied == me.state.lastApplied
            && (n == me.state.lastApplied ==> delivered.state == me.state && me.state.applying.None?)
  {
    hide ReceiveOffer, ReceiveTransfer, Inv, Verify, OfferOf;
    var transfer := Transferred(peer.state.localNode, peer.log, n);
    OfferKeepsInv(me.state, OfferOf(transfer, hash), hash);
    TransferKeepsInv(Happens(me, peer, OfferArrives(n), hash).state, transfer, hash);
    OfferOutcome(me.state, peer.state.localNode, peer.log, n, hash);
    TextOutcome(Happens(me, peer, OfferArrives(n), hash).state, peer.state.localNode, peer.log, n, hash);
    NothingAfterNewest(me, peer, hash);
  }

  /**
   * Convergence is always within reach: from any state, delivering the last generation's offer and text
   * and confirming at most twice applies exactly that generation.
   */
  lemma DrainConverges(me: Side, peer: Side, n: NonZeroU64, hash: Hash)
    requires HalfOk(me, peer, hash) && HalfOk(peer, me, hash) && n == |peer.log|
    ensures var done := Drained(me, peer, n, hash);
            && done.state.applying.None? && done.state.lastApplied == n
            && done.state.remoteText == (if n == me.state.lastApplied then me.state.remoteText
                 else Some(peer.log[n - 1]))
  {
    hide HalfOk, Happens;
    var offered := Happens(me, peer, OfferArrives(n), hash);
    HappensKeeps(me, peer, OfferArrives(n), hash);
    var delivered := Happens(offered, peer, TextArrives(n), hash);
    HappensKeeps(offered, peer, TextArrives(n), hash);
    DeliverySteps(me, peer, n, hash);
    if delivered.state.applying.None? {
      Settles(delivered, peer, n, hash);
    } else {
      ConfirmDrains(delivered, peer, hash);
      HappensKeeps(delivered, peer, Confirms, hash);
      var once := Happens(delivered, peer, Confirms, hash);
      if once.state.applying.None? {
        Settles(once, peer, n, hash);
      } else {
        ConfirmDrains(once, peer, hash);
        HappensKeeps(once, peer, Confirms, hash);
        Settles(Happens(once, peer, Confirms, hash), peer, n, hash);
      }
    }
  }

  /** Writing a text that was just applied back to the clipboard announces nothing. */
  lemma EchoAnnouncesNothing(me: Side, peer: Side, hash: Hash)
    requires HalfOk(me, peer, hash) && me.state.applying.Some?
    ensures var once := Happens(me, peer, Confirms, hash);
            var text := peer.log[me.state.applying.value.generation.sequence - 1];
            Happens(once, peer, Edits(text), hash) == once && Operation(once, peer, Edits(text), hash).result == Ok([])
  {
    hide Verify, OfferOf;
  }

  // The text an echo at the left side would repeat: the last one confirmed there, until an edit is announced.
  function Remembered(p: Pair, moves: seq<Move>, hash: Hash): Option<Text>
    requires Runs(p, moves, hash)
  {
    if moves == [] then None
    else
      var before, last := After(p, moves[..|moves| - 1], hash), moves[|moves| - 1];
      var earlier := Remembered(p, moves[..|moves| - 1], hash);
      if !last.atLeft then earlier
      else match last.event
        case Confirms =>
          (match before.left.state.applying.value.transfer
           case None => earlier
           case Some(transfer) => Some(transfer.text))
        case Edits(_) =>
          var r := Operation(before.left, before.right, last.event, hash).result;
          if r.Err? || r == Ok([]) then earlier else None
        case _ => earlier
  }

  lemma OfferForgetsNothing(me: Side, peer: Side, k: NonZeroU64, hash: Hash)
    requires HalfOk(me, peer, hash) && k <= |peer.log|
    ensures Happens(me, peer, OfferArrives(k), hash).state.remoteText == me.state.remoteText
  {
    hide ReceiveOffer, Inv, Verify, OfferOf, Known;
    ReceiverHonest(me, peer.state.localNode, peer.log, hash);
    OfferOutcome(me.state, peer.state.localNode, peer.log, k, hash);
  }

  lemma TextForgetsNothing(me: Side, peer: Side, k: NonZeroU64, hash: Hash)
    requires HalfOk(me, peer, hash) && k <= |peer.log|
    ensures Happens(me, peer, TextArrives(k), hash).state.remoteText == me.state.remoteText
  {
    hide ReceiveTransfer, Inv, Verify, OfferOf, Known;
    ReceiverHonest(me, peer.state.localNode, peer.log, hash);
    TextOutcome(me.state, peer.state.localNode, peer.log, k, hash);
  }

  lemma RememberedStep(me: Side, peer: Side, event: Event, hash: Hash)
    requires HalfOk(me, peer, hash) && HalfOk(peer, me, hash) && Possible(me, peer, event)
    ensures var r, next := Operation(me, peer, event, hash), Happens(me, peer, event, hash).state.remoteText;
            match event
            case Confirms =>
              me.state.applying.value.transfer.Some? && next == Some(me.state.applying.value.transfer.value.text)
            case Edits(_) => next == if r.result.Err? || r.result == Ok([]) then me.state.remoteText else None
            case _ => next == me.state.remoteText
  {
    match event
    case Edits(text) => hide Inv, OfferOf;
    case OfferArrives(k) => OfferForgetsNothing(me, peer, k, hash);
    case TextArrives(k) => TextForgetsNothing(me, peer, k, hash);
    case Confirms => hide Verify, OfferOf;
    case AckArrives(k) => hide Inv;
  }

  lemma EchoStep(me: Side, peer: Side, text: Text, hash: Hash)
    ensures Operation(me, peer, Edits(text), hash).result == Ok([]) <==> me.state.remoteText == Some(text)
    ensures me.state.remoteText == Some(text) ==> Happens(me, peer, Edits(text), hash) == me
  {
  }

  /**
   * A change notification is suppressed exactly when it repeats the text last confirmed, and no edit was
   * announced and no other text confirmed since: a later echo is suppressed just as the first one is.
   */
  lemma {:induction false} EchoIsSuppressedExactly(left: NodeId, right: NodeId, moves: seq<Move>, text: Text,
          hash: Hash)
    requires Runs(Start(left, right), moves, hash)
    ensures var p := After(Start(left, right), moves, hash);
            && p.left.state.remoteText == Remembered(Start(left, right), moves, hash)
            && (Operation(p.left, p.right, Edits(text), hash).result == Ok([]) <==>
                  Remembered(Start(left, right), moves, hash) == Some(text))
            && (Remembered(Start(left, right), moves, hash) == Some(text) ==>
                  Happens(p.left, p.right, Edits(text), hash) == p.left)
  {
    if moves != [] {
      hide HalfOk, Happens, Operation, Start;
      var front, last := moves[..|moves| - 1], moves[|moves| - 1];
      EchoIsSuppressedExactly(left, right, front, text, hash);
      RunKeepsLinked(left, right, front, hash);
      var p := After(Start(left, right), front, hash);
      if last.atLeft {
        RememberedStep(p.left, p.right, last.event, hash);
      }
    }
    EchoStep(After(Start(left, right), moves, hash).left, After(Start(left, right), moves, hash).right, text, hash);
  }
}
