/** One side of a clipboard session as the object it is: every method updates the fields and meets its specification. */
module ClipboardSessions {
  import opened Base
  import opened ClipboardData
  import opened ClipboardProtocol

  class ClipboardSession {
    const localNode: NodeId
    const peerNode: NodeId
    const hash: Hash
    var nextLocalSequence: Option<NonZeroU64>
    var lastSent: U64
    var lastAcknowledged: U64
    var lastApplied: U64
    var highest: U64
    var pendingLocal: Option<Generation>
    var incoming: Option<Incoming>
    var applying: Option<Incoming>
    var remoteText: Option<Text>

    function Current(): State
      reads this
    {
      State(localNode, peerNode, nextLocalSequence, lastSent, lastAcknowledged, lastApplied, highest, pendingLocal,
            incoming, applying, remoteText)
    }

    constructor (localNode: NodeId, peerNode: NodeId, hash: Hash)
      ensures Current() == New(localNode, peerNode) && this.hash == hash
    {
      this.localNode, this.peerNode, this.hash := localNode, peerNode, hash;
      nextLocalSequence := Some(1);
      lastSent, lastAcknowledged, lastApplied, highest := 0, 0, 0, 0;
      pendingLocal, incoming, applying, remoteText := None, None, None, None;
    }

    method ChangeLocal(text: Text) returns (r: Result<seq<Action>, Error>)
      modifies this
      ensures Outcome(Current(), r) == LocalChanged(old(Current()), text, hash)
    {
      if remoteText == Some(text) {
        return Ok([]);
      }
      if nextLocalSequence.None? {
        return Err(LocalSequenceExhausted);
      }
      var sequence := nextLocalSequence.value;
      var generation := Generation(localNode, sequence);
      var made := NewTransfer(generation, text);
      if made.Err? {
        return Err(Invalid(made.error));
      }
      nextLocalSequence := if sequence == U64_MAX then None else Some(sequence + 1);
      lastSent := sequence;
      pendingLocal := Some(generation);
      remoteText := None;
      return Ok([SendControl(Offered(OfferOf(made.value, hash))), SendTransfer(made.value)]);
    }

    method HandleControl(control: Control) returns (r: Result<seq<Action>, Error>)
      modifies this
      ensures Outcome(Current(), r) == ReceiveControl(old(Current()), control, hash)
    {
      match control {
        case Offered(offer) => r := HandleOffer(offer);
        case Applied(generation) =>
          var acknowledged := HandleAcknowledgement(generation);
          return match acknowledged case Ok(_) => Ok([]) case Err(error) => Err(error);
      }
    }

    method HandleTransfer(transfer: Transfer) returns (r: Result<seq<Action>, Error>)
      modifies this
      ensures Outcome(Current(), r) == ReceiveTransfer(old(Current()), transfer, hash)
    {
      var staged := Stage(transfer.generation);
      if staged.Err? {
        return Err(staged.error);
      }
      match staged.value {
        case Ignore => return Ok([]);
        case Applying =>
          if applying.None? {
            return Err(StateInvariant);
          }
          return if applying.value.transfer == Some(transfer) then Ok([])
            else Err(ConflictingTransfer(transfer.generation));
        case Fresh =>
          if incoming.None? {
            return Err(StateInvariant);
          }
          if incoming.value.transfer.Some? {
            return if incoming.value.transfer.value != transfer then Err(ConflictingTransfer(transfer.generation))
              else Ok([]);
          }
          incoming := Some(incoming.value.(transfer := Some(transfer)));
          r := Finish();
      }
    }

    method HandleOffer(offer: Offer) returns (r: Result<seq<Action>, Error>)
      modifies this
      ensures Outcome(Current(), r) == ReceiveOffer(old(Current()), offer, hash)
    {
      var staged := Stage(offer.generation);
      if staged.Err? {
        return Err(staged.error);
      }
      match staged.value {
        case Ignore => return Ok([]);
        case Applying =>
          if applying.None? {
            return Err(StateInvariant);
          }
          return if applying.value.offer == Some(offer) then Ok([]) else Err(ConflictingOffer(offer.generation));
        case Fresh =>
          if incoming.None? {
            return Err(StateInvariant);
          }
          if incoming.value.offer.Some? {
            return if incoming.value.offer.value != offer then Err(ConflictingOffer(offer.generation)) else Ok([]);
          }
          incoming := Some(incoming.value.(offer := Some(offer)));
          r := Finish();
      }
    }

    method HandleAcknowledgement(generation: Generation) returns (r: Result<(), Error>)
      modifies this
      ensures (Current(), r) == ReceiveAcknowledgement(old(Current()), generation)
    {
      if generation.owner != localNode {
        return Err(UnexpectedGenerationOwner(localNode, generation.owner));
      }
      if generation.sequence > lastSent {
        return Err(AcknowledgementBeyondSent(generation.sequence, lastSent));
      }
      if generation.sequence <= lastAcknowledged {
        return Ok(());
      }
      lastAcknowledged := generation.sequence;
      if pendingLocal.Some? && pendingLocal.value.sequence <= generation.sequence {
        pendingLocal := None;
      }
      return Ok(());
    }

    /** Confirms that the pending application was made, acknowledges it, and starts the pair waiting behind it. */
    method Confirm(generation: Generation) returns (r: Result<seq<Action>, Error>)
      modifies this
      ensures Outcome(Current(), r) == ConfirmApplied(old(Current()), generation, hash)
    {
      if applying.None? {
        return Err(NoApplicationPending);
      }
      if applying.value.generation != generation {
        return Err(ApplicationGenerationMismatch(applying.value.generation, generation));
      }
      var valid := CheckIncoming();
      if valid.Err? {
        return Err(valid.error);
      }
      var applied := applying.value;
      applying := None;
      if applied.transfer.None? {
        return Err(StateInvariant);
      }
      lastApplied := generation.sequence;
      remoteText := Some(applied.transfer.value.text);
      var begun := Begin();
      if begun.Err? {
        return begun;
      }
      return Ok([SendControl(Applied(generation))] + begun.value);
    }

    method Stage(generation: Generation) returns (r: Result<ClipboardProtocol.Stage, Error>)
      modifies this`highest, this`incoming
      ensures (Current(), r) == StageGeneration(old(Current()), generation)
    {
      if generation.owner != peerNode {
        return Err(UnexpectedGenerationOwner(peerNode, generation.owner));
      }
      if generation.sequence <= lastApplied || generation.sequence < highest {
        return Ok(Ignore);
      }
      if applying.Some? && applying.value.generation == generation {
        return Ok(Applying);
      }
      if generation.sequence > highest {
        highest := generation.sequence;
        incoming := Some(Incoming(generation, None, None));
      } else if incoming.None? {
        incoming := Some(Incoming(generation, None, None));
      }
      if incoming.None? || incoming.value.generation != generation {
        return Err(StateInvariant);
      }
      return Ok(Fresh);
    }

    method Finish() returns (r: Result<seq<Action>, Error>)
      modifies this`incoming, this`applying
      ensures Outcome(Current(), r) == FinishIncoming(old(Current()), hash)
    {
      var valid := CheckIncoming();
      if valid.Err? {
        incoming := None;
        return Err(valid.error);
      }
      if applying.Some? {
        return Ok([]);
      }
      r := Begin();
    }

    method CheckIncoming() returns (r: Result<(), Error>)
      ensures r == ValidateIncoming(Current(), hash)
    {
      if incoming.None? || !incoming.value.Ready() {
        return Ok(());
      }
      var verified := Verify(incoming.value.offer.value, incoming.value.transfer.value, hash);
      return match verified case Ok(_) => Ok(()) case Err(error) => Err(Invalid(error));
    }

    method Begin() returns (r: Result<seq<Action>, Error>)
      modifies this`incoming, this`applying
      ensures Outcome(Current(), r) == BeginApplication(old(Current()), hash)
    {
      if applying.Some? || incoming.None? || !incoming.value.Ready() {
        return Ok([]);
      }
      var pair := incoming.value;
      incoming := None;
      var verified := Verify(pair.offer.value, pair.transfer.value, hash);
      if verified.Err? {
        return Err(Invalid(verified.error));
      }
      applying := Some(pair);
      return Ok([ApplyRemote(pair.transfer.value)]);
    }
  }
}
