/** Clipboard generations, the offers that announce a text, and the texts themselves. */
module ClipboardData {
  import opened Base

  type NonZeroU64 = x: int | 1 <= x <= 0xffff_ffff_ffff_ffff witness 1

  // UTF-8 bytes; every length in the protocol is a byte count.
  type Text = seq<Byte>

  type Digest = seq<Byte>

  // The hash is a parameter: no property here depends on what it computes.
  type Hash = Text -> Digest

  const MAX_CLIPBOARD_TEXT_BYTES := 1024 * 1024

  datatype Generation = Generation(owner: NodeId, sequence: NonZeroU64)

  datatype Offer = Offer(generation: Generation, textBytes: U32, digest: Digest)

  datatype Transfer = Transfer(generation: Generation, text: Text)

  datatype Control = Offered(offer: Offer) | Applied(generation: Generation)

  datatype ClipboardError =
    | TextTooLarge(actual: nat)
    | GenerationMismatch
    | LengthMismatch(offered: nat, actual: nat)
    | DigestMismatch

  function NewTransfer(generation: Generation, text: Text): Result<Transfer, ClipboardError> {
    if |text| > MAX_CLIPBOARD_TEXT_BYTES then Err(TextTooLarge(|text|)) else Ok(Transfer(generation, text))
  }

  function OfferOf(transfer: Transfer, hash: Hash): Offer {
    Offer(transfer.generation, if |transfer.text| <= 0xffff_ffff then |transfer.text|
      else 0xffff_ffff, hash(transfer.text))
  }

  function Verify(offer: Offer, transfer: Transfer, hash: Hash): Result<(), ClipboardError> {
    if offer.generation != transfer.generation then Err(GenerationMismatch)
    else if offer.textBytes != |transfer.text| then Err(LengthMismatch(offer.textBytes, |transfer.text|))
    else if offer.digest != hash(transfer.text) then Err(DigestMismatch)
    else Ok(())
  }

  /** An offer accepts a text exactly when it is the offer that text would make. */
  lemma VerifyIsOwnOffer(offer: Offer, transfer: Transfer, hash: Hash)
    requires |transfer.text| <= MAX_CLIPBOARD_TEXT_BYTES
    ensures Verify(offer, transfer, hash).Ok? <==> offer == OfferOf(transfer, hash)
    ensures Verify(offer, transfer, hash).Ok? <==>
              && offer.generation == transfer.generation
              && offer.textBytes == |transfer.text| && offer.digest == hash(transfer.text)
  {
  }
}
