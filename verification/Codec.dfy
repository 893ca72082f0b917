/** Length-delimited frames: encoding one message, and decoding a stream that arrives in arbitrary pieces. */
module Codec {
  import opened Base

  const LENGTH_PREFIX_BYTES := 4
  const HARD_MAX_FRAME_BYTES := 16 * 1024 * 1024

  type FrameLimit = x: int | 1 <= x <= HARD_MAX_FRAME_BYTES witness 1

  // The serializer and the message check are parameters; either may refuse.
  datatype Format<!M> = Format(
    serialize: M -> Option<seq<Byte>>,
    deserialize: seq<Byte> -> Option<M>,
    valid: M -> bool)

  datatype Error =
    | InvalidMaximum(requested: nat)
    | FrameTooLarge(actual: nat, maximum: nat)
    | SerializeFailed
    | DeserializeFailed
    | InvalidMessage

  // ---- The length prefix ----

  function BigEndian(n: U32): (s: seq<Byte>)
    ensures |s| == LENGTH_PREFIX_BYTES
  {
    [n / 0x100 / 0x100 / 0x100, n / 0x100 / 0x100 % 0x100, n / 0x100 % 0x100, n % 0x100]
  }

  function FromBigEndian(s: seq<Byte>): U32
    requires |s| == LENGTH_PREFIX_BYTES
  {
    ((s[0] as int * 0x100 + s[1]) * 0x100 + s[2]) * 0x100 + s[3]
  }

  lemma Digit(high: int, low: Byte)
    ensures (high * 0x100 + low) / 0x100 == high && (high * 0x100 + low) % 0x100 == low
  {
  }

  /** The prefix determines the length, most significant byte first, and the length the prefix. */
  lemma PrefixRoundTrip(n: U32, s: seq<Byte>)
    requires |s| == LENGTH_PREFIX_BYTES
    ensures FromBigEndian(BigEndian(n)) == n && BigEndian(FromBigEndian(s)) == s
    ensures FromBigEndian(s) == s[0] as int * 0x100_0000 + s[1] as int * 0x1_0000 + s[2] as int * 0x100 + s[3]
  {
    var first: int := s[0];
    var second := first * 0x100 + s[1];
    var third := second * 0x100 + s[2];
    Digit(first, s[1]);
    Digit(second, s[2]);
    Digit(third, s[3]);
  }

  // ---- Specification ----

  function Encode<M>(format: Format<M>, maximum: FrameLimit, message: M): Result<seq<Byte>, Error> {
    if !format.valid(message) then Err(InvalidMessage)
    else match format.serialize(message)
      case None => Err(SerializeFailed)
      case Some(payload) =>
        if |payload| > maximum then Err(FrameTooLarge(|payload|, maximum)) else Ok(BigEndian(|payload|) + payload)
  }

  // The bytes left, and a message when a whole frame was there.
  function Decode<M>(format: Format<M>, maximum: FrameLimit, source: seq<Byte>)
    : (r: (seq<Byte>, Result<Option<M>, Error>))
    ensures r.1.Ok? && r.1.value.Some? ==> |r.0| < |source|
  {
    if |source| < LENGTH_PREFIX_BYTES then (source, Ok(None))
    else
      var length := FromBigEndian(source[..LENGTH_PREFIX_BYTES]);
      if length > maximum then (source, Err(FrameTooLarge(length, maximum)))
      else if |source| < LENGTH_PREFIX_BYTES + length then (source, Ok(None))
      else
        var rest := source[LENGTH_PREFIX_BYTES + length..];
        match format.deserialize(source[LENGTH_PREFIX_BYTES..LENGTH_PREFIX_BYTES + length])
        case None => (rest, Err(DeserializeFailed))
        case Some(message) => (rest, if format.valid(message) then Ok(Some(message)) else Err(InvalidMessage))
  }

  class ByteBuffer {
    var bytes: seq<Byte>

    constructor ()
      ensures bytes == []
    {
      bytes := [];
    }

    method Extend(more: seq<Byte>)
      modifies this
      ensures bytes == old(bytes) + more
    {
      bytes := bytes + more;
    }
  }

  class FrameCodec<!M> {
    const format: Format<M>
    const maximum: FrameLimit

    constructor (format: Format<M>, maximum: FrameLimit)
      ensures this.format == format && this.maximum == maximum
    {
      this.format, this.maximum := format, maximum;
    }

    static method Open(format: Format<M>, requested: nat) returns (r: Result<FrameCodec<M>, Error>)
      ensures r.Ok? <==> 1 <= requested <= HARD_MAX_FRAME_BYTES
      ensures r.Ok? ==> fresh(r.value) && r.value.format == format && r.value.maximum == requested
      ensures r.Err? ==> r.error == InvalidMaximum(requested)
    {
      if requested == 0 || requested > HARD_MAX_FRAME_BYTES {
        return Err(InvalidMaximum(requested));
      }
      var codec := new FrameCodec(format, requested);
      return Ok(codec);
    }

    method EncodeMessage(message: M) returns (r: Result<seq<Byte>, Error>)
      ensures r == Encode(format, maximum, message)
    {
      if !format.valid(message) {
        return Err(InvalidMessage);
      }
      var payload := format.serialize(message);
      if payload.None? {
        return Err(SerializeFailed);
      }
      if |payload.value| > maximum {
        return Err(FrameTooLarge(|payload.value|, maximum));
      }
      return Ok(BigEndian(|payload.value|) + payload.value);
    }

    /** Takes one whole frame off the front of the buffer, or leaves an incomplete one for later. */
    method DecodeNext(source: ByteBuffer) returns (r: Result<Option<M>, Error>)
      modifies source
      ensures (source.bytes, r) == Decode(format, maximum, old(source.bytes))
    {
      if |source.bytes| < LENGTH_PREFIX_BYTES {
        return Ok(None);
      }
      var length := FromBigEndian(source.bytes[..LENGTH_PREFIX_BYTES]);
      if length > maximum {
        return Err(FrameTooLarge(length, maximum));
      }
      if |source.bytes| < LENGTH_PREFIX_BYTES + length {
        return Ok(None);
      }
      ghost var before := source.bytes;
      source.bytes := source.bytes[LENGTH_PREFIX_BYTES..];
      var payload := source.bytes[..length];
      source.bytes := source.bytes[length..];
      assert payload == before[LENGTH_PREFIX_BYTES..LENGTH_PREFIX_BYTES + length];
      assert source.bytes == before[LENGTH_PREFIX_BYTES + length..];
      var message := format.deserialize(payload);
      if message.None? {
        return Err(DeserializeFailed);
      }
      if !format.valid(message.value) {
        return Err(InvalidMessage);
      }
      return Ok(Some(message.value));
    }
  }

  // ---- Streams ----

  // What a reader has so far: the messages decoded, the bytes kept, and the error that ended it, if any.
  datatype Reader<M> = Reader(received: seq<M>, kept: seq<Byte>, failure: Option<Error>)

  // Decoding until a frame is incomplete, or decoding fails.
  function Drain<M>(format: Format<M>, maximum: FrameLimit, source: seq<Byte>): Reader<M>
    decreases |source|
  {
    var (rest, r) := Decode(format, maximum, source);
    match r
    case Err(error) => Reader([], rest, Some(error))
    case Ok(None) => Reader([], source, None)
    case Ok(Some(message)) =>
      var more := Drain(format, maximum, rest);
      more.(received := [message] + more.received)
  }

  // A reader that failed reads no more.
  function Feed<M>(format: Format<M>, maximum: FrameLimit, reader: Reader<M>, piece: seq<Byte>): Reader<M> {
    if reader.failure.Some? then reader
    else
      var more := Drain(format, maximum, reader.kept + piece);
      more.(received := reader.received + more.received)
  }

  function FeedAll<M>(format: Format<M>, maximum: FrameLimit, pieces: seq<seq<Byte>>): Reader<M> {
    if pieces == [] then Reader([], [], None)
    else Feed(format, maximum, FeedAll(format, maximum, pieces[..|pieces| - 1]), pieces[|pieces| - 1])
  }

  function Concat(pieces: seq<seq<Byte>>): seq<Byte> {
    if pieces == [] then [] else Concat(pieces[..|pieces| - 1]) + pieces[|pieces| - 1]
  }

  // A decision made on some bytes stands when more follow.
  lemma DecodeExtends<M>(format: Format<M>, maximum: FrameLimit, source: seq<Byte>, more: seq<Byte>)
    requires Decode(format, maximum, source).1 != Ok(None)
    ensures var (rest, r) := Decode(format, maximum, source);
            Decode(format, maximum, source + more) == (rest + more, r)
  {
    var length := FromBigEndian(source[..LENGTH_PREFIX_BYTES]);
    assert (source + more)[..LENGTH_PREFIX_BYTES] == source[..LENGTH_PREFIX_BYTES];
    if length <= maximum {
      var end := LENGTH_PREFIX_BYTES + length;
      assert (source + more)[LENGTH_PREFIX_BYTES..end] == source[LENGTH_PREFIX_BYTES..end];
      assert (source + more)[end..] == source[end..] + more;
    }
  }

  lemma {:induction false} DrainExtends<M>(format: Format<M>, maximum: FrameLimit, source: seq<Byte>, more: seq<Byte>)
    ensures var first, whole := Drain(format, maximum, source), Drain(format, maximum, source + more);
            if first.failure.Some? then whole.received == first.received && whole.failure == first.failure
            else
              var second := Drain(format, maximum, first.kept + more);
              whole == second.(received := first.received + second.received)
    decreases |source|
  {
    hide Decode;
    var (rest, r) := Decode(format, maximum, source);
    if r != Ok(None) {
      DecodeExtends(format, maximum, source, more);
      if r.Ok? {
        DrainExtends(format, maximum, rest, more);
      }
    }
  }

  /**
   * Fragmentation never matters: whatever bytes arrive, valid or not, cut anywhere, the reader gets the same
   * messages and the same failure as if they had arrived at once, and keeps the same rest unless it failed.
   */
  lemma {:induction false} FragmentationIsInvisible<M>(format: Format<M>, maximum: FrameLimit, pieces: seq<seq<Byte>>)
    ensures var fed, whole := FeedAll(format, maximum, pieces), Drain(format, maximum, Concat(pieces));
            fed.received == whole.received && fed.failure == whole.failure &&
              (fed.failure.None? ==> fed.kept == whole.kept)
  {
    if pieces != [] {
      hide Drain;
      var before := pieces[..|pieces| - 1];
      FragmentationIsInvisible(format, maximum, before);
      DrainExtends(format, maximum, Concat(before), pieces[|pieces| - 1]);
    } else {
    }
  }

  // ---- Valid streams ----

  ghost predicate Inverts<M(!new)>(format: Format<M>) {
    forall message :: format.serialize(message).Some? ==>
      format.deserialize(format.serialize(message).value) == Some(message)
  }

  predicate Encodable<M>(format: Format<M>, maximum: FrameLimit, messages: seq<M>) {
    forall i :: 0 <= i < |messages| ==> Encode(format, maximum, messages[i]).Ok?
  }

  function Frames<M>(format: Format<M>, maximum: FrameLimit, messages: seq<M>): seq<Byte>
    requires Encodable(format, maximum, messages)
  {
    if messages == [] then [] else Encode(format, maximum, messages[0]).value + Frames(format, maximum, messages[1..])
  }

  /** Decoding an encoded message gives it back and leaves exactly what followed it. */
  lemma EncodeDecode<M(!new)>(format: Format<M>, maximum: FrameLimit, message: M, more: seq<Byte>)
    requires Inverts(format) && Encode(format, maximum, message).Ok?
    ensures Decode(format, maximum, Encode(format, maximum, message).value + more) == (more, Ok(Some(message)))
  {
    var payload := format.serialize(message).value;
    var prefix := BigEndian(|payload|);
    var source := prefix + payload + more;
    PrefixRoundTrip(|payload|, prefix);
    assert source[..LENGTH_PREFIX_BYTES] == prefix;
    assert source[LENGTH_PREFIX_BYTES..LENGTH_PREFIX_BYTES + |payload|] == payload;
    assert source[LENGTH_PREFIX_BYTES + |payload|..] == more;
  }

  /**
   * A message is encoded exactly when the check and the serializer accept it and it is no longer than the
   * maximum, as four bytes that hold its length and the serialized bytes; otherwise the error names the reason.
   */
  lemma EncodesExactly<M>(format: Format<M>, maximum: FrameLimit, message: M)
    ensures var r := Encode(format, maximum, message);
            && (r.Ok? <==> format.valid(message) && format.serialize(message).Some?
                           && |format.serialize(message).value| <= maximum)
            && (r.Ok? ==>
                  var payload := format.serialize(message).value;
                  && |r.value| == LENGTH_PREFIX_BYTES + |payload| && r.value[LENGTH_PREFIX_BYTES..] == payload
                  && FromBigEndian(r.value[..LENGTH_PREFIX_BYTES]) == |payload|)
            && (r.Err? && r.error.FrameTooLarge? ==>
                  r.error == FrameTooLarge(|format.serialize(message).value|, maximum))
            && (r == Err(InvalidMessage) <==> !format.valid(message))
            && (r == Err(SerializeFailed) <==> format.valid(message) && format.serialize(message).None?)
  {
    if Encode(format, maximum, message).Ok? {
      var payload := format.serialize(message).value;
      var prefix := BigEndian(|payload|);
      PrefixRoundTrip(|payload|, prefix);
      assert (prefix + payload)[..LENGTH_PREFIX_BYTES] == prefix;
    }
  }

  /**
   * What a reader does depends on the announced length alone: with fewer than four bytes it waits; a length
   * beyond the maximum is refused at once, however little has arrived; a frame that has not arrived whole is
   * waited for untouched; and a whole one is taken off exactly, whether or not it holds a message.
   */
  lemma DecodesExactly<M>(format: Format<M>, maximum: FrameLimit, source: seq<Byte>)
    ensures var (rest, r) := Decode(format, maximum, source);
            if |source| < LENGTH_PREFIX_BYTES then rest == source && r == Ok(None)
            else
              var length := FromBigEndian(source[..LENGTH_PREFIX_BYTES]);
              var end := LENGTH_PREFIX_BYTES + length;
              && (r == Err(FrameTooLarge(length, maximum)) <==> length > maximum)
              && (r == Ok(None) <==> length <= maximum && |source| < end)
              && (length > maximum || |source| < end ==> rest == source)
              && (length <= maximum && |source| >= end ==>
                    var message := format.deserialize(source[LENGTH_PREFIX_BYTES..end]);
                    && rest == source[end..]
                    && (r.Ok? <==> message.Some? && format.valid(message.value))
                    && (r.Ok? ==> r.value == message)
                    && (r.Err? ==> r.error == if message.None? then DeserializeFailed else InvalidMessage))
  {
  }

  // A frame cut short decodes to nothing yet.
  lemma CutFrameWaits<M(!new)>(format: Format<M>, maximum: FrameLimit, message: M, cut: seq<Byte>)
    requires Encode(format, maximum, message).Ok? && cut < Encode(format, maximum, message).value
    ensures Drain(format, maximum, cut) == Reader([], cut, None)
  {
    var payload := format.serialize(message).value;
    var prefix := BigEndian(|payload|);
    PrefixRoundTrip(|payload|, prefix);
    if |cut| >= LENGTH_PREFIX_BYTES {
      assert cut[..LENGTH_PREFIX_BYTES] == (prefix + payload)[..LENGTH_PREFIX_BYTES] == prefix;
    }
  }

  // Whole frames are read, and then whatever follows them.
  lemma {:induction false} DrainFrames<M(!new)>(format: Format<M>, maximum: FrameLimit, messages: seq<M>,
          tail: seq<Byte>)
    requires Inverts(format) && Encodable(format, maximum, messages)
    ensures var rest := Drain(format, maximum, tail);
            Drain(format, maximum, Frames(format, maximum, messages) + tail)
            == rest.(received := messages + rest.received)
  {
    hide Decode, Encode;
    if messages == [] {
      assert Frames(format, maximum, messages) + tail == tail;
    } else {
      var frame := Encode(format, maximum, messages[0]).value;
      var rest := Frames(format, maximum, messages[1..]) + tail;
      assert Frames(format, maximum, messages) + tail == frame + rest;
      EncodeDecode(format, maximum, messages[0], rest);
      DrainFrames(format, maximum, messages[1..], tail);
      Regroup([messages[0]], messages[1..], Drain(format, maximum, tail).received);
      assert [messages[0]] + messages[1..] == messages;
    }
  }

  /**
   * An announced length beyond the maximum is refused as soon as its four bytes have arrived, in any pieces:
   * after exactly the messages before it, and whatever follows.
   */
  lemma OversizedIsRefused<M(!new)>(format: Format<M>, maximum: FrameLimit, messages: seq<M>, length: U32,
          more: seq<Byte>, pieces: seq<seq<Byte>>)
    requires Inverts(format) && Encodable(format, maximum, messages) && length > maximum
    requires Concat(pieces) == Frames(format, maximum, messages) + (BigEndian(length) + more)
    ensures var reader := FeedAll(format, maximum, pieces);
            reader.received == messages && reader.failure == Some(FrameTooLarge(length, maximum))
  {
    var tail := BigEndian(length) + more;
    PrefixRoundTrip(length, BigEndian(length));
    assert tail[..LENGTH_PREFIX_BYTES] == BigEndian(length);
    assert Drain(format, maximum, tail) == Reader([], tail, Some(FrameTooLarge(length, maximum)));
    hide Decode, Encode, Drain;
    DrainFrames(format, maximum, messages, tail);
    FragmentationIsInvisible(format, maximum, pieces);
  }

  /**
   * The encodings of any messages, cut into any pieces and possibly broken off inside the next frame, are
   * read back as exactly those messages, without error, with only the broken-off bytes kept.
   */
  lemma StreamRoundTrip<M(!new)>(format: Format<M>, maximum: FrameLimit, messages: seq<M>, next: M, cut: seq<Byte>,
          pieces: seq<seq<Byte>>)
    requires Inverts(format) && Encodable(format, maximum, messages)
    requires Encode(format, maximum, next).Ok? && cut < Encode(format, maximum, next).value
    requires Concat(pieces) == Frames(format, maximum, messages) + cut
    ensures FeedAll(format, maximum, pieces) == Reader(messages, cut, None)
  {
    hide Decode, Encode, Drain;
    CutFrameWaits(format, maximum, next, cut);
    DrainFrames(format, maximum, messages, cut);
    FragmentationIsInvisible(format, maximum, pieces);
  }

  /** With nothing broken off the buffer is empty. */
  lemma WholeStreamRoundTrip<M(!new)>(format: Format<M>, maximum: FrameLimit, messages: seq<M>, pieces: seq<seq<Byte>>)
    requires Inverts(format) && Encodable(format, maximum, messages)
    requires Concat(pieces) == Frames(format, maximum, messages)
    ensures FeedAll(format, maximum, pieces) == Reader(messages, [], None)
  {
    assert Drain(format, maximum, []) == Reader([], [], None);
    hide Decode, Encode, Drain;
    DrainFrames(format, maximum, messages, []);
    assert Frames(format, maximum, messages) + [] == Frames(format, maximum, messages);
    FragmentationIsInvisible(format, maximum, pieces);
  }
}
