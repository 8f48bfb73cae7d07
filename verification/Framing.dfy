/** Length-prefixed framing: the `Packet` object, the header/body reader, and
    what the reader makes of any byte stream. */
module Framing {
  import opened ByteOrder

  type Message = Bytes

  const HEADER := 8

  /** A message whose length, plus the header, is a 64-bit number. */
  predicate Fits(m: Message) {
    |m| + HEADER < TWO_64
  }

  /** A message whose length survives the integer codec. */
  predicate Sendable(m: Message) {
    Fits(m) && TopBytesEqual(|m|)
  }

  predicate AllFit(msgs: seq<Message>) {
    forall i | 0 <= i < |msgs| :: Fits(msgs[i])
  }

  predicate AllSendable(msgs: seq<Message>) {
    forall i | 0 <= i < |msgs| :: Sendable(msgs[i])
  }

  function Frame(m: Message): Bytes
    requires Fits(m)
  {
    Encode(|m|) + m
  }

  /** The frames of several messages, one after the other. */
  function Stream(msgs: seq<Message>): Bytes
    requires AllFit(msgs)
  {
    if msgs == [] then [] else Frame(msgs[0]) + Stream(msgs[1..])
  }

  /** The bytes start with a header and the whole body it announces. */
  predicate Complete(b: Bytes) {
    |b| >= HEADER && HEADER + Decode(b[..HEADER]) <= |b|
  }

  /** Where the first message ends. */
  function FrameEnd(b: Bytes): nat
    requires |b| >= HEADER
  {
    HEADER + Decode(b[..HEADER])
  }

  /** The complete messages at the front of a byte sequence. */
  function Deframe(b: Bytes): seq<Message>
    decreases |b|
  {
    if !Complete(b) then [] else [b[HEADER..FrameEnd(b)]] + Deframe(b[FrameEnd(b)..])
  }

  /** The bytes after the last complete message. */
  function Rest(b: Bytes): Bytes
    decreases |b|
  {
    if !Complete(b) then b else Rest(b[FrameEnd(b)..])
  }

  lemma CompleteAppend(a: Bytes, b: Bytes)
    requires Complete(a)
    ensures Complete(a + b) && FrameEnd(a + b) == FrameEnd(a)
    ensures (a + b)[HEADER..FrameEnd(a)] == a[HEADER..FrameEnd(a)]
    ensures (a + b)[FrameEnd(a)..] == a[FrameEnd(a)..] + b
  {
    assert (a + b)[..HEADER] == a[..HEADER];
  }

  /** Receiving in two parts is receiving at once. */
  lemma {:induction false} DeframeAppend(a: Bytes, b: Bytes)
    ensures Deframe(a + b) == Deframe(a) + Deframe(Rest(a) + b)
    ensures Rest(a + b) == Rest(Rest(a) + b)
    decreases |a|
  {
    if Complete(a) {
      CompleteAppend(a, b);
      DeframeAppend(a[FrameEnd(a)..], b);
    }
  }

  /** Bytes that hold at most one message. */
  lemma DeframeOne(b: Bytes)
    ensures !Complete(b) ==> Deframe(b) == [] && Rest(b) == b
    ensures Complete(b) && FrameEnd(b) == |b| ==> Deframe(b) == [b[HEADER..]] && Rest(b) == []
  {
    hide Decode;
    if Complete(b) && FrameEnd(b) == |b| {
      assert b[FrameEnd(b)..] == [] && b[HEADER..FrameEnd(b)] == b[HEADER..];
      assert Deframe([]) == [] && Rest([]) == [];
    }
  }

  /** Any header and the body it announces, whoever wrote them, are one message; a
      header or body that is not all there is none. */
  lemma AnyFrame(header: Bytes, body: Bytes, tail: Bytes)
    requires |header| == HEADER
    ensures Decode(header) == |body| ==>
              && Deframe(header + body + tail) == [body] + Deframe(tail)
              && Rest(header + body + tail) == Rest(tail)
    ensures Decode(header) > |body| ==> Deframe(header + body) == [] && Rest(header + body) == header + body
    ensures |tail| < HEADER ==> Deframe(tail) == [] && Rest(tail) == tail
  {
    hide Decode;
    var b := header + body + tail;
    assert b[..HEADER] == header && (header + body)[..HEADER] == header;
    assert b[HEADER..HEADER + |body|] == body && b[HEADER + |body|..] == tail;
  }

  lemma DeframeFirst(m: Message, tail: Bytes)
    requires Sendable(m)
    ensures Deframe(Frame(m) + tail) == [m] + Deframe(tail)
    ensures Rest(Frame(m) + tail) == Rest(tail)
  {
    hide Decode, Deframe, Rest;
    RoundTrip(|m|);
    AnyFrame(Encode(|m|), m, tail);
  }

  /** A frame whose length does not survive the codec is not read back first. */
  lemma DeframeGarbled(m: Message, tail: Bytes)
    requires Fits(m) && !TopBytesEqual(|m|)
    ensures var r := Deframe(Frame(m) + tail);
            r == [] || r[0] != m
  {
    hide Decode, TopBytesEqual, LittleEndian;
    var b := Frame(m) + tail;
    RoundTrip(|m|);
    assert b[..HEADER] == Encode(|m|);
    assert Complete(b) ==> |Deframe(b)[0]| == Decode(Encode(|m|));
  }

  /** Sending messages and reading the stream gives the messages back, in order, if
      and only if every length survives the codec; and then nothing is left over. */
  lemma {:induction false} FramingRoundTrip(msgs: seq<Message>)
    requires AllFit(msgs)
    ensures Deframe(Stream(msgs)) == msgs <==> AllSendable(msgs)
    ensures AllSendable(msgs) ==> Rest(Stream(msgs)) == []
  {
    hide Decode, TopBytesEqual, Frame, Fits;
    if msgs == [] {
    } else {
      var first, rest := msgs[0], msgs[1..];
      assert msgs == [first] + rest;
      FramingRoundTrip(rest);
      assert AllSendable(msgs) <==> Sendable(first) && AllSendable(rest);
      if Sendable(first) {
        DeframeFirst(first, Stream(rest));
      } else {
        DeframeGarbled(first, Stream(rest));
      }
    }
  }

  /** Whatever part of the stream has arrived, the messages read so far are a
      prefix of those sent. */
  lemma FramingPrefix(msgs: seq<Message>, got: Bytes)
    requires AllSendable(msgs)
    requires got <= Stream(msgs)
    ensures Deframe(got) <= msgs
  {
    FramingRoundTrip(msgs);
    assert Stream(msgs) == got + Stream(msgs)[|got|..];
    DeframeAppend(got, Stream(msgs)[|got|..]);
  }

  /** One frame is read back as one message exactly when its length survives the
      codec. */
  lemma FrameExact(m: Message)
    requires Fits(m)
    ensures Deframe(Frame(m)) == [m] <==> TopBytesEqual(|m|)
  {
    RoundTrip(|m|);
    var b := Frame(m);
    assert b[..HEADER] == Encode(|m|);
    assert Complete(b) ==> |Deframe(b)[0]| == Decode(Encode(|m|));
    assert !Complete(b) ==> Deframe(b) == [];
    if TopBytesEqual(|m|) {
      DeframeFirst(m, []);
      assert b + [] == b;
    }
  }

  lemma {:induction false} StreamAppend(a: seq<Message>, b: seq<Message>)
    requires AllFit(a) && AllFit(b)
    ensures AllFit(a + b)
    ensures Stream(a + b) == Stream(a) + Stream(b)
  {
    hide Frame, Fits;
    if a == [] {
      assert a + b == b;
    } else {
      StreamAppend(a[1..], b);
      assert (a + b)[1..] == a[1..] + b;
    }
  }

  /** A packet to send or being received. */
  class Packet {
    var size: nat
    var data: Bytes

    constructor ()
      ensures size == 0 && data == []
    {
      size, data := 0, [];
    }

    method EncodeData(message: Message)
      requires Fits(message)
      modifies this
      ensures data == Frame(message) && size == |data|
    {
      size := |message|;
      data := HostToNetwork(size);
      size := size + HEADER;
      data := data + message;
    }

    method DecodeSize(header: Bytes)
      requires |header| == HEADER
      modifies this`size
      ensures size == Decode(header)
    {
      size := Decode(header);
    }

    method SetData(buffer: Bytes)
      requires size <= |buffer|
      modifies this`data
      ensures data == buffer[..size]
    {
      data := buffer[..size];
    }
  }

  datatype Phase = ReadingHeader | ReadingBody

  /** The reader that `do_read_header` and `do_read_body` make up: each asks for
      an exact number of bytes and hands over to the other when it has them.  The
      packet being received keeps the size between the two. */
  class Reader {
    const packet: Packet
    var phase: Phase
    var buffer: Bytes
    var delivered: seq<Message>
    ghost var received: Bytes

    function Wanted(): nat
      reads this, packet
    {
      match phase
      case ReadingHeader => HEADER
      case ReadingBody => packet.size
    }

    /** What the fields say about the bytes not yet delivered. */
    ghost predicate Pending(rest: Bytes)
      reads this, packet
    {
      match phase
      case ReadingHeader => buffer == rest
      case ReadingBody =>
        |rest| >= HEADER && rest[HEADER..] == buffer && Decode(rest[..HEADER]) == packet.size
    }

    /** The reader has delivered exactly the complete messages received so far. */
    ghost predicate Valid()
      reads this, packet
    {
      && delivered == Deframe(received)
      && Pending(Rest(received))
      && |buffer| < Wanted()
    }

    constructor ()
      ensures Valid() && received == [] && delivered == [] && fresh(packet)
    {
      packet := new Packet();
      phase, buffer, delivered, received := ReadingHeader, [], [], [];
    }

    /** Bytes arrive for the outstanding read.  When it has all it wants its
        handler runs: a header starts the body, a body is delivered and starts the
        next header.  A body of no bytes is complete at once. */
    method Take(part: Bytes)
      requires Valid()
      requires 0 < |part| <= Wanted() - |buffer|
      modifies this, packet
      ensures Valid() && received == old(received) + part
    {
      hide Decode, Deframe, Rest;
      ghost var rest := Rest(received);
      ghost var whole := rest + part;
      DeframeAppend(received, part);
      DeframeOne(whole);
      buffer, received := buffer + part, received + part;
      assert phase == ReadingBody ==> whole[..HEADER] == rest[..HEADER] && whole[HEADER..] == buffer;
      if phase == ReadingHeader && |buffer| == HEADER {
        packet.DecodeSize(buffer);
        phase, buffer := ReadingBody, [];
        assert whole[..HEADER] == whole && whole[HEADER..] == [];
      }
      if phase == ReadingBody && |buffer| == packet.size {
        packet.SetData(buffer);
        assert buffer[..packet.size] == buffer;
        delivered := delivered + [packet.data];
        phase, buffer := ReadingHeader, [];
      }
    }

    /** Any chunk of the stream. */
    method Feed(chunk: Bytes)
      requires Valid()
      modifies this, packet
      ensures Valid() && received == old(received) + chunk
    {
      hide Decode, Deframe, Rest;
      var pos := 0;
      while pos < |chunk|
        invariant pos <= |chunk| && Valid()
        invariant received == old(received) + chunk[..pos]
      {
        var want, have := Wanted() - |buffer|, |chunk| - pos;
        var take := if want <= have then want else have;
        assert chunk[..pos] + chunk[pos..pos + take] == chunk[..pos + take];
        Take(chunk[pos..pos + take]);
        pos := pos + take;
      }
      assert chunk[..pos] == chunk;
    }
  }

  function Flatten(chunks: seq<Bytes>): Bytes {
    if chunks == [] then [] else Flatten(chunks[..|chunks| - 1]) + chunks[|chunks| - 1]
  }

  /** However the stream is cut into chunks, the reader delivers the same. */
  method ReadChunks(chunks: seq<Bytes>) returns (delivered: seq<Message>)
    ensures delivered == Deframe(Flatten(chunks))
  {
    var reader := new Reader();
    var i := 0;
    while i < |chunks|
      invariant i <= |chunks| && reader.Valid() && fresh(reader) && fresh(reader.packet)
      invariant reader.received == Flatten(chunks[..i])
    {
      assert chunks[..i + 1][..i] == chunks[..i];
      reader.Feed(chunks[i]);
      i := i + 1;
    }
    assert chunks[..i] == chunks;
    delivered := reader.delivered;
  }
}
