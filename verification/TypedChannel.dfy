/** The whole way of a message: built, framed, queued, written, received in any
    chunks, read and parsed. */
module TypedChannel {
  import opened ByteOrder
  import opened Framing
  import opened WriteQueue
  import opened Payload

  /** The messages queued are those built from some contents, none of which the
      codec garbles. */
  ghost predicate Carries(s: Sender, contents: seq<Content>) {
    && |s.enqueued| == |contents|
    && forall i | 0 <= i < |contents| ::
         Representable(contents[i]) && Survives(contents[i]) && s.enqueued[i] == Build(contents[i])
  }

  /** What the receiver parses, then or later, are the first contents sent, in
      order, each exactly as it was sent and none read past its end. */
  lemma ContentsArrive(
    events: seq<SendEvent>, master: bool, sent: nat, contents: seq<Content>, chunks: seq<Bytes>, i: nat)
    requires SenderRun(events, master) && sent <= |events| && SenderAt(events, master, sent).open
    requires OnTheWire(SenderAt(events, master, sent), Flatten(chunks))
    requires AllSendable(SenderAt(events, master, sent).enqueued)
    requires Carries(SenderAfter(events, master), contents)
    requires i < |Deframe(Flatten(chunks))|
    ensures i < |contents|
    ensures Parse(contents[i], Deframe(Flatten(chunks))[i]) == Dispatched(contents[i], |Deframe(Flatten(chunks))[i]|)
  {
    hide Deframe, Flatten, Parse, Build, SenderRun, SenderAfter, SenderAt, OnTheWire, Survives;
    ChannelIsFifo(events, master, sent, chunks);
    PayloadRoundTrip(contents[i]);
  }
}
