/** Sending: the queue of packets in front of a socket, with one asynchronous
    write at a time, and the channel that it and the reader form. */
module WriteQueue {
  import opened ByteOrder
  import opened Framing

  /** A socket with its queue.  `outstanding` counts the `async_write` calls whose
      handler has not run; `enqueued` and `done` log the packets accepted and the
      packets whose write was reported as complete. */
  datatype Sender = Sender(
    open: bool, queue: seq<Message>, outstanding: nat,
    enqueued: seq<Message>, done: seq<Message>)

  const IDLE := Sender(true, [], 0, [], [])

  /** The handler that `write` and `writeTo` post. */
  function Enqueue(s: Sender, m: Message): Sender {
    s.(queue := s.queue + [m],
       outstanding := s.outstanding + (if s.queue == [] then 1 else 0),
       enqueued := s.enqueued + [m])
  }

  /** The write handler without an error: the front is done, the next one starts. */
  function Succeed(s: Sender): Sender
    requires s.outstanding > 0 && s.queue != []
  {
    s.(queue := s.queue[1..],
       outstanding := s.outstanding - 1 + (if |s.queue| > 1 then 1 else 0),
       done := s.done + [s.queue[0]])
  }

  /** Closing the socket; the master also drops what is queued, the slave does not. */
  function Shut(s: Sender, master: bool): Sender {
    if !s.open then s else s.(open := false, queue := if master then [] else s.queue)
  }

  /** The write handler with an error. */
  function Fail(s: Sender, master: bool): Sender
    requires s.outstanding > 0
  {
    Shut(s.(outstanding := s.outstanding - 1), master)
  }

  datatype SendEvent = Queued(message: Message) | Written | WriteError | Closed

  /** Handlers run only for writes that were started, and a write reported after
      the socket was closed carries an error. */
  predicate MayHappen(s: Sender, e: SendEvent) {
    match e
    case Queued(m) => Fits(m)
    case Written => s.open && s.outstanding > 0 && s.queue != []
    case WriteError => s.outstanding > 0
    case Closed => true
  }

  function Handle(s: Sender, e: SendEvent, master: bool): Sender
    requires MayHappen(s, e)
  {
    match e
    case Queued(m) => Enqueue(s, m)
    case Written => Succeed(s)
    case WriteError => Fail(s, master)
    case Closed => Shut(s, master)
  }

  ghost predicate SenderRun(events: seq<SendEvent>, master: bool)
    decreases |events|, 0
  {
    events == [] ||
    (var k := |events| - 1;
     SenderRun(events[..k], master) && MayHappen(SenderAfter(events[..k], master), events[k]))
  }

  ghost function SenderAfter(events: seq<SendEvent>, master: bool): Sender
    requires SenderRun(events, master)
    decreases |events|, 1
  {
    if events == [] then IDLE
    else
      var k := |events| - 1;
      Handle(SenderAfter(events[..k], master), events[k], master)
  }

  /** One write outstanding exactly while something is queued, and the log of
      accepted packets is what is done followed by what waits. */
  ghost predicate Disciplined(s: Sender) {
    && AllFit(s.enqueued) && AllFit(s.queue)
    && s.done <= s.enqueued
    && (s.open ==> s.outstanding == (if s.queue == [] then 0 else 1))
    && (s.open ==> s.enqueued == s.done + s.queue)
  }

  lemma {:induction false} AlwaysDisciplined(events: seq<SendEvent>, master: bool)
    requires SenderRun(events, master)
    ensures Disciplined(SenderAfter(events, master))
  {
    if events == [] {
    } else {
      var k := |events| - 1;
      AlwaysDisciplined(events[..k], master);
      var s := SenderAfter(events[..k], master);
      match events[k] {
        case Queued(m) =>
          assert s.open ==> s.done + s.queue + [m] == s.done + (s.queue + [m]);
        case Written =>
          assert s.queue == [s.queue[0]] + s.queue[1..];
          assert s.done + s.queue == s.done + [s.queue[0]] + s.queue[1..];
        case WriteError =>
        case Closed =>
      }
    }
  }

  lemma {:induction false} SenderPrefix(events: seq<SendEvent>, master: bool, k: nat)
    requires SenderRun(events, master) && k <= |events|
    ensures SenderRun(events[..k], master)
    ensures SenderAfter(events[..k], master).enqueued <= SenderAfter(events, master).enqueued
    decreases |events|
  {
    if k == |events| {
      assert events[..k] == events;
    } else {
      var last := |events| - 1;
      SenderPrefix(events[..last], master, k);
      assert events[..last][..k] == events[..k];
    }
  }

  /** The sender after the first `k` events. */
  ghost function SenderAt(events: seq<SendEvent>, master: bool, k: nat): (s: Sender)
    requires SenderRun(events, master) && k <= |events|
    ensures Disciplined(s) && s.enqueued <= SenderAfter(events, master).enqueued
  {
    SenderPrefix(events, master, k);
    AlwaysDisciplined(events[..k], master);
    SenderAfter(events[..k], master)
  }

  /** The messages that were to be queued. */
  function Accepted(events: seq<SendEvent>): seq<Message> {
    if events == [] then []
    else
      var last := events[|events| - 1];
      Accepted(events[..|events| - 1]) + if last.Queued? then [last.message] else []
  }

  function Count(events: seq<SendEvent>, e: SendEvent): nat {
    if events == [] then 0
    else Count(events[..|events| - 1], e) + if events[|events| - 1] == e then 1 else 0
  }

  /** The last event of a run. */
  lemma LastSend(events: seq<SendEvent>, master: bool)
    requires SenderRun(events, master) && events != []
    ensures var n := |events| - 1;
            && SenderRun(events[..n], master) && MayHappen(SenderAfter(events[..n], master), events[n])
            && SenderAfter(events, master) == Handle(SenderAfter(events[..n], master), events[n], master)
  {
    hide MayHappen, Handle;
  }

  lemma LogStep(s: Sender, e: SendEvent, master: bool)
    requires MayHappen(s, e)
    ensures var s' := Handle(s, e, master);
            && s'.enqueued == s.enqueued + (if e.Queued? then [e.message] else [])
            && |s'.done| == |s.done| + (if e == Written then 1 else 0)
            && (s'.open <==> s.open && e != Closed && e != WriteError)
  {
  }

  /** Over any run: every message handed over is logged, in order, whether or not the
      socket is open; a message is done for every completed write; and the socket is
      open exactly until a close or a failed write. */
  lemma {:induction false} SenderLog(events: seq<SendEvent>, master: bool)
    requires SenderRun(events, master)
    ensures var s := SenderAfter(events, master);
            && s.enqueued == Accepted(events) && |s.done| == Count(events, Written)
            && (s.open <==> Closed !in events && WriteError !in events)
  {
    if events == [] {
    } else {
      hide SenderRun, SenderAfter, MayHappen, Handle;
      var k := |events| - 1;
      LastSend(events, master);
      SenderLog(events[..k], master);
      LogStep(SenderAfter(events[..k], master), events[k], master);
      assert events == events[..k] + [events[k]];
    }
  }

  /** A closed sender. */
  lemma ShutStep(s: Sender, e: SendEvent, master: bool)
    requires !s.open && MayHappen(s, e)
    ensures var s' := Handle(s, e, master);
            && !s'.open && s'.done == s.done
            && s'.queue == s.queue + (if e.Queued? then [e.message] else [])
            && s'.outstanding + (if e == WriteError then 1 else 0) ==
               s.outstanding + if e.Queued? && s.queue == [] then 1 else 0
  {
  }

  lemma ShuttingStep(s: Sender, e: SendEvent, master: bool)
    requires s.open && MayHappen(s, e) && (e == Closed || e == WriteError)
    ensures var s' := Handle(s, e, master);
            && !s'.open && s'.done == s.done && s'.queue == (if master then [] else s.queue)
            && s'.outstanding + (if e == WriteError then 1 else 0) == s.outstanding
    ensures Accepted([]) == [] && Count([], WriteError) == 0
  {
  }

  lemma EarlierAt(events: seq<SendEvent>, master: bool, k: nat)
    requires SenderRun(events, master) && k < |events|
    ensures var n := |events| - 1;
            && SenderRun(events[..n], master)
            && SenderAt(events[..n], master, k) == SenderAt(events, master, k)
            && (k == n ==> SenderAt(events, master, k) == SenderAfter(events[..n], master))
  {
    hide SenderRun, SenderAfter, Disciplined, MayHappen, Handle;
    var n := |events| - 1;
    SenderPrefix(events, master, n);
    assert events[..n][..k] == events[..k];
  }

  lemma Since(events: seq<SendEvent>, k: nat)
    requires k < |events|
    ensures var n := |events| - 1;
            && Accepted(events[k..]) ==
               Accepted(events[..n][k..]) + (if events[n].Queued? then [events[n].message] else [])
            && Count(events[k..], WriteError) ==
               Count(events[..n][k..], WriteError) + if events[n] == WriteError then 1 else 0
  {
    var n := |events| - 1;
    assert events[k..][..|events[k..]| - 1] == events[..n][k..];
  }

  /** From the event that closes the socket on: the master has lost what was queued,
      the slave has kept it; what is handed over later is queued behind it and nothing
      is taken out; and a write is started only for a message that finds the queue
      empty. */
  lemma {:induction false} AfterShut(events: seq<SendEvent>, master: bool, k: nat)
    requires SenderRun(events, master) && k < |events| && SenderAt(events, master, k).open
    requires events[k] == Closed || events[k] == WriteError
    ensures var before, s := SenderAt(events, master, k), SenderAfter(events, master);
            var kept, since := if master then [] else before.queue, events[k + 1..];
            && !s.open
            && s.queue == kept + Accepted(since)
            && s.done == before.done
            && s.outstanding + Count(events[k..], WriteError) ==
               before.outstanding + if kept == [] && Accepted(since) != [] then 1 else 0
    decreases |events|
  {
    hide SenderRun, SenderAfter, SenderAt, MayHappen, Handle, Accepted, Count, Disciplined;
    var n := |events| - 1;
    LastSend(events, master);
    EarlierAt(events, master, k);
    Since(events, k);
    if k == n {
      assert events[k + 1..] == [] && events[..n][k..] == [];
      ShuttingStep(SenderAt(events, master, k), events[n], master);
    } else {
      AfterShut(events[..n], master, k);
      Since(events, k + 1);
      ShutStep(SenderAfter(events[..n], master), events[n], master);
    }
  }

  /** Messages are still accepted after a close, and a write that was under way then
      still reports its error: here one message before the close and one after it. */
  lemma LateMessage(a: Message, b: Message, master: bool)
    requires Fits(a) && Fits(b)
    ensures var events := [Queued(a), Closed, Queued(b), WriteError];
            && SenderRun(events, master)
            && SenderAfter(events, master).queue == (if master then [b] else [a, b])
            && SenderAfter(events, master).outstanding == if master then 1 else 0
  {
    NextSend([], Queued(a), master);
    hide SenderRun, SenderAfter;
    assert [] + [Queued(a)] == [Queued(a)];
    NextSend([Queued(a)], Closed, master);
    assert [Queued(a)] + [Closed] == [Queued(a), Closed];
    NextSend([Queued(a), Closed], Queued(b), master);
    assert [Queued(a), Closed] + [Queued(b)] == [Queued(a), Closed, Queued(b)];
    NextSend([Queued(a), Closed, Queued(b)], WriteError, master);
    assert [Queued(a), Closed, Queued(b)] + [WriteError] == [Queued(a), Closed, Queued(b), WriteError];
  }

  lemma NextSend(events: seq<SendEvent>, e: SendEvent, master: bool)
    requires SenderRun(events, master) && MayHappen(SenderAfter(events, master), e)
    ensures SenderRun(events + [e], master)
    ensures SenderAfter(events + [e], master) == Handle(SenderAfter(events, master), e, master)
  {
    hide MayHappen, Handle;
    assert (events + [e])[..|events|] == events;
  }

  /** The bytes that can be on their way: every completed frame and some part of
      the frame being written. */
  ghost predicate OnTheWire(s: Sender, bytes: Bytes)
    requires Disciplined(s) && s.open
  {
    bytes <= Stream(s.done) + if s.queue == [] then [] else Frame(s.queue[0])
  }

  lemma {:induction false} StreamPrefix(a: seq<Message>, b: seq<Message>)
    requires AllFit(a) && AllFit(b)
    ensures AllFit(a + b) && Stream(a) <= Stream(a + b)
  {
    StreamAppend(a, b);
  }

  /** What an open sender has put on the wire is the start of its messages' frames,
      and all of them once its queue is empty and every byte is in. */
  lemma WireCarriesFrames(s: Sender, got: Bytes)
    requires Disciplined(s) && s.open && OnTheWire(s, got)
    ensures got <= Stream(s.enqueued)
    ensures s.queue == [] && got == Stream(s.done) ==> got == Stream(s.enqueued)
  {
    hide Frame, Fits;
    StreamAppend(s.done, s.queue);
    if s.queue == [] {
      assert s.done + [] == s.done;
    } else {
      StreamPrefix([s.queue[0]], s.queue[1..]);
      assert s.queue == [s.queue[0]] + s.queue[1..];
      assert Stream([s.queue[0]]) == Frame(s.queue[0]) + Stream([s.queue[0]][1..]) == Frame(s.queue[0]);
    }
  }

  /** The channel: bytes that were on the wire at some time while the socket was open
      may arrive at any later time, when it may long be closed, and cut into chunks
      in any way.  The receiver delivers a prefix of the messages that were queued;
      and all of those queued at that time, if the queue was then empty and every
      byte has come. */
  lemma ChannelIsFifo(events: seq<SendEvent>, master: bool, sent: nat, chunks: seq<Bytes>)
    requires SenderRun(events, master) && sent <= |events| && SenderAt(events, master, sent).open
    requires OnTheWire(SenderAt(events, master, sent), Flatten(chunks))
    requires AllSendable(SenderAt(events, master, sent).enqueued)
    ensures Deframe(Flatten(chunks)) <= SenderAt(events, master, sent).enqueued
    ensures Deframe(Flatten(chunks)) <= SenderAfter(events, master).enqueued
    ensures var s := SenderAt(events, master, sent);
            s.queue == [] && Flatten(chunks) == Stream(s.done) ==> Deframe(Flatten(chunks)) == s.enqueued
  {
    hide SenderRun, SenderAfter, SenderAt, OnTheWire, Flatten, Deframe, Sendable, Fits;
    var s, got := SenderAt(events, master, sent), Flatten(chunks);
    WireCarriesFrames(s, got);
    FramingPrefix(s.enqueued, got);
    FramingRoundTrip(s.enqueued);
  }

  /** The queue as the messagers keep it: the bytes of encoded packets. */
  class SendQueue {
    var open: bool
    var frames: seq<Bytes>
    var outstanding: nat
    ghost var queue: seq<Message>
    ghost var enqueued: seq<Message>
    ghost var done: seq<Message>

    ghost function State(): Sender
      reads this
    {
      Sender(open, queue, outstanding, enqueued, done)
    }

    /** What waits are the frames of the queued messages. */
    ghost predicate Valid()
      reads this
    {
      && |frames| == |queue|
      && forall i | 0 <= i < |queue| :: Fits(queue[i]) && frames[i] == Frame(queue[i])
    }

    constructor ()
      ensures Valid() && State() == IDLE
    {
      open, frames, outstanding := true, [], 0;
      queue, enqueued, done := [], [], [];
    }

    /** Hands the front packet to the socket. */
    method StartWrite() returns (bytes: Bytes)
      requires Valid() && queue != []
      modifies this`outstanding
      ensures bytes == Frame(queue[0])
      ensures State() == old(State()).(outstanding := old(outstanding) + 1)
    {
      bytes := frames[0];
      outstanding := outstanding + 1;
    }

    /** Queues a message as an encoded packet; `bytes` are what goes to the socket. */
    method Push(m: Message) returns (bytes: Bytes)
      requires Valid() && Fits(m)
      modifies this
      ensures Valid() && State() == Enqueue(old(State()), m)
      ensures bytes == if old(queue) == [] then Frame(m) else []
    {
      var packet := new Packet();
      packet.EncodeData(m);
      var writeInProgress := |frames| > 0;
      frames, queue, enqueued, bytes := frames + [packet.data], queue + [m], enqueued + [m], [];
      if !writeInProgress {
        bytes := StartWrite();
      }
    }

    method Close(master: bool)
      requires Valid()
      modifies this
      ensures Valid() && State() == Shut(old(State()), master)
    {
      if open {
        open := false;
        if master {
          frames, queue := [], [];
        }
      }
    }

    /** The write handler; `bytes` are what goes to the socket next. */
    method OnWritten(error: bool, master: bool) returns (bytes: Bytes)
      requires Valid() && outstanding > 0 && (!error ==> queue != [])
      modifies this
      ensures Valid() && State() == if error then Fail(old(State()), master) else Succeed(old(State()))
      ensures bytes == if error || |old(queue)| == 1 then [] else Frame(old(queue)[1])
    {
      outstanding, bytes := outstanding - 1, [];
      if !error {
        done := done + [queue[0]];
        frames, queue := frames[1..], queue[1..];
        if frames != [] {
          bytes := StartWrite();
        }
      } else {
        Close(master);
      }
    }
  }
}
