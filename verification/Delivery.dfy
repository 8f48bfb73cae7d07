/** The master's queues: who gets a posted packet, what closing does, and that no
    packet is lost, repeated or reordered on an open link. */
module Delivery {
  import opened Trees
  import opened DirTreeClass
  import opened Nodes
  import opened GroupSystem
  import opened Invariant
  import opened Membership
  import opened Theorems

  // ---------------------------------------------------------------------------
  // One step

  /** The handler of a broadcast appends its packet to the queue of every open
      connection and leaves the closed ones alone; the handler of a packet for one
      connection appends it there, open or closed, and nowhere else. */
  lemma HandlerStep(cfg: Config, s: System)
    requires Enabled(s, RunHandler)
    ensures var s', handler := Next(cfg.check, s, RunHandler), s.master.posted[0];
            var before, after := s.master.connections, s'.master.connections;
            && s' == s.(master := s.master.(posted := s.master.posted[1..], connections := after))
            && |after| == |before|
            && forall c | 0 <= c < |before| ::
                 && (handler.ToAll? && before[c].open ==>
                       after[c] == before[c].(queue := before[c].queue + [handler.packet]))
                 && (handler.ToAll? && !before[c].open ==> after[c] == before[c])
                 && (handler.ToOne? && handler.connection == c ==>
                       after[c] == before[c].(queue := before[c].queue + [handler.packet]))
                 && (handler.ToOne? && handler.connection != c ==> after[c] == before[c])
  {
  }

  /** A failed read or write closes an open connection, drops its queue and leaves
      the other connections alone; the next failure changes nothing at all. */
  lemma ErrorStep(cfg: Config, s: System, c: nat)
    requires Enabled(s, ConnectionError(c))
    ensures var s' := Next(cfg.check, s, ConnectionError(c));
            && (s.master.connections[c].open ==>
                  s'.master.connections == s.master.connections[c := Connection(false, [], 0)])
            && (!s.master.connections[c].open ==> s' == s)
            && Next(cfg.check, s', ConnectionError(c)) == s'
  {
    hide RemoveOf;
  }

  /** A connection is closed in a step exactly by its own failure or by the rejection
      of its own request, and then its queue is empty; it is never opened again. */
  lemma ClosesIff(cfg: Config, s: System, step: Step, c: nat)
    requires Enabled(s, step) && c < |s.master.connections|
    ensures var m, m' := s.master, Next(cfg.check, s, step).master;
            && c < |m'.connections|
            && (m'.connections[c].open <==>
                  && m.connections[c].open
                  && step != ConnectionError(c)
                  && !(step.ReadJoin? && step.peer == c &&
                       Conflicts(cfg.check, s.peers[c].submission.value.tree, m.tree) != []))
            && (m.connections[c].open && !m'.connections[c].open ==> m'.connections[c].queue == [])
  {
    hide RemoveOf, Merge, TagAll, Conflicts, Scanned, Receive, Disconnected;
  }

  // ---------------------------------------------------------------------------
  // Whole runs

  /** What has reached the slave of a connection or is on the wire to it. */
  function Sent(p: Peer): seq<Notice> {
    p.installed + p.wire
  }

  /** The packets whose handlers ran since the connection was accepted: those for
      everyone and those for it. */
  ghost function Offered(cfg: Config, steps: seq<Step>, c: nat): seq<Notice>
    requires Run(cfg, steps)
    decreases |steps|
  {
    if steps == [] then []
    else
      var k := |steps| - 1;
      var m := After(cfg, steps[..k]).master;
      Offered(cfg, steps[..k], c) +
      if steps[k] == RunHandler && c < |m.connections| then Share(m.posted[0], c) else []
  }

  /** The packets for this connection by name whose handlers ran from step `t` on. */
  ghost function NamedSince(cfg: Config, steps: seq<Step>, t: nat, c: nat): seq<Notice>
    requires Run(cfg, steps)
    decreases |steps|
  {
    if |steps| <= t then []
    else
      var k := |steps| - 1;
      NamedSince(cfg, steps[..k], t, c) +
      if steps[k] == RunHandler then Named(After(cfg, steps[..k]).master.posted[0], c) else []
  }

  function Named(p: Posted, c: nat): seq<Notice> {
    if p.ToOne? && p.connection == c then [p.packet] else []
  }

  /** On an open connection what was sent and what is queued grows by what a handler
      offers, and by nothing else. */
  lemma OpenStep(cfg: Config, s: System, step: Step, c: nat)
    requires Enabled(s, step) && |s.peers| == |s.master.connections| && c < |s.peers|
    requires c < |Next(cfg.check, s, step).master.connections| && Next(cfg.check, s, step).master.connections[c].open
    ensures var s' := Next(cfg.check, s, step);
            && c < |s'.peers|
            && Sent(s'.peers[c]) + s'.master.connections[c].queue ==
               Sent(s.peers[c]) + s.master.connections[c].queue +
               if step == RunHandler then Share(s.master.posted[0], c) else []
  {
    hide Enabled, Next, Sent, Share;
    if step.RunHandler? {
      ClosesIff(cfg, s, step, c);
      OfferStep(cfg, s, c);
    } else if step.Transmit? {
      TransmitStep(cfg, s, step.peer, c);
    } else if step.Deliver? {
      DeliverStep(cfg, s, step.peer, c);
    } else {
      OtherStep(cfg, s, step, c);
    }
    var whole := Sent(s.peers[c]) + s.master.connections[c].queue;
    assert whole + [] == whole;
  }

  lemma OfferStep(cfg: Config, s: System, c: nat)
    requires Enabled(s, RunHandler) && c < |s.peers| && c < |s.master.connections|
    ensures var s' := Next(cfg.check, s, RunHandler);
            && s'.peers == s.peers && c < |s'.master.connections|
            && (s.master.connections[c].open ==>
                  Sent(s'.peers[c]) + s'.master.connections[c].queue ==
                  Sent(s.peers[c]) + s.master.connections[c].queue + Share(s.master.posted[0], c))
  {
    HandlerStep(cfg, s);
    hide Next;
    var queue := s.master.connections[c].queue;
    assert queue + [] == queue;
  }

  lemma TransmitStep(cfg: Config, s: System, d: nat, c: nat)
    requires Enabled(s, Transmit(d)) && |s.peers| == |s.master.connections| && c < |s.peers|
    ensures var s' := Next(cfg.check, s, Transmit(d));
            && c < |s'.peers| && c < |s'.master.connections|
            && s'.master.connections[c].open == s.master.connections[c].open
            && (d != c ==> s'.peers[c] == s.peers[c] && s'.master.connections[c] == s.master.connections[c])
            && Sent(s'.peers[c]) + s'.master.connections[c].queue == Sent(s.peers[c]) + s.master.connections[c].queue
  {
    var p, q := s.peers[d], s.master.connections[d].queue;
    assert p.installed + (p.wire + [q[0]]) + q[1..] == p.installed + p.wire + q;
  }

  lemma DeliverStep(cfg: Config, s: System, d: nat, c: nat)
    requires Enabled(s, Deliver(d)) && c < |s.peers|
    ensures var s' := Next(cfg.check, s, Deliver(d));
            s'.master == s.master && c < |s'.peers| && Sent(s'.peers[c]) == Sent(s.peers[c])
  {
    hide Receive;
    var p := s.peers[d];
    assert (p.installed + [p.wire[0]]) + p.wire[1..] == p.installed + p.wire;
  }

  lemma OtherStep(cfg: Config, s: System, step: Step, c: nat)
    requires Enabled(s, step) && |s.peers| == |s.master.connections| && c < |s.peers|
    requires !step.RunHandler? && !step.Transmit? && !step.Deliver?
    ensures var s' := Next(cfg.check, s, step);
            && c < |s'.peers| && c < |s'.master.connections| && Sent(s'.peers[c]) == Sent(s.peers[c])
            && (s'.master.connections[c].open || !s.master.connections[c].open ==>
                  && s'.master.connections[c].open == s.master.connections[c].open
                  && s'.master.connections[c].queue == s.master.connections[c].queue)
  {
    hide RemoveOf, Merge, TagAll, Conflicts, Scanned, Disconnected, ReadSessions, InitialSlave;
  }

  lemma ClosedStep(cfg: Config, s: System, step: Step, c: nat)
    requires Enabled(s, step) && |s.peers| == |s.master.connections| && c < |s.peers|
    requires !s.master.connections[c].open
    ensures var s' := Next(cfg.check, s, step);
            && c < |s'.peers| && c < |s'.master.connections| && !s'.master.connections[c].open
            && Sent(s'.peers[c]) == Sent(s.peers[c])
            && s'.master.connections[c].queue == s.master.connections[c].queue +
               if step == RunHandler then Named(s.master.posted[0], c) else []
  {
    hide Next, Sent;
    var queue := s.master.connections[c].queue;
    assert queue + [] == queue;
    if step.RunHandler? {
      HandlerStep(cfg, s);
    } else if step.Transmit? {
      TransmitStep(cfg, s, step.peer, c);
    } else if step.Deliver? {
      DeliverStep(cfg, s, step.peer, c);
    } else {
      OtherStep(cfg, s, step, c);
    }
  }

  lemma ClosingStep(cfg: Config, s: System, step: Step, c: nat)
    requires Enabled(s, step) && |s.peers| == |s.master.connections| && c < |s.peers|
    requires c < |Next(cfg.check, s, step).master.connections|
    requires s.master.connections[c].open && !Next(cfg.check, s, step).master.connections[c].open
    ensures var s' := Next(cfg.check, s, step);
            c < |s'.peers| && Sent(s'.peers[c]) == Sent(s.peers[c]) && s'.master.connections[c].queue == []
  {
    hide Next, Sent, Enabled;
    ClosesIff(cfg, s, step, c);
    OtherStep(cfg, s, step, c);
  }

  lemma ShapeOf(cfg: Config, steps: seq<Step>)
    requires Run(cfg, steps)
    ensures var s := After(cfg, steps);
            |s.peers| == |s.master.connections|
  {
    hide Run, After, MasterOk, PostedOk, PeerOk, OwnershipOk, SessionsOk;
    Always(cfg, steps);
  }

  lemma {:induction false} OfferedNothing(cfg: Config, steps: seq<Step>, c: nat)
    requires Run(cfg, steps) && c >= |After(cfg, steps).master.connections|
    ensures Offered(cfg, steps, c) == []
    decreases |steps|
  {
    hide Enabled, Next, Share;
    if steps == [] {
    } else {
      var k := |steps| - 1;
      ConnectionsGrow(cfg, After(cfg, steps[..k]), steps[k]);
      OfferedNothing(cfg, steps[..k], c);
    }
  }

  lemma ConnectionsGrow(cfg: Config, s: System, step: Step)
    requires Enabled(s, step)
    ensures var s' := Next(cfg.check, s, step);
            && |s.master.connections| <= |s'.master.connections| <= |s.master.connections| + 1
            && (|s'.master.connections| > |s.master.connections| ==>
                  && step.Connect?
                  && s'.master.connections[|s.master.connections|] == Connection(true, [], 0)
                  && (|s.peers| == |s.master.connections| ==>
                        |s'.peers| == |s.peers| + 1 && Sent(s'.peers[|s.peers|]) == []))
  {
    hide RemoveOf, Merge, TagAll, Conflicts, Scanned, Receive, Disconnected, ReadSessions, InitialSlave;
  }

  /** In every run, as long as a connection is open: what its slave has installed,
      what is on the wire and what is queued are exactly the packets offered since it
      was accepted, in order. */
  lemma {:induction false} NothingLost(cfg: Config, steps: seq<Step>, c: nat)
    requires Run(cfg, steps) && c < |After(cfg, steps).peers| && c < |After(cfg, steps).master.connections|
    requires After(cfg, steps).master.connections[c].open
    ensures var s := After(cfg, steps);
            Sent(s.peers[c]) + s.master.connections[c].queue == Offered(cfg, steps, c)
    decreases |steps|
  {
    hide Enabled, Next, Share, Sent;
    if steps == [] {
    } else {
      var k := |steps| - 1;
      var s := After(cfg, steps[..k]);
      ShapeOf(cfg, steps[..k]);
      ConnectionsGrow(cfg, s, steps[k]);
      if c < |s.peers| {
        ClosesIff(cfg, s, steps[k], c);
        NothingLost(cfg, steps[..k], c);
        OpenStep(cfg, s, steps[k], c);
      } else {
        OfferedNothing(cfg, steps[..k], c);
      }
    }
  }

  /** Once closed, a connection stays closed, nothing more is sent on it, no broadcast
      reaches it, and its queue holds exactly the packets for it by name whose
      handlers ran after the close. */
  lemma {:induction false} AfterClose(cfg: Config, steps: seq<Step>, t: nat, c: nat)
    requires Run(cfg, steps) && t < |steps| && c < |StateAt(cfg, steps, t).peers|
    requires c < |StateAt(cfg, steps, t).master.connections| && StateAt(cfg, steps, t).master.connections[c].open
    requires c < |StateAt(cfg, steps, t + 1).master.connections|
    requires !StateAt(cfg, steps, t + 1).master.connections[c].open
    ensures var s, s' := StateAt(cfg, steps, t), After(cfg, steps);
            && c < |s'.peers| && c < |s'.master.connections| && !s'.master.connections[c].open
            && Sent(s'.peers[c]) == Sent(s.peers[c])
            && s'.master.connections[c].queue == NamedSince(cfg, steps, t + 1, c)
    decreases |steps|
  {
    hide Enabled, Next, Named, Sent;
    var k := |steps| - 1;
    ShapeOf(cfg, steps[..k]);
    RunPrefix(cfg, steps, t);
    RunPrefix(cfg, steps, t + 1);
    assert steps[..k][..t] == steps[..t];
    if t == k {
      assert steps[..t + 1] == steps;
      ClosingStep(cfg, After(cfg, steps[..k]), steps[k], c);
    } else {
      assert steps[..k][..t + 1] == steps[..t + 1];
      AfterClose(cfg, steps[..k], t, c);
      ClosedStep(cfg, After(cfg, steps[..k]), steps[k], c);
    }
  }

  /** Every closed connection was open until some step closed it. */
  lemma {:induction false} WhenClosed(cfg: Config, steps: seq<Step>, c: nat) returns (t: nat)
    requires Run(cfg, steps) && c < |After(cfg, steps).master.connections|
    requires !After(cfg, steps).master.connections[c].open
    ensures t < |steps| && c < |StateAt(cfg, steps, t).master.connections| && c < |StateAt(cfg, steps, t).peers|
    ensures StateAt(cfg, steps, t).master.connections[c].open
    ensures c < |StateAt(cfg, steps, t + 1).master.connections|
    ensures !StateAt(cfg, steps, t + 1).master.connections[c].open
    decreases |steps|
  {
    hide Enabled, Next, Sent;
    var k := |steps| - 1;
    var s := After(cfg, steps[..k]);
    ShapeOf(cfg, steps[..k]);
    ConnectionsGrow(cfg, s, steps[k]);
    assert steps[..k + 1] == steps;
    if s.master.connections[c].open {
      t := k;
    } else {
      t := WhenClosed(cfg, steps[..k], c);
      assert steps[..k][..t] == steps[..t] && steps[..k][..t + 1] == steps[..t + 1];
    }
  }
}
