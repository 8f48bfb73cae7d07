/** Every step keeps the invariant. */
module Preservation {
  import opened Names
  import opened Trees
  import opened TreeLaws
  import opened Nodes
  import opened GroupSystem
  import opened Invariant

  // ---------------------------------------------------------------------------
  // Posted handlers

  lemma ForPush(posted: seq<Posted>, q: Posted, c: nat)
    ensures For(posted + [q], c) == For(posted, c) + Share(q, c)
  {
    hide Share;
    assert (posted + [q])[..|posted|] == posted;
  }

  lemma {:induction false} ForAppend(a: seq<Posted>, b: seq<Posted>, c: nat)
    ensures For(a + b, c) == For(a, c) + For(b, c)
  {
    if b == [] {
      assert a + b == a;
    } else {
      hide Share, For;
      var init, last := b[..|b| - 1], b[|b| - 1];
      ForAppend(a, init, c);
      ForPush(a + init, last, c);
      ForPush(init, last, c);
      Regroup(a, init, b, last);
      Associative(For(a, c), For(init, c), Share(last, c));
    }
  }

  lemma Regroup(a: seq<Posted>, init: seq<Posted>, b: seq<Posted>, last: Posted)
    requires b != [] && init == b[..|b| - 1] && last == b[|b| - 1]
    ensures init + [last] == b && a + init + [last] == a + b
  {
  }

  lemma Associative(a: seq<Notice>, b: seq<Notice>, c: seq<Notice>)
    ensures a + b + c == a + (b + c)
  {
  }

  lemma ForOne(q: Posted, c: nat)
    ensures For([q], c) == Share(q, c)
  {
    assert [q][..0] == [];
    assert For([], c) == [];
  }

  lemma ForFront(posted: seq<Posted>, c: nat)
    requires posted != []
    ensures For(posted, c) == Share(posted[0], c) + For(posted[1..], c)
  {
    assert posted == [posted[0]] + posted[1..];
    ForAppend([posted[0]], posted[1..], c);
    ForOne(posted[0], c);
  }

  /** For a connection that no handler names, only broadcasts are left. */
  lemma {:induction false} ForUnnamed(m: Master, n: nat, c: nat)
    requires n <= |m.posted| && PostedOk(m)
    requires forall q | q in m.posted :: q.ToOne? ==> q.connection != c
    ensures LogOk(m.history, 0, 0, For(m.posted[..n], c))
    ensures forall k, i | k in For(m.posted[..n], c) && n <= i < |m.posted| :: k.stamp <= m.posted[i].packet.stamp
  {
    if n == 0 {
    } else {
      hide For, Share, LogOk, PostedOk;
      ForUnnamed(m, n - 1, c);
      assert m.posted[..n] == m.posted[..n - 1] + [m.posted[n - 1]];
      ForPush(m.posted[..n - 1], m.posted[n - 1], c);
      ShareOk(m, n - 1, c);
      AppendLog(m.history, 0, 0, For(m.posted[..n - 1], c), Share(m.posted[n - 1], c));
    }
  }

  lemma ShareOk(m: Master, i: nat, c: nat)
    requires i < |m.posted| && PostedOk(m)
    requires m.posted[i].ToOne? ==> m.posted[i].connection != c
    ensures LogOk(m.history, 0, 0, Share(m.posted[i], c))
    ensures forall k | k in Share(m.posted[i], c) :: k.stamp == m.posted[i].packet.stamp
    ensures forall j | i <= j < |m.posted| :: m.posted[i].packet.stamp <= m.posted[j].packet.stamp
  {
    assert m.posted[i] in m.posted;
  }

  lemma AppendLog(history: seq<View>, memberId: nat, joinStamp: nat, a: seq<Notice>, b: seq<Notice>)
    requires LogOk(history, memberId, joinStamp, a) && LogOk(history, memberId, joinStamp, b)
    requires forall k, l | k in a && l in b :: k.stamp <= l.stamp
    ensures LogOk(history, memberId, joinStamp, a + b)
  {
    var log := a + b;
    forall i, j | 0 <= i <= j < |log|
      ensures log[i].stamp <= log[j].stamp
    {
      if i < |a| <= j {
        assert log[i] == a[i] && a[i] in a && log[j] == b[j - |a|] && b[j - |a|] in b;
      }
    }
  }

  // ---------------------------------------------------------------------------
  // What is left alone

  /** A peer's invariant depends on the master only through the packets on their
      way, the connection's state, the hosts and the history. */
  lemma PeerFrame(m: Master, m': Master, c: nat, p: Peer)
    requires c < |m.connections| && c < |m'.connections| && PeerOk(m, c, p)
    requires m'.history == m.history && m'.hosts == m.hosts
    requires m'.connections[c].open == m.connections[c].open
    requires m'.connections[c].slaveId == m.connections[c].slaveId
    requires Log(m', c, p) == Log(m, c, p)
    ensures PeerOk(m', c, p)
  {
    hide LogOk, UpToDate, KeptOk, SlaveOk, Log, WellFormed, Common, Record;
  }

  /** Attribution survives as long as members keep their id and submission. */
  lemma AttributionKept(peers: seq<Peer>, peers': seq<Peer>, n: Node)
    requires Attributed(peers, n) && n.hostId != 0
    requires |peers| <= |peers'|
    requires forall c | 0 <= c < |peers| && peers[c].memberId != 0 ::
               peers'[c].memberId == peers[c].memberId && peers'[c].submission == peers[c].submission
    ensures Attributed(peers', n)
  {
    hide TagAll;
    if n.hostId != 1 {
      var c :| 0 <= c < |peers| && peers[c].memberId == n.hostId && peers[c].submission.Some? &&
               n in TagAll(peers[c].submission.value.tree, n.hostId);
      assert peers'[c].memberId == n.hostId;
    }
  }

  /** Ownership when the master's views stay as they are. */
  lemma OwnershipKept(s: System, s': System)
    requires OwnershipOk(s) && SoundHistory(s.master.history)
    requires s'.master.history == s.master.history && s'.master.tree == s.master.tree
    requires |s.peers| <= |s'.peers| && UniqueIds(s'.peers)
    requires forall c | 0 <= c < |s.peers| && s.peers[c].memberId != 0 ::
               s'.peers[c].memberId == s.peers[c].memberId && s'.peers[c].submission == s.peers[c].submission
    requires |s.master.connections| <= |s'.master.connections|
    requires forall c | 0 <= c < |s.master.connections| ::
               s'.master.connections[c].slaveId == s.master.connections[c].slaveId
    ensures OwnershipOk(s')
  {
    hide Attributed, WellFormed, Uniform, UniqueIds;
    forall h, n | 0 <= h < |s.master.history| && n in s.master.history[h].tree
      ensures Attributed(s'.peers, n)
    {
      assert Sound(s.master.history[h]);
      AttributionKept(s.peers, s'.peers, n);
    }
    forall n | n in s.master.tree
      ensures LiveOwner(s'.master.connections, n.hostId)
    {
      assert LiveOwner(s.master.connections, n.hostId);
      if n.hostId != 1 {
        var c :| 0 <= c < |s.master.connections| && s.master.connections[c].slaveId == n.hostId;
        assert s'.master.connections[c].slaveId == n.hostId;
      }
    }
  }

  // ---------------------------------------------------------------------------
  // Steps that change one peer and not the master

  lemma OnePeer(cfg: Config, s: System, c: nat, p: Peer)
    requires Inv(cfg, s) && c < |s.peers|
    requires PeerOk(s.master, c, p)
    requires p.memberId == s.peers[c].memberId
    requires p.memberId != 0 ==> p.submission == s.peers[c].submission
    ensures Inv(cfg, s.(peers := s.peers[c := p]))
  {
    var s' := s.(peers := s.peers[c := p]);
    hide PeerOk, SoundHistory, SessionsOk, ValidConfig, PostedOk, Attributed, LiveOwner, RemoveNotOf;
    OwnershipKept(s, s');
  }

  /** What a slave shows comes from the history, once it has installed anything. */
  lemma BaseOrigin(m: Master, c: nat, p: Peer)
    requires c < |m.connections| && PeerOk(m, c, p) && SoundHistory(m.history)
    ensures WellFormed(Base(p).tree)
    ensures p.installed != [] ==>
              && p.installed[|p.installed| - 1].stamp < |m.history|
              && Base(p) == m.history[p.installed[|p.installed| - 1].stamp]
              && Sound(Base(p))
  {
    hide WellFormed, Uniform, Sound, KeptOk, MemberOk, UpToDate, RemoveNotOf;
    if p.installed != [] {
      var last := p.installed[|p.installed| - 1];
      assert last in Log(m, c, p);
      assert Sound(m.history[last.stamp]);
      SoundWellFormed(m.history[last.stamp]);
    }
  }

  lemma SoundWellFormed(v: View)
    requires Sound(v)
    ensures WellFormed(v.tree)
  {
  }

  lemma SubmitKeeps(cfg: Config, s: System, c: nat)
    requires Inv(cfg, s) && Enabled(s, Submit(c))
    ensures Inv(cfg, Next(cfg.check, s, Submit(c)))
  {
    var p := s.peers[c];
    var p' := p.(submission := Some(Submission(p.slave.tree, p.slave.hosts[0])));
    BaseOrigin(s.master, c, p);
    SubmittedOk(s.master, c, p, p');
    OnePeer(cfg, s, c, p');
  }

  lemma SubmittedOk(m: Master, c: nat, p: Peer, p': Peer)
    requires c < |m.connections| && PeerOk(m, c, p)
    requires p.submission.None? && p.up && p.slave.hosts != [] && WellFormed(Base(p).tree)
    requires p' == p.(submission := Some(Submission(p.slave.tree, p.slave.hosts[0])))
    ensures PeerOk(m, c, p')
  {
    hide LogOk, UpToDate, WellFormed, Common, Record, RemoveNotOf, SessionsOk, Scanned;
    assert Log(m, c, p') == Log(m, c, p);
  }

  lemma LinkLostKeeps(cfg: Config, s: System, c: nat, pending: bool)
    requires Inv(cfg, s) && Enabled(s, LinkLost(c, pending))
    ensures Inv(cfg, Next(cfg.check, s, LinkLost(c, pending)))
  {
    var p := s.peers[c];
    var p' := p.(slave := Disconnected(p.slave), up := false, late := p.late || pending, cutOff := true);
    LinkLostOk(s.master, c, p, p');
    OnePeer(cfg, s, c, p');
  }

  lemma LinkLostOk(m: Master, c: nat, p: Peer, p': Peer)
    requires c < |m.connections| && PeerOk(m, c, p)
    requires p' == p.(slave := Disconnected(p.slave), up := false, late := p'.late, cutOff := true)
    ensures PeerOk(m, c, p')
  {
    hide LogOk, UpToDate, WellFormed, Common, Record, RemoveNotOf, SessionsOk, Scanned, HasRecognition;
    hide Without, TagAll;
    assert Log(m, c, p') == Log(m, c, p);
    RemoveNotOfTwice(Base(p).tree, p.slave.hostId);
  }

  lemma {:induction false} RemoveNotOfTwice(s: Forest, id: nat)
    ensures RemoveNotOf(RemoveNotOf(s, id), id) == RemoveNotOf(s, id)
  {
    if s == [] {
    } else {
      RemoveNotOfTwice(s[1..], id);
      var r := RemoveNotOf(s[1..], id);
      assert ([s[0]] + r)[1..] == r && [] + r == r;
    }
  }

  lemma DeliverKeeps(cfg: Config, s: System, c: nat)
    requires Inv(cfg, s) && Enabled(s, Deliver(c))
    ensures Inv(cfg, Next(cfg.check, s, Deliver(c)))
  {
    var p := s.peers[c];
    var p' := p.(slave := Receive(p.slave, p.wire[0]), wire := p.wire[1..], late := false,
                 installed := p.installed + [p.wire[0]], cutOff := false);
    DeliveredOk(s.master, c, p, p');
    OnePeer(cfg, s, c, p');
  }

  lemma DeliveredOk(m: Master, c: nat, p: Peer, p': Peer)
    requires c < |m.connections| && PeerOk(m, c, p) && SoundHistory(m.history)
    requires p.wire != []
    requires p' == p.(slave := Receive(p.slave, p.wire[0]), wire := p.wire[1..], late := false,
                      installed := p.installed + [p.wire[0]], cutOff := false)
    ensures PeerOk(m, c, p')
  {
    hide LogOk, UpToDate, WellFormed, Common, Record, RemoveNotOf, SessionsOk, Scanned, HasRecognition;
    hide Without, TagAll, SoundHistory;
    var k := p.wire[0];
    assert p.wire == [k] + p.wire[1..];
    assert p'.installed + p'.wire == p.installed + p.wire;
    assert Log(m, c, p') == Log(m, c, p);
    DeliveredPacket(m, c, p);
    MoreRecognition(p.installed, k);
  }

  lemma MoreRecognition(log: seq<Notice>, k: Notice)
    ensures HasRecognition(log + [k]) <==> HasRecognition(log) || k.Recognition?
  {
    assert k in log + [k];
    if HasRecognition(log) {
      var r :| r in log && r.Recognition?;
      assert r in log + [k];
    }
  }

  /** The packet about to be delivered is genuine and extends the host table the
      slave has, once the slave has one from the master; so cached sessions stay
      right. */
  lemma DeliveredPacket(m: Master, c: nat, p: Peer)
    requires c < |m.connections| && PeerOk(m, c, p) && SoundHistory(m.history) && p.wire != []
    ensures Genuine(m.history, p.memberId, p.joinStamp, p.wire[0])
    ensures p.installed != [] ==> p.slave.hosts <= p.wire[0].view.hosts
    ensures SessionsOk(p.slave.sessions, p.wire[0].view.hosts)
  {
    hide Sound, WellFormed, KeptOk, MemberOk, UpToDate, RemoveNotOf, Scanned, HasRecognition;
    var log := Log(m, c, p);
    assert p.wire[0] in log;
    if p.installed != [] {
      var i := |p.installed| - 1;
      assert log[i] == p.installed[i] && log[i + 1] == p.wire[0];
      assert log[i] in log && log[i + 1] in log;
    }
  }

  lemma ReadAtSlaveKeeps(cfg: Config, s: System, c: nat, path: seq<Name>)
    requires Inv(cfg, s) && Enabled(s, ReadAtSlave(c, path))
    ensures Inv(cfg, Next(cfg.check, s, ReadAtSlave(c, path)))
  {
    var p := s.peers[c];
    var p' := p.(slave := p.slave.(sessions := ReadSessions(p.slave.sessions, p.slave.tree, p.slave.hosts, path)));
    ReadAtSlaveOk(s.master, c, p, p', path);
    OnePeer(cfg, s, c, p');
  }

  lemma ReadAtSlaveOk(m: Master, c: nat, p: Peer, p': Peer, path: seq<Name>)
    requires c < |m.connections| && PeerOk(m, c, p)
    requires p' == p.(slave := p.slave.(sessions := ReadSessions(p.slave.sessions, p.slave.tree, p.slave.hosts, path)))
    ensures PeerOk(m, c, p')
  {
    hide LogOk, UpToDate, WellFormed, Common, Record, RemoveNotOf, Scanned, HasRecognition, Without, TagAll;
    hide Target;
    assert Log(m, c, p') == Log(m, c, p);
  }

  lemma ReadAtMasterKeeps(cfg: Config, s: System, path: seq<Name>)
    requires Inv(cfg, s)
    ensures Inv(cfg, Next(cfg.check, s, ReadAtMaster(path)))
  {
    hide PeerOk, PostedOk, Attributed, LiveOwner, UniqueIds, WellFormed, RemoveNotOf, Walk, ValidConfig;
    var m := s.master;
    assert Sound(m.history[|m.history| - 1]);
    if Target(m.tree, path).Some? {
      WalkOwner(m.tree, path);
    }
  }

  // ---------------------------------------------------------------------------
  // Steps that move packets towards a slave

  lemma ConnectKeeps(cfg: Config, s: System, start: Forest, host: Host)
    requires Inv(cfg, s) && Enabled(s, Connect(start, host))
    ensures Inv(cfg, Next(cfg.check, s, Connect(start, host)))
  {
    hide PeerOk, SoundHistory, SessionsOk, ValidConfig, PostedOk, Attributed, LiveOwner, RemoveNotOf, Scanned;
    var m, p := s.master, NewPeer(start, host);
    var m' := Accept(m);
    var s' := s.(master := m', peers := s.peers + [p]);
    forall d | 0 <= d < |s.peers|
      ensures PeerOk(m', d, s'.peers[d])
    {
      PeerFrame(m, m', d, s.peers[d]);
    }
    NewPeerOk(m, start, host);
    PostedFrame(m, m');
    OwnershipKept(s, s');
  }

  lemma PostedFrame(m: Master, m': Master)
    requires PostedOk(m) && m'.posted == m.posted && m'.history == m.history
    ensures PostedOk(m')
  {
  }

  lemma NewPeerOk(m: Master, start: Forest, host: Host)
    requires PostedOk(m) && Scanned(start, 0) && host.id == 0
    requires forall q | q in m.posted :: q.ToOne? ==> q.connection < |m.connections|
    ensures PeerOk(Accept(m), |m.connections|, NewPeer(start, host))
  {
    hide WellFormed, Scanned, PostedOk, LogOk, For, Common;
    var c, p := |m.connections|, NewPeer(start, host);
    ForUnnamed(m, |m.posted|, c);
    assert m.posted[..|m.posted|] == m.posted;
    assert Log(Accept(m), c, p) == For(m.posted, c);
    assert StreamOk(Accept(m), c, p);
  }

  lemma TransmitKeeps(cfg: Config, s: System, c: nat)
    requires Inv(cfg, s) && Enabled(s, Transmit(c))
    ensures Inv(cfg, Next(cfg.check, s, Transmit(c)))
  {
    hide PeerOk, SoundHistory, SessionsOk, ValidConfig, PostedOk, Attributed, LiveOwner, RemoveNotOf;
    var m, p, conn := s.master, s.peers[c], s.master.connections[c];
    var m' := m.(connections := m.connections[c := conn.(queue := conn.queue[1..])]);
    var p' := p.(wire := p.wire + [conn.queue[0]]);
    var s' := s.(master := m', peers := s.peers[c := p']);
    forall d | 0 <= d < |s.peers| && d != c
      ensures PeerOk(m', d, s'.peers[d])
    {
      PeerFrame(m, m', d, s.peers[d]);
    }
    TransmittedOk(m, m', c, p, p');
    PostedFrame(m, m');
    OwnershipKept(s, s');
  }

  lemma TransmittedOk(m: Master, m': Master, c: nat, p: Peer, p': Peer)
    requires c < |m.connections| && PeerOk(m, c, p)
    requires m.connections[c].open && m.connections[c].queue != []
    requires m' == m.(connections := m.connections[c := m.connections[c].(queue := m.connections[c].queue[1..])])
    requires p' == p.(wire := p.wire + [m.connections[c].queue[0]])
    ensures PeerOk(m', c, p')
  {
    hide LogOk, UpToDate, WellFormed, Common, Record, RemoveNotOf, Scanned, HasRecognition, Without, TagAll;
    hide SessionsOk;
    TransmitMoves(m, m', c, p, p');
  }

  lemma TransmitMoves(m: Master, m': Master, c: nat, p: Peer, p': Peer)
    requires c < |m.connections| && m.connections[c].open && m.connections[c].queue != []
    requires m' == m.(connections := m.connections[c := m.connections[c].(queue := m.connections[c].queue[1..])])
    requires p' == p.(wire := p.wire + [m.connections[c].queue[0]])
    ensures Log(m', c, p') == Log(m, c, p)
  {
    hide For;
    var queue, posted := m.connections[c].queue, For(m.posted, c);
    assert queue == [queue[0]] + queue[1..];
    assert queue + posted == [queue[0]] + (queue[1..] + posted);
  }

  lemma RunHandlerKeeps(cfg: Config, s: System)
    requires Inv(cfg, s) && Enabled(s, RunHandler)
    ensures Inv(cfg, Next(cfg.check, s, RunHandler))
  {
    hide PeerOk, SoundHistory, SessionsOk, ValidConfig, PostedOk, Attributed, LiveOwner, RemoveNotOf, For;
    hide Share;
    var m := s.master;
    var m' := RunPosted(m);
    var s' := s.(master := m');
    forall d | 0 <= d < |s.peers|
      ensures PeerOk(m', d, s'.peers[d])
    {
      HandlerMoves(m, d);
      PeerFrame(m, m', d, s.peers[d]);
    }
    HandlerPosted(m);
    OwnershipKept(s, s');
  }

  /** Running a handler moves its packet from the posted handlers to the queues. */
  lemma HandlerMoves(m: Master, d: nat)
    requires d < |m.connections| && m.posted != []
    requires m.posted[0].ToOne? ==> m.posted[0].connection < |m.connections|
    ensures var m' := RunPosted(m);
            && Waiting(m', d) == Waiting(m, d)
            && m'.connections[d].open == m.connections[d].open
            && m'.connections[d].slaveId == m.connections[d].slaveId
  {
    ForFront(m.posted, d);
  }

  lemma HandlerPosted(m: Master)
    requires m.posted != [] && PostedOk(m)
    requires m.posted[0].ToOne? ==> m.posted[0].connection < |m.connections|
    ensures PostedOk(RunPosted(m))
    ensures forall q | q in RunPosted(m).posted :: q in m.posted
  {
    var rest := m.posted[1..];
    assert forall i | 0 <= i < |rest| :: rest[i] == m.posted[i + 1];
  }

  // ---------------------------------------------------------------------------
  // A new view

  /** The master's own state after a view is added. */
  lemma HistoryGrows(cfg: Config, m: Master, m': Master)
    requires MasterOk(cfg, m)
    requires m'.history == m.history + [View(m'.tree, m'.hosts)]
    requires |m'.hosts| == m'.maxHostId && m.hosts <= m'.hosts
    requires Sound(View(m'.tree, m'.hosts))
    requires RemoveNotOf(m'.tree, 1) == cfg.start
    ensures MasterOk(cfg, m')
  {
    hide Sound, RemoveNotOf;
    var last := |m.history| - 1;
    forall g, h | 0 <= g <= h < |m'.history|
      ensures m'.history[g].hosts <= m'.history[h].hosts
    {
      if g <= last == h - 1 {
        assert m.history[g].hosts <= m.history[last].hosts;
      }
    }
  }

  lemma PostedGrows(m: Master, m': Master, extra: seq<Posted>)
    requires PostedOk(m) && m.history <= m'.history && |m'.history| > |m.history|
    requires m'.posted == m.posted + extra
    requires forall q | q in extra ::
               && q.packet.stamp == |m.history|
               && q.packet.view == m'.history[|m.history|]
               && (q.ToAll? ==> q.packet.Update?)
    ensures PostedOk(m')
  {
    forall i, j | 0 <= i <= j < |m'.posted|
      ensures m'.posted[i].packet.stamp <= m'.posted[j].packet.stamp
    {
      if j >= |m.posted| {
        assert m'.posted[j] in extra;
        if i < |m.posted| { assert m'.posted[i] in m.posted; } else { assert m'.posted[i] in extra; }
      }
    }
  }

  /** A longer history and one more genuine packet at the end of the log. */
  lemma LogGrows(history: seq<View>, history': seq<View>, memberId: nat, joinStamp: nat, log: seq<Notice>, k: Notice)
    requires LogOk(history, memberId, joinStamp, log) && history <= history'
    requires Genuine(history', memberId, joinStamp, k) && k.stamp >= |history| - 1
    ensures LogOk(history', memberId, joinStamp, log + [k])
  {
    assert forall l | l in log :: Genuine(history', memberId, joinStamp, l);
    assert Ordered([k]);
    AppendLog(history', memberId, joinStamp, log, [k]);
  }

  lemma LogStays(history: seq<View>, history': seq<View>, memberId: nat, joinStamp: nat, log: seq<Notice>)
    requires LogOk(history, memberId, joinStamp, log) && history <= history'
    ensures LogOk(history', memberId, joinStamp, log)
  {
  }

  /** A peer that is told of a new view and is not otherwise concerned. */
  lemma PeerHears(m: Master, m': Master, c: nat, p: Peer, v: View)
    requires c < |m.connections| && c < |m'.connections| && PeerOk(m, c, p)
    requires m'.history == m.history + [v] && m.hosts <= m'.hosts
    requires m'.connections[c] == m.connections[c]
    requires For(m'.posted, c) == For(m.posted, c) + [Update(v, |m.history|)]
    requires p.memberId != 0 && p.departures == [] && p.submission.Some? ==> RemoveNotOf(v.tree, p.memberId) == Kept(p)
    ensures PeerOk(m', c, p)
  {
    HearsStream(m, m', c, p, v);
    HearsMember(m, m', c, p, v);
    HearsKept(m.history, m'.history, p, v);
  }

  lemma HearsStream(m: Master, m': Master, c: nat, p: Peer, v: View)
    requires c < |m.connections| && c < |m'.connections| && StreamOk(m, c, p)
    requires m'.history == m.history + [v]
    requires m'.connections[c] == m.connections[c]
    requires For(m'.posted, c) == For(m.posted, c) + [Update(v, |m.history|)]
    ensures StreamOk(m', c, p)
  {
    hide LogOk, HasRecognition, For;
    var log, k := Log(m, c, p), Update(v, |m.history|);
    if m.connections[c].open {
      assert Log(m', c, p) == log + [k];
      LogGrows(m.history, m'.history, p.memberId, p.joinStamp, log, k);
      MoreRecognition(log, k);
    } else {
      assert Log(m', c, p) == log;
      LogStays(m.history, m'.history, p.memberId, p.joinStamp, log);
    }
  }

  lemma HearsMember(m: Master, m': Master, c: nat, p: Peer, v: View)
    requires c < |m.connections| && c < |m'.connections| && MemberOk(m, m.connections[c], p)
    requires m'.history == m.history + [v] && m.hosts <= m'.hosts
    requires m'.connections[c] == m.connections[c]
    ensures MemberOk(m', m'.connections[c], p)
  {
    hide WellFormed, Common, Record;
    assert forall h | 0 <= h < |m.history| :: m'.history[h] == m.history[h];
  }

  lemma HearsKept(history: seq<View>, history': seq<View>, p: Peer, v: View)
    requires KeptOk(history, p) && history' == history + [v]
    requires p.departures != [] ==> p.departures[0] <= |history|
    requires p.memberId != 0 && p.departures == [] && p.submission.Some? ==> RemoveNotOf(v.tree, p.memberId) == Kept(p)
    ensures KeptOk(history', p)
  {
    hide RemoveNotOf, Kept;
  }
}
