/** Joins and leaves keep the invariant, and so does every run. */
module Membership {
  import opened Names
  import opened Trees
  import opened TreeLaws
  import opened DirTreeClass
  import opened Nodes
  import opened GroupSystem
  import opened Invariant
  import opened Preservation

  // ---------------------------------------------------------------------------
  // The new view

  lemma AdmitSound(v: View, tree: Forest, record: Host)
    requires Sound(v) && WellFormed(tree) && record.id == |v.hosts|
    ensures Sound(View(Merge(v.tree, TagAll(tree, |v.hosts|)), v.hosts + [record]))
    ensures forall n | n in v.tree :: n.hostId != |v.hosts|
  {
    hide Sorted, Less, Merge, TagAll, NamesOf;
    var id := |v.hosts|;
    var tagged := TagAll(tree, id);
    SortedOf(v.tree);
    SortedOf(tree);
    TagUniform(tree, id);
    TagAllMembers(tree, id);
    MergeMembers(v.tree, tagged);
    forall n | n in Merge(v.tree, tagged)
      ensures WellFormed(n.children)
    {
      assert n in v.tree || n in tagged;
    }
    forall n | n in Merge(v.tree, tagged)
      ensures Uniform(n, n.hostId) && 1 <= n.hostId <= id
    {
      if n in tagged { assert Uniform(n, id); }
    }
  }

  lemma SortedOf(s: Forest)
    requires WellFormed(s)
    ensures Sorted(s)
    ensures forall n | n in s :: WellFormed(n.children)
  {
  }

  lemma LeaveSound(v: View, id: nat)
    requires Sound(v)
    ensures Sound(View(RemoveOf(v.tree, id), v.hosts))
  {
    hide Sorted, Less, RemoveOf;
    SortedOf(v.tree);
    RemoveOfMembers(v.tree, id);
  }

  /** The newest view holds what each present member keeps. */
  lemma KeptNow(m: Master, c: nat, p: Peer)
    requires c < |m.connections| && PeerOk(m, c, p) && m.history != []
    requires m.history[|m.history| - 1].tree == m.tree
    requires p.memberId != 0 && p.departures == []
    ensures p.submission.Some? && RemoveNotOf(m.tree, p.memberId) == Kept(p)
    ensures p.memberId < |m.hosts|
  {
    hide StreamOk, SlaveOk, RemoveNotOf, Without, TagAll, WellFormed, Common;
    assert RemoveNotOf(m.history[|m.history| - 1].tree, p.memberId) == Kept(p);
  }

  // ---------------------------------------------------------------------------
  // Joining

  lemma AdmitPosted(m: Master, c: nat, d: nat, tree: Forest, host: Host, address: string)
    requires c < |m.connections|
    ensures var m' := Admit(m, c, tree, host, address);
            var v, stamp := View(m'.tree, m'.hosts), |m.history|;
            For(m'.posted, d) == For(m.posted, d) +
              (if c == d then [Recognition(m.maxHostId, v, stamp), Update(v, stamp)] else [Update(v, stamp)])
  {
    hide For, Merge, TagAll;
    var m' := Admit(m, c, tree, host, address);
    var v, stamp := View(m'.tree, m'.hosts), |m.history|;
    var one, all := ToOne(c, Recognition(m.maxHostId, v, stamp)), ToAll(Update(v, stamp));
    ForAppend(m.posted, [one, all], d);
    assert [one] + [all] == [one, all];
    ForAppend([one], [all], d);
    ForOne(one, d);
    ForOne(all, d);
  }

  /** The peers that did not join. */
  lemma AdmitOthers(cfg: Config, s: System, c: nat, d: nat, tree: Forest, host: Host, address: string)
    requires Inv(cfg, s) && c < |s.peers| && d < |s.peers| && c != d && Sorted(tree)
    ensures PeerOk(Admit(s.master, c, tree, host, address), d, s.peers[d])
  {
    hide PostedOk, OwnershipOk, SessionsOk, ValidConfig, Sorted, Merge, TagAll, RemoveNotOf, For, PeerOk;
    hide Uniform, Kept;
    var m, p := s.master, s.peers[d];
    var m' := Admit(m, c, tree, host, address);
    var v := View(m'.tree, m'.hosts);
    AdmitPosted(m, c, d, tree, host, address);
    if p.memberId != 0 && p.departures == [] {
      KeptNow(m, d, p);
      assert Sound(m.history[|m.history| - 1]);
      SortedOf(m.tree);
      OthersUntouched(m.tree, tree, m.maxHostId, p.memberId);
    }
    PeerHears(m, m', d, p, v);
  }

  /** The peer that joined. */
  lemma AdmitSelf(cfg: Config, m: Master, c: nat, p: Peer, address: string)
    requires MasterOk(cfg, m) && c < |m.connections| && PeerOk(m, c, p)
    requires p.submission.Some? && !p.consumed
    requires Conflicts(cfg.check, p.submission.value.tree, m.tree) == []
    ensures PeerOk(Admit(m, c, p.submission.value.tree, p.submission.value.host, address), c,
                   NoteJoin(p, cfg.check, m, address))
  {
    hide Sorted, Merge, TagAll, RemoveNotOf, For, Uniform, Common, WellFormed, Conflicts, Sound, SessionsOk;
    hide Scanned, LogOk, Genuine, HasRecognition, UpToDate;
    var sub := p.submission.value;
    var m', p' := Admit(m, c, sub.tree, sub.host, address), NoteJoin(p, cfg.check, m, address);
    var v, stamp := View(m'.tree, m'.hosts), |m.history|;
    NoRecognitionYet(m, c, p);
    AdmitStream(m, m', c, p, p', v);
    AdmitContribution(m, sub.tree);
    assert forall h | 0 <= h < |m.history| :: m'.history[h] == m.history[h];
    assert KeptOk(m'.history, p');
    assert MemberOk(m', m'.connections[c], p');
  }

  lemma NoRecognitionYet(m: Master, c: nat, p: Peer)
    requires c < |m.connections| && PeerOk(m, c, p) && !p.consumed
    ensures p.memberId == 0 && !HasRecognition(p.installed) && p.departures == []
  {
    hide SlaveOk, KeptOk, UpToDate, For, Common, Record, WellFormed;
    assert forall k | k in p.installed :: k in Log(m, c, p);
  }

  lemma AdmitContribution(m: Master, tree: Forest)
    requires m.history != [] && m.history[|m.history| - 1] == View(m.tree, m.hosts) && Sound(View(m.tree, m.hosts))
    requires |m.hosts| == m.maxHostId && WellFormed(tree)
    ensures RemoveNotOf(Merge(m.tree, TagAll(tree, m.maxHostId)), m.maxHostId)
            == Without(TagAll(tree, m.maxHostId), Common(tree, m.tree))
  {
    hide Sorted, Merge, TagAll, RemoveNotOf, Uniform, Common, Without;
    SortedOf(m.tree);
    SortedOf(tree);
    MergeKeeps(m.tree, tree, m.maxHostId);
  }

  lemma AdmitStream(m: Master, m': Master, c: nat, p: Peer, p': Peer, v: View)
    requires c < |m.connections| && StreamOk(m, c, p) && p.memberId == 0
    requires p.submission.Some?
    requires m' == Admit(m, c, p.submission.value.tree, p.submission.value.host, p'.address)
    requires v == View(m'.tree, m'.hosts) && m.maxHostId != 0
    requires p'.installed == p.installed && p'.wire == p.wire
    requires p'.memberId == m.maxHostId && p'.joinStamp == |m.history|
    ensures StreamOk(m', c, p')
  {
    hide For, Merge, TagAll, LogOk, HasRecognition;
    var log, stamp := Log(m, c, p), |m.history|;
    var one, all := Recognition(m.maxHostId, v, stamp), Update(v, stamp);
    FreshLog(m.history, m'.history, log, p.joinStamp, p'.memberId, stamp);
    AdmitPosted(m, c, c, p.submission.value.tree, p.submission.value.host, p'.address);
    if m.connections[c].open {
      assert Log(m', c, p') == log + [one] + [all];
      LogGrows(m'.history, m'.history, p'.memberId, stamp, log, one);
      LogGrows(m'.history, m'.history, p'.memberId, stamp, log + [one], all);
      MoreRecognition(log, one);
      MoreRecognition(log + [one], all);
    } else {
      assert Log(m', c, p') == log;
    }
  }

  /** Packets for a slave that is not a member are updates, genuine for any id. */
  lemma FreshLog(history: seq<View>, history': seq<View>, log: seq<Notice>, j: nat, memberId: nat, joinStamp: nat)
    requires LogOk(history, 0, j, log)
    requires history <= history'
    ensures LogOk(history', memberId, joinStamp, log)
  {
  }

  lemma AdmitOwnership(cfg: Config, s: System, c: nat, address: string)
    requires Inv(cfg, s) && c < |s.peers|
    requires s.peers[c].submission.Some? && !s.peers[c].consumed
    requires Conflicts(cfg.check, s.peers[c].submission.value.tree, s.master.tree) == []
    ensures OwnershipOk(Next(cfg.check, s, ReadJoin(c, address)))
  {
    hide PostedOk, SessionsOk, ValidConfig, Sorted, Merge, TagAll, RemoveNotOf, Uniform, WellFormed;
    hide Conflicts, Common, Attributed, LiveOwner, NamesOf;
    var m, p, sub := s.master, s.peers[c], s.peers[c].submission.value;
    var s' := Next(cfg.check, s, ReadJoin(c, address));
    var id, m' := m.maxHostId, s'.master;
    assert PeerOk(m, c, p);
    assert m' == Admit(m, c, sub.tree, sub.host, address);
    NoRecognitionYet(m, c, p);
    assert UniqueIds(s'.peers) by {
      forall d | 0 <= d < |s.peers| && s.peers[d].memberId != 0
        ensures s.peers[d].memberId < id
      {
        assert PeerOk(m, d, s.peers[d]);
      }
    }
    assert Sound(m.history[|m.history| - 1]);
    SortedOf(m.tree);
    SortedOf(sub.tree);
    TagAllMembers(sub.tree, id);
    MergeMembers(m.tree, TagAll(sub.tree, id));
    forall h, n | 0 <= h < |m'.history| && n in m'.history[h].tree
      ensures Attributed(s'.peers, n)
    {
      if h < |m.history| || n in m.tree {
        var g := if h < |m.history| then h else |m.history| - 1;
        assert n in m.history[g].tree && Sound(m.history[g]);
        AttributionKept(s.peers, s'.peers, n);
      } else {
        assert n in TagAll(sub.tree, id) && n.hostId == id;
        AttributedTo(s'.peers, c, n);
      }
    }
    forall n | n in m'.tree
      ensures LiveOwner(m'.connections, n.hostId)
    {
      if n in m.tree {
        assert n in m.history[|m.history| - 1].tree;
        LiveElsewhere(m.connections, m'.connections, c, n.hostId);
      } else {
        LiveAt(m'.connections, c);
      }
    }
  }

  lemma AttributedTo(peers: seq<Peer>, c: nat, n: Node)
    requires c < |peers| && peers[c].memberId == n.hostId && peers[c].submission.Some?
    requires n in TagAll(peers[c].submission.value.tree, n.hostId)
    ensures Attributed(peers, n)
  {
    hide TagAll;
  }

  lemma LiveAt(connections: seq<Connection>, c: nat)
    requires c < |connections|
    ensures LiveOwner(connections, connections[c].slaveId)
  {
  }

  /** An owner other than the one a connection changes away from stays live. */
  lemma LiveElsewhere(connections: seq<Connection>, connections': seq<Connection>, c: nat, id: nat)
    requires LiveOwner(connections, id) && id != 0 && c < |connections| && |connections'| == |connections|
    requires connections[c].slaveId != id
    requires forall d | 0 <= d < |connections| && d != c :: connections'[d].slaveId == connections[d].slaveId
    ensures LiveOwner(connections', id)
  {
    if id != 1 {
      var d :| 0 <= d < |connections| && connections[d].slaveId == id;
      assert connections'[d].slaveId == id;
    }
  }

  lemma AdmitKeeps(cfg: Config, s: System, c: nat, address: string)
    requires Inv(cfg, s) && Enabled(s, ReadJoin(c, address))
    requires Conflicts(cfg.check, s.peers[c].submission.value.tree, s.master.tree) == []
    ensures Inv(cfg, Next(cfg.check, s, ReadJoin(c, address)))
  {
    hide PostedOk, OwnershipOk, SessionsOk, ValidConfig, Sorted, Merge, TagAll, RemoveNotOf, Uniform;
    hide WellFormed, Conflicts, Common, For, PeerOk, SoundHistory, Sound;
    var m, p, sub := s.master, s.peers[c], s.peers[c].submission.value;
    var s' := Next(cfg.check, s, ReadJoin(c, address));
    var m' := Admit(m, c, sub.tree, sub.host, address);
    assert PeerOk(m, c, p);
    SubmittedWellFormed(m, c, p);
    SortedOf(sub.tree);
    AdmitMaster(cfg, m, c, sub.tree, sub.host, address);
    forall d | 0 <= d < |s.peers|
      ensures PeerOk(m', d, s'.peers[d])
    {
      if d == c {
        AdmitSelf(cfg, m, c, p, address);
      } else {
        AdmitOthers(cfg, s, c, d, sub.tree, sub.host, address);
      }
    }
    AdmitOwnership(cfg, s, c, address);
    MoreHosts(s.sessions, m.hosts, m'.hosts);
  }

  lemma SubmittedWellFormed(m: Master, c: nat, p: Peer)
    requires c < |m.connections| && PeerOk(m, c, p) && p.submission.Some?
    ensures WellFormed(p.submission.value.tree)
  {
    hide StreamOk, KeptOk, SlaveOk, WellFormed;
  }

  lemma MoreHosts(sessions: Sessions, hosts: seq<Host>, hosts': seq<Host>)
    requires SessionsOk(sessions, hosts) && hosts <= hosts'
    ensures SessionsOk(sessions, hosts')
  {
  }

  lemma AdmitMaster(cfg: Config, m: Master, c: nat, tree: Forest, host: Host, address: string)
    requires MasterOk(cfg, m) && PostedOk(m) && c < |m.connections| && WellFormed(tree)
    ensures MasterOk(cfg, Admit(m, c, tree, host, address))
    ensures PostedOk(Admit(m, c, tree, host, address))
  {
    hide Sorted, Merge, TagAll, RemoveNotOf, Uniform, WellFormed, PostedOk, Sound;
    var m' := Admit(m, c, tree, host, address);
    var record := Record(host, address, m.maxHostId);
    assert Sound(m.history[|m.history| - 1]);
    AdmitSound(m.history[|m.history| - 1], tree, record);
    SoundWellFormed(m.history[|m.history| - 1]);
    SortedOf(m.tree);
    SortedOf(tree);
    OthersUntouched(m.tree, tree, m.maxHostId, 1);
    HistoryGrows(cfg, m, m');
    var v, stamp := View(m'.tree, m'.hosts), |m.history|;
    PostedGrows(m, m', [ToOne(c, Recognition(m.maxHostId, v, stamp)), ToAll(Update(v, stamp))]);
  }

  // ---------------------------------------------------------------------------
  // Leaving

  function SocketClosed(m: Master, c: nat): Master
    requires c < |m.connections|
  {
    m.(connections := m.connections[c := m.connections[c].(open := false, queue := [])])
  }

  /** Closing the socket leaves the slave with what it has and what is under way. */
  lemma ShutSelf(m: Master, c: nat, p: Peer)
    requires c < |m.connections| && PeerOk(m, c, p)
    ensures PeerOk(SocketClosed(m, c), c, p)
  {
    hide Genuine, KeptOk, SlaveOk, UpToDate, For, WellFormed, Common, Record;
    var m' := SocketClosed(m, c);
    assert Log(m', c, p) == p.installed + p.wire;
    assert Log(m', c, p) <= Log(m, c, p);
    assert forall k | k in Log(m', c, p) :: k in Log(m, c, p);
  }

  lemma ShutKeeps(cfg: Config, s: System, c: nat)
    requires Inv(cfg, s) && c < |s.peers|
    ensures Inv(cfg, s.(master := SocketClosed(s.master, c)))
  {
    hide PeerOk, SoundHistory, SessionsOk, ValidConfig, PostedOk, Attributed, LiveOwner, RemoveNotOf;
    var m, m' := s.master, SocketClosed(s.master, c);
    forall d | 0 <= d < |s.peers|
      ensures PeerOk(m', d, s.peers[d])
    {
      if d == c {
        ShutSelf(m, c, s.peers[c]);
      } else {
        PeerFrame(m, m', d, s.peers[d]);
      }
    }
    PostedFrame(m, m');
    OwnershipKept(s, s.(master := m'));
  }

  lemma LeavePosted(m: Master, c: nat, d: nat)
    requires c < |m.connections| && m.connections[c].slaveId != 0
    ensures var m' := Leave(m, c);
            For(m'.posted, d) == For(m.posted, d) + [Update(View(m'.tree, m'.hosts), |m.history|)]
  {
    hide For, RemoveOf;
    var m' := Leave(m, c);
    var all := ToAll(Update(View(m'.tree, m'.hosts), |m.history|));
    ForAppend(m.posted, [all], d);
    ForOne(all, d);
  }

  lemma LeaveMaster(cfg: Config, m: Master, c: nat)
    requires MasterOk(cfg, m) && PostedOk(m) && c < |m.connections| && m.connections[c].slaveId > 1
    ensures MasterOk(cfg, Leave(m, c)) && PostedOk(Leave(m, c))
  {
    hide Sorted, RemoveOf, RemoveNotOf, Uniform, WellFormed, PostedOk, Sound;
    var m' := Leave(m, c);
    assert Sound(m.history[|m.history| - 1]);
    LeaveSound(m.history[|m.history| - 1], m.connections[c].slaveId);
    SoundWellFormed(m.history[|m.history| - 1]);
    SortedOf(m.tree);
    SortedNil();
    OthersUntouched(m.tree, [], m.connections[c].slaveId, 1);
    HistoryGrows(cfg, m, m');
    PostedGrows(m, m', [ToAll(Update(View(m'.tree, m'.hosts), |m.history|))]);
  }

  lemma SortedNil()
    ensures Sorted([])
  {
  }

  lemma LeaveOthers(cfg: Config, s: System, c: nat, d: nat)
    requires Inv(cfg, s) && c < |s.peers| && d < |s.peers| && c != d && s.master.connections[c].slaveId != 0
    ensures PeerOk(Leave(s.master, c), d, s.peers[d])
  {
    hide PostedOk, Attributed, LiveOwner, SessionsOk, ValidConfig, Sorted, RemoveOf, RemoveNotOf, For;
    hide PeerOk, Uniform, Kept;
    var m, p := s.master, s.peers[d];
    var m', id := Leave(m, c), m.connections[c].slaveId;
    LeavePosted(m, c, d);
    if p.memberId != 0 && p.departures == [] {
      KeptNow(m, d, p);
      assert PeerOk(m, c, s.peers[c]);
      LiveMember(m, c, s.peers[c]);
      assert Sound(m.history[|m.history| - 1]);
      SortedOf(m.tree);
      SortedNil();
      OthersUntouched(m.tree, [], id, p.memberId);
    }
    PeerHears(m, m', d, p, View(m'.tree, m'.hosts));
  }

  lemma LiveMember(m: Master, c: nat, p: Peer)
    requires c < |m.connections| && PeerOk(m, c, p) && m.connections[c].slaveId != 0
    ensures p.memberId == m.connections[c].slaveId >= 2 && p.departures == []
  {
    hide StreamOk, KeptOk, SlaveOk, WellFormed, Common, Record;
  }

  lemma LeaveSelf(m: Master, c: nat, p: Peer)
    requires c < |m.connections| && PeerOk(m, c, p) && !m.connections[c].open && m.connections[c].slaveId != 0
    ensures PeerOk(Leave(m, c), c, p.(departures := p.departures + [|m.history|]))
  {
    hide KeptOk, SlaveOk, For, WellFormed, Common, Record, RemoveOf, HasRecognition;
    var m', p' := Leave(m, c), p.(departures := p.departures + [|m.history|]);
    LiveMember(m, c, p);
    var log := p.installed + p.wire;
    assert Log(m, c, p) == log && Log(m', c, p') == log;
    assert forall h | 0 <= h < |m.history| :: m'.history[h] == m.history[h];
    LeaveKept(m.history, m'.history, p);
    LeaveSlave(p, p');
  }

  lemma LeaveKept(history: seq<View>, history': seq<View>, p: Peer)
    requires KeptOk(history, p) && history <= history' && p.departures == []
    ensures KeptOk(history', p.(departures := p.departures + [|history|]))
  {
    hide RemoveNotOf, Without, TagAll;
  }

  lemma LeaveSlave(p: Peer, p': Peer)
    requires SlaveOk(p) && p' == p.(departures := p'.departures)
    ensures SlaveOk(p')
  {
    hide Scanned, RemoveNotOf, HasRecognition, SessionsOk;
  }

  lemma LeaveOwnership(cfg: Config, s: System, c: nat, s': System)
    requires Inv(cfg, s) && c < |s.peers| && s.master.connections[c].slaveId != 0
    requires s'.master == Leave(s.master, c)
    requires s'.peers == s.peers[c := s.peers[c].(departures := s.peers[c].departures + [|s.master.history|])]
    ensures OwnershipOk(s')
  {
    hide PostedOk, SessionsOk, ValidConfig, Sorted, RemoveOf, RemoveNotOf, Uniform, WellFormed, Attributed;
    hide LiveOwner, PeerOk;
    var m, m', id := s.master, s'.master, s.master.connections[c].slaveId;
    RemoveOfMembers(m.tree, id);
    forall h, n | 0 <= h < |m'.history| && n in m'.history[h].tree
      ensures Attributed(s'.peers, n)
    {
      var g := if h < |m.history| then h else |m.history| - 1;
      assert n in m.history[g].tree && Sound(m.history[g]);
      AttributionKept(s.peers, s'.peers, n);
    }
    forall n | n in m'.tree
      ensures LiveOwner(m'.connections, n.hostId)
    {
      assert n in m.history[|m.history| - 1].tree && Sound(m.history[|m.history| - 1]);
      LiveElsewhere(m.connections, m'.connections, c, n.hostId);
    }
  }

  /** A member whose socket is closed leaves. */
  lemma LeaveKeeps(cfg: Config, s: System, c: nat, s': System)
    requires Inv(cfg, s) && c < |s.peers| && s.master.connections[c].slaveId != 0 && !s.master.connections[c].open
    requires s' == s.(master := Leave(s.master, c),
                      peers := s.peers[c := s.peers[c].(departures := s.peers[c].departures + [|s.master.history|])])
    ensures Inv(cfg, s')
  {
    hide PostedOk, OwnershipOk, SessionsOk, ValidConfig, RemoveOf, RemoveNotOf, PeerOk, SoundHistory;
    var m := s.master;
    assert PeerOk(m, c, s.peers[c]);
    LiveMember(m, c, s.peers[c]);
    LeaveMaster(cfg, m, c);
    forall d | 0 <= d < |s.peers|
      ensures PeerOk(s'.master, d, s'.peers[d])
    {
      if d == c {
        LeaveSelf(m, c, s.peers[c]);
      } else {
        LeaveOthers(cfg, s, c, d);
      }
    }
    LeaveOwnership(cfg, s, c, s');
  }

  lemma CloseKeeps(cfg: Config, s: System, c: nat)
    requires Inv(cfg, s) && Enabled(s, ConnectionError(c))
    ensures Inv(cfg, Next(cfg.check, s, ConnectionError(c)))
  {
    hide Inv, RemoveOf;
    var m := s.master;
    var s1 := s.(master := SocketClosed(m, c));
    var s' := Next(cfg.check, s, ConnectionError(c));
    if !m.connections[c].open {
      assert s.peers[c := s.peers[c]] == s.peers;
      assert s' == s;
    } else {
      ShutKeeps(cfg, s, c);
      if m.connections[c].slaveId == 0 {
        assert s.peers[c := s.peers[c]] == s.peers;
        assert s' == s1;
      } else {
        LeaveKeeps(cfg, s1, c, s');
      }
    }
  }

  lemma RejectKeeps(cfg: Config, s: System, c: nat, address: string)
    requires Inv(cfg, s) && Enabled(s, ReadJoin(c, address))
    requires Conflicts(cfg.check, s.peers[c].submission.value.tree, s.master.tree) != []
    ensures Inv(cfg, Next(cfg.check, s, ReadJoin(c, address)))
    ensures var m := Next(cfg.check, s, ReadJoin(c, address)).master;
            m == s.master.(connections := m.connections)
  {
    hide PostedOk, OwnershipOk, SessionsOk, ValidConfig, RemoveOf, RemoveNotOf, MasterOk, Conflicts, Shape;
    hide StreamOk, KeptOk, SlaveOk, WellFormed, Common;
    var m, p := s.master, s.peers[c];
    assert PeerOk(m, c, p);
    assert p.memberId == 0 && m.connections[c].slaveId == 0;
    ConsumedOk(m, c, p);
    var s1 := s.(peers := s.peers[c := p.(consumed := true)]);
    OnePeer(cfg, s, c, p.(consumed := true));
    ShutKeeps(cfg, s1, c);
  }

  lemma ConsumedOk(m: Master, c: nat, p: Peer)
    requires c < |m.connections| && PeerOk(m, c, p)
    ensures PeerOk(m, c, p.(consumed := true))
  {
    hide LogOk, UpToDate, WellFormed, Common, Record, RemoveNotOf, SessionsOk, Scanned, HasRecognition;
    hide Without, TagAll;
    assert Log(m, c, p.(consumed := true)) == Log(m, c, p);
  }

  // ---------------------------------------------------------------------------
  // The master by itself

  /** What the master keeps whatever its slaves do: a sound view and history, posted
      handlers in order and for known connections, and members with ids it gave. */
  ghost predicate MasterKeeps(cfg: Config, m: Master) {
    && MasterOk(cfg, m)
    && PostedOk(m)
    && (forall q | q in m.posted :: q.ToOne? ==> q.connection < |m.connections|)
    && (forall c | 0 <= c < |m.connections| ::
          m.connections[c].slaveId == 0 || 2 <= m.connections[c].slaveId < m.maxHostId)
  }

  lemma InitialKept(cfg: Config)
    requires ValidConfig(cfg)
    ensures MasterKeeps(cfg, InitialMaster(cfg.start, cfg.host))
  {
    hide WellFormed;
    ScannedOwner(cfg.start, 1);
  }

  lemma AcceptKept(cfg: Config, m: Master)
    requires MasterKeeps(cfg, m)
    ensures MasterKeeps(cfg, Accept(m))
  {
    hide SoundHistory, PostedOk, RemoveNotOf;
    PostedFrame(m, Accept(m));
  }

  lemma AdmitKept(cfg: Config, m: Master, c: nat, tree: Forest, host: Host, address: string)
    requires MasterKeeps(cfg, m) && c < |m.connections| && WellFormed(tree)
    ensures MasterKeeps(cfg, Admit(m, c, tree, host, address))
  {
    hide SoundHistory, PostedOk, RemoveNotOf, Merge, TagAll, WellFormed;
    AdmitMaster(cfg, m, c, tree, host, address);
  }

  lemma CloseKept(cfg: Config, m: Master, c: nat)
    requires MasterKeeps(cfg, m) && c < |m.connections|
    ensures MasterKeeps(cfg, Close(m, c)) && MasterKeeps(cfg, Leave(m, c))
  {
    hide SoundHistory, PostedOk, RemoveNotOf, RemoveOf;
    PostedFrame(m, SocketClosed(m, c));
    if m.connections[c].slaveId != 0 {
      LeaveMaster(cfg, m, c);
      LeaveMaster(cfg, SocketClosed(m, c), c);
    }
  }

  lemma KeepsSorted(cfg: Config, m: Master)
    requires MasterKeeps(cfg, m)
    ensures Sorted(m.tree)
  {
    hide PostedOk, RemoveNotOf, Sorted, Uniform;
    assert Sound(m.history[|m.history| - 1]);
    SortedOf(m.tree);
  }

  lemma SocketClosedKept(cfg: Config, m: Master, c: nat)
    requires MasterKeeps(cfg, m) && c < |m.connections|
    ensures MasterKeeps(cfg, SocketClosed(m, c))
  {
    hide SoundHistory, PostedOk, RemoveNotOf;
    PostedFrame(m, SocketClosed(m, c));
  }

  lemma HandlerKept(cfg: Config, m: Master)
    requires MasterKeeps(cfg, m) && m.posted != []
    ensures m.posted[0].ToOne? ==> m.posted[0].connection < |m.connections|
    ensures MasterKeeps(cfg, RunPosted(m))
  {
    hide SoundHistory, PostedOk, RemoveNotOf;
    assert m.posted[0] in m.posted;
    HandlerPosted(m);
  }

  lemma WrittenKept(cfg: Config, m: Master, c: nat, queue: seq<Notice>)
    requires MasterKeeps(cfg, m) && c < |m.connections|
    ensures MasterKeeps(cfg, m.(connections := m.connections[c := m.connections[c].(queue := queue)]))
  {
    hide SoundHistory, PostedOk, RemoveNotOf;
    PostedFrame(m, m.(connections := m.connections[c := m.connections[c].(queue := queue)]));
  }

  // ---------------------------------------------------------------------------
  // Every run

  lemma InitialInv(cfg: Config)
    requires ValidConfig(cfg)
    ensures Inv(cfg, Initial(cfg))
  {
    hide WellFormed;
    ScannedOwner(cfg.start, 1);
  }

  lemma {:induction false} ScannedOwner(s: Forest, id: nat)
    requires forall n | n in s :: n.hostId == id
    ensures RemoveNotOf(s, id) == s
    ensures forall other | other != id :: RemoveNotOf(s, other) == []
  {
    if s == [] {
    } else {
      ScannedOwner(s[1..], id);
    }
  }

  lemma NextInv(cfg: Config, s: System, step: Step)
    requires Inv(cfg, s) && Enabled(s, step)
    ensures Inv(cfg, Next(cfg.check, s, step))
  {
    hide Inv, Next, Conflicts;
    match step {
      case Connect(start, host) => ConnectKeeps(cfg, s, start, host);
      case Submit(c) => SubmitKeeps(cfg, s, c);
      case ReadJoin(c, address) =>
        if Conflicts(cfg.check, s.peers[c].submission.value.tree, s.master.tree) == [] {
          AdmitKeeps(cfg, s, c, address);
        } else {
          RejectKeeps(cfg, s, c, address);
        }
      case RunHandler => RunHandlerKeeps(cfg, s);
      case Transmit(c) => TransmitKeeps(cfg, s, c);
      case ConnectionError(c) => CloseKeeps(cfg, s, c);
      case Deliver(c) => DeliverKeeps(cfg, s, c);
      case LinkLost(c, pending) => LinkLostKeeps(cfg, s, c, pending);
      case ReadAtMaster(path) => ReadAtMasterKeeps(cfg, s, path);
      case ReadAtSlave(c, path) => ReadAtSlaveKeeps(cfg, s, c, path);
    }
  }

  /** The invariant holds in every reachable state. */
  lemma {:induction false} Always(cfg: Config, steps: seq<Step>)
    requires Run(cfg, steps)
    ensures Inv(cfg, After(cfg, steps))
  {
    hide Inv, Next, Enabled;
    if steps == [] {
      InitialInv(cfg);
    } else {
      var k := |steps| - 1;
      Always(cfg, steps[..k]);
      NextInv(cfg, After(cfg, steps[..k]), steps[k]);
    }
  }
}
