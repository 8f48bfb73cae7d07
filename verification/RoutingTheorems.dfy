/** Host lookups, cached sessions, and what a slave is left with, in every run. */
module RoutingTheorems {
  import opened Names
  import opened Trees
  import opened TreeLaws
  import opened DirTreeClass
  import opened Nodes
  import opened GroupSystem
  import opened Invariant
  import opened Preservation
  import opened Membership
  import opened Theorems
  import opened OwnershipTheorems

  // ---------------------------------------------------------------------------
  // Host lookup

  /** The entry was submitted by the host whose record the master's table holds
      under the entry's owner id. */
  ghost predicate Routed(cfg: Config, s: System, entry: Node) {
    && entry.hostId < |s.master.hosts|
    && ((entry.hostId == 1 && entry in cfg.start && s.master.hosts[1] == cfg.host) ||
        exists c | 0 <= c < |s.peers| :: RoutedTo(s, c, entry))
  }

  ghost predicate RoutedTo(s: System, c: nat, entry: Node)
    requires c < |s.peers| && entry.hostId < |s.master.hosts|
  {
    var p := s.peers[c];
    && p.memberId == entry.hostId && p.submission.Some?
    && entry in TagAll(p.submission.value.tree, entry.hostId)
    && s.master.hosts[entry.hostId] ==
         Host(entry.hostId, p.address, p.submission.value.host.workingDir,
              p.submission.value.host.tcpPort, p.submission.value.host.sshPort)
  }

  lemma EntryRouted(cfg: Config, s: System, h: nat, entry: Node)
    requires Inv(cfg, s) && h < |s.master.history| && entry in s.master.history[h].tree
    ensures Routed(cfg, s, entry)
    ensures 1 <= entry.hostId < |s.master.history[h].hosts|
    ensures s.master.history[h].hosts[entry.hostId] == s.master.hosts[entry.hostId]
    ensures s.master.hosts[entry.hostId].id == entry.hostId
  {
    hide PostedOk, SessionsOk, StreamOk, KeptOk, SlaveOk, LiveOwner, WellFormed, Uniform, RemoveNotOf;
    hide Common, TagAll, UniqueIds;
    var m := s.master;
    var last := |m.history| - 1;
    assert Sound(m.history[h]) && Sound(m.history[last]);
    assert m.history[h].hosts <= m.history[last].hosts;
    assert Attributed(s.peers, entry);
    if entry.hostId == 1 {
      RemoveNotOfMembers(m.history[h].tree, 1);
    } else {
      var c :| 0 <= c < |s.peers| && s.peers[c].memberId == entry.hostId && s.peers[c].submission.Some? &&
               entry in TagAll(s.peers[c].submission.value.tree, entry.hostId);
      assert PeerOk(m, c, s.peers[c]);
      assert RoutedTo(s, c, entry);
    }
  }

  /** On the master: the table has one record per id given out, at that id, and a
      file found under the root is routed to the host that submitted it. */
  lemma SafeRoutingAtMaster(cfg: Config, steps: seq<Step>, path: seq<Name>)
    requires Run(cfg, steps) && path != []
    ensures var s := After(cfg, steps);
            && |s.master.hosts| == s.master.maxHostId
            && (forall i | 1 <= i < |s.master.hosts| :: s.master.hosts[i].id == i)
            && (Walk(s.master.tree, path).Some? ==>
                  var n := Walk(s.master.tree, path).value;
                  && n.hostId < |s.master.hosts| && s.master.hosts[n.hostId].id == n.hostId
                  && Child(s.master.tree, path[0]).Some?
                  && Child(s.master.tree, path[0]).value.hostId == n.hostId
                  && Routed(cfg, s, Child(s.master.tree, path[0]).value))
  {
    hide Run, After, Inv, Routed, Walk, Child;
    Always(cfg, steps);
    MasterTable(cfg, After(cfg, steps));
    if Walk(After(cfg, steps).master.tree, path).Some? {
      MasterEntry(cfg, After(cfg, steps), path);
    }
  }

  lemma MasterTable(cfg: Config, s: System)
    requires Inv(cfg, s)
    ensures |s.master.hosts| == s.master.maxHostId
    ensures forall i | 1 <= i < |s.master.hosts| :: s.master.hosts[i].id == i
  {
    hide PostedOk, SessionsOk, PeerOk, OwnershipOk, WellFormed, Uniform, RemoveNotOf;
    assert Sound(s.master.history[|s.master.history| - 1]);
  }

  lemma MasterEntry(cfg: Config, s: System, path: seq<Name>)
    requires Inv(cfg, s) && path != [] && Walk(s.master.tree, path).Some?
    ensures var n := Walk(s.master.tree, path).value;
            && n.hostId < |s.master.hosts| && s.master.hosts[n.hostId].id == n.hostId
            && Child(s.master.tree, path[0]).Some?
            && Child(s.master.tree, path[0]).value.hostId == n.hostId
            && Routed(cfg, s, Child(s.master.tree, path[0]).value)
  {
    hide PostedOk, SessionsOk, PeerOk, OwnershipOk, SoundHistory, Routed, Walk, Child, RemoveNotOf, ValidConfig;
    TreeSingleOwners(cfg, s);
    WalkOwner(s.master.tree, path);
    EntryRouted(cfg, s, |s.master.history| - 1, Child(s.master.tree, path[0]).value);
  }

  /** What a slave shows at any time, entry by entry. */
  lemma SlaveEntry(cfg: Config, s: System, c: nat, entry: Node)
    requires Inv(cfg, s) && c < |s.peers| && entry in s.peers[c].slave.tree
    ensures var p := s.peers[c];
            && Uniform(entry, entry.hostId)
            && entry.hostId < |p.slave.hosts| && p.slave.hosts[entry.hostId].id == entry.hostId
            && (p.installed == [] ==> entry in p.start && entry.hostId == 0)
            && (p.installed != [] ==>
                  && 1 <= entry.hostId < |s.master.hosts|
                  && p.slave.hosts[entry.hostId] == s.master.hosts[entry.hostId]
                  && Routed(cfg, s, entry))
  {
    hide PostedOk, SessionsOk, OwnershipOk, WellFormed, RemoveNotOf, StreamOk, MemberOk, KeptOk, Routed;
    hide HasRecognition;
    var m, p := s.master, s.peers[c];
    assert PeerOk(m, c, p);
    BaseOrigin(m, c, p);
    RemoveNotOfMembers(Base(p).tree, p.slave.hostId);
    assert entry in Base(p).tree;
    if p.installed != [] {
      EntryRouted(cfg, s, p.installed[|p.installed| - 1].stamp, entry);
    }
  }

  lemma SlaveSingleOwners(cfg: Config, s: System, c: nat)
    requires Inv(cfg, s) && c < |s.peers|
    ensures SingleOwners(s.peers[c].slave.tree)
  {
    hide Inv, Uniform, Routed;
    forall n | n in s.peers[c].slave.tree
      ensures Uniform(n, n.hostId)
    {
      SlaveEntry(cfg, s, c, n);
    }
  }

  /** On a slave, whether or not it has been recognised and whether or not it has
      lost its link: every lookup stays inside its host table and hits the record
      with that id; once it has heard from the master that is the master's record
      for the host that submitted the file. */
  lemma SafeRoutingAtSlave(cfg: Config, steps: seq<Step>, c: nat, path: seq<Name>)
    requires Run(cfg, steps) && c < |After(cfg, steps).peers| && path != []
    ensures var s := After(cfg, steps);
            var p := s.peers[c];
            Walk(p.slave.tree, path).Some? ==>
              var n := Walk(p.slave.tree, path).value;
              && n.hostId < |p.slave.hosts| && p.slave.hosts[n.hostId].id == n.hostId
              && Child(p.slave.tree, path[0]).Some?
              && Child(p.slave.tree, path[0]).value.hostId == n.hostId
              && (p.installed != [] ==>
                    && n.hostId < |s.master.hosts| && p.slave.hosts[n.hostId] == s.master.hosts[n.hostId]
                    && Routed(cfg, s, Child(p.slave.tree, path[0]).value))
  {
    hide Inv, Routed, Walk, Child, Run, After, Uniform;
    Always(cfg, steps);
    var s := After(cfg, steps);
    if Walk(s.peers[c].slave.tree, path).Some? {
      SlaveSingleOwners(cfg, s, c);
      WalkOwner(s.peers[c].slave.tree, path);
      SlaveEntry(cfg, s, c, Child(s.peers[c].slave.tree, path[0]).value);
    }
  }

  // ---------------------------------------------------------------------------
  // Cached sessions

  /** Every session cached for a host that some node of the tree belongs to goes to
      the address and port the host table gives for it now. */
  lemma SessionCoherence(cfg: Config, steps: seq<Step>, id: nat)
    requires Run(cfg, steps)
    ensures var s := After(cfg, steps);
            && (id in s.sessions ==>
                  && id < |s.master.hosts|
                  && s.sessions[id] == Session(s.master.hosts[id].address, s.master.hosts[id].sshPort))
            && (forall c | 0 <= c < |s.peers| && id in s.peers[c].slave.sessions && Owns(s.peers[c].slave.tree, id) ::
                  && id < |s.peers[c].slave.hosts|
                  && s.peers[c].slave.sessions[id]
                     == Session(s.peers[c].slave.hosts[id].address, s.peers[c].slave.hosts[id].sshPort))
  {
    hide Run, After, Owns, PeerOk, MasterOk, PostedOk, OwnershipOk;
    Always(cfg, steps);
    var s := After(cfg, steps);
    forall c | 0 <= c < |s.peers| && id in s.peers[c].slave.sessions && Owns(s.peers[c].slave.tree, id)
      ensures id < |s.peers[c].slave.hosts|
      ensures s.peers[c].slave.sessions[id] == SessionFor(s.peers[c].slave.hosts[id])
    {
      SlaveSession(cfg, s, c, id);
    }
  }

  lemma SlaveSession(cfg: Config, s: System, c: nat, id: nat)
    requires Inv(cfg, s) && c < |s.peers|
    requires id in s.peers[c].slave.sessions && Owns(s.peers[c].slave.tree, id)
    ensures id < |s.peers[c].slave.hosts|
    ensures s.peers[c].slave.sessions[id] == SessionFor(s.peers[c].slave.hosts[id])
  {
    hide PostedOk, OwnershipOk, WellFormed, RemoveNotOf, StreamOk, MemberOk, KeptOk, Routed, HasRecognition;
    hide MasterOk, Scanned;
    var p := s.peers[c];
    assert PeerOk(s.master, c, p);
    var n :| n in p.slave.tree && (n.hostId == id || Owns(n.children, id));
    SlaveEntry(cfg, s, c, n);
    if n.hostId != id {
      UniformOwns(n, n.hostId, id);
    }
  }

  // ---------------------------------------------------------------------------
  // Losing the master

  /** A recognised slave always shows exactly its own surviving entries under its
      own id, and nothing else after a disconnection; so it is left with all it
      submitted exactly when its join lost nothing. */
  lemma Fallback(cfg: Config, steps: seq<Step>, c: nat)
    requires Run(cfg, steps) && c < |After(cfg, steps).peers|
    requires After(cfg, steps).peers[c].slave.hostId != 0
    ensures var p := After(cfg, steps).peers[c];
            && p.submission.Some? && p.memberId == p.slave.hostId
            && RemoveNotOf(p.slave.tree, p.slave.hostId) == Kept(p)
            && (p.cutOff ==> p.slave.tree == Kept(p))
            && (p.cutOff ==> (p.slave.tree == TagAll(p.submission.value.tree, p.slave.hostId) <==> p.lost == []))
            && (p.cutOff && cfg.check == Intended ==> p.slave.tree == TagAll(p.submission.value.tree, p.slave.hostId))
  {
    hide Run, After, Inv, RemoveNotOf, Kept, TagAll;
    Always(cfg, steps);
    var s := After(cfg, steps);
    FallbackOf(cfg, s, c);
    if cfg.check == Intended {
      IntendedLosesNothing(cfg, steps, c);
    }
  }

  lemma FallbackOf(cfg: Config, s: System, c: nat)
    requires Inv(cfg, s) && c < |s.peers| && s.peers[c].slave.hostId != 0
    ensures var p := s.peers[c];
            && p.submission.Some? && p.memberId == p.slave.hostId
            && RemoveNotOf(p.slave.tree, p.slave.hostId) == Kept(p)
            && (p.cutOff ==> p.slave.tree == Kept(p))
            && (Kept(p) == TagAll(p.submission.value.tree, p.slave.hostId) <==> p.lost == [])
  {
    hide PostedOk, SessionsOk, OwnershipOk, WellFormed, RemoveNotOf, StreamOk, HasRecognition, MasterOk;
    hide Scanned, Without, TagAll, Common;
    var m, p := s.master, s.peers[c];
    assert PeerOk(m, c, p);
    RecognisedOf(cfg, s, c);
    SoundOf(cfg, m);
    BaseOrigin(m, c, p);
    assert RemoveNotOf(Base(p).tree, p.memberId) == Kept(p);
    RemoveNotOfTwice(Base(p).tree, p.memberId);
    LostAreSubmitted(cfg, s, c);
    WithoutIff(p.submission.value.tree, p.memberId, p.lost);
  }

  lemma SoundOf(cfg: Config, m: Master)
    requires MasterOk(cfg, m)
    ensures SoundHistory(m.history)
  {
    hide Sound, RemoveNotOf;
  }

  /** Dropping names that occur changes a tree; dropping none does not. */
  lemma WithoutIff(tree: Forest, id: nat, lost: seq<Name>)
    requires forall x | x in lost :: x in NamesOf(tree)
    ensures Without(TagAll(tree, id), lost) == TagAll(tree, id) <==> lost == []
  {
    var tagged := TagAll(tree, id);
    TagAllMembers(tree, id);
    WithoutMembers(tagged, lost);
    WithoutNothing(tagged);
    if lost != [] {
      assert lost[0] in NamesOf(tagged);
      var n :| n in tagged && n.name == lost[0];
    }
  }

  /** After a disconnection a slave that was never recognised is left with its own
      tree exactly when no broadcast reached it first, or there was nothing to
      lose. */
  lemma UnrecognisedFallback(cfg: Config, steps: seq<Step>, c: nat)
    requires Run(cfg, steps) && c < |After(cfg, steps).peers|
    requires After(cfg, steps).peers[c].slave.hostId == 0 && After(cfg, steps).peers[c].cutOff
    ensures var p := After(cfg, steps).peers[c];
            && (p.slave.tree == p.start <==> p.installed == [] || p.start == [])
            && (p.installed != [] ==> p.slave.tree == [])
  {
    hide Run, After, Inv, RemoveNotOf;
    Always(cfg, steps);
    UnrecognisedOf(cfg, After(cfg, steps), c);
  }

  lemma UnrecognisedOf(cfg: Config, s: System, c: nat)
    requires Inv(cfg, s) && c < |s.peers| && s.peers[c].slave.hostId == 0 && s.peers[c].cutOff
    ensures s.peers[c].installed == [] ==> s.peers[c].slave.tree == s.peers[c].start
    ensures s.peers[c].installed != [] ==> s.peers[c].slave.tree == []
  {
    hide PostedOk, SessionsOk, OwnershipOk, WellFormed, RemoveNotOf, StreamOk, KeptOk, MemberOk;
    hide HasRecognition;
    var m, p := s.master, s.peers[c];
    assert PeerOk(m, c, p);
    assert p.slave.tree == [] || p.slave.tree[0] in p.slave.tree;
    if p.installed == [] {
      ScannedOwner(p.start, 0);
    } else {
      BaseOrigin(m, c, p);
      RemoveNotOfMembers(Base(p).tree, 0);
    }
  }

  /** A read that had completed when the slave's socket failed is handled after the
      disconnection: the slave then shows the whole view, but reads no more, and the
      failure of its next read leaves it with its own entries again. */
  lemma LateRead(cfg: Config, steps: seq<Step>, c: nat)
    requires Run(cfg, steps) && c < |After(cfg, steps).peers|
    requires !After(cfg, steps).peers[c].up && !After(cfg, steps).peers[c].cutOff
    ensures var s := After(cfg, steps);
            var p, p' := s.peers[c], Next(cfg.check, s, LinkLost(c, false)).peers[c];
            && p.installed != []
            && p.slave.tree == p.installed[|p.installed| - 1].view.tree
            && !Enabled(s, Deliver(c))
            && (p.slave.hostId != 0 ==> p.submission.Some?)
            && p'.slave.tree == if p.slave.hostId == 0 then [] else Kept(p)
  {
    hide Run, After, Inv, RemoveNotOf, Kept;
    Always(cfg, steps);
    var s := After(cfg, steps);
    LateReadOf(cfg, s, c);
    if s.peers[c].slave.hostId != 0 {
      FallbackOf(cfg, s, c);
    }
    LinkLostKeeps(cfg, s, c, false);
    var s' := Next(cfg.check, s, LinkLost(c, false));
    if s.peers[c].slave.hostId == 0 {
      UnrecognisedOf(cfg, s', c);
    } else {
      FallbackOf(cfg, s', c);
      KeptSame(s.peers[c], s'.peers[c]);
    }
  }

  lemma LateReadOf(cfg: Config, s: System, c: nat)
    requires Inv(cfg, s) && c < |s.peers| && !s.peers[c].up && !s.peers[c].cutOff
    ensures var p := s.peers[c];
            p.installed != [] && !p.late && p.slave.tree == p.installed[|p.installed| - 1].view.tree
  {
    hide PostedOk, SessionsOk, OwnershipOk, RemoveNotOf, StreamOk, KeptOk, MemberOk, HasRecognition;
    hide MasterOk, Scanned;
    assert PeerOk(s.master, c, s.peers[c]);
  }

  lemma KeptSame(p: Peer, p': Peer)
    requires p.submission.Some? && p'.submission == p.submission && p'.memberId == p.memberId && p'.lost == p.lost
    ensures Kept(p') == Kept(p)
  {
    hide Without, TagAll;
  }

  /** What a slave submits is its own scan and its own record exactly when it sends
      before any broadcast is installed. */
  lemma SubmitsOwn(cfg: Config, steps: seq<Step>, c: nat)
    requires Run(cfg, steps) && Enabled(After(cfg, steps), Submit(c))
    ensures var p, p' := After(cfg, steps).peers[c], Next(cfg.check, After(cfg, steps), Submit(c)).peers[c];
            p'.submission == Some(Submission(p.start, p.host)) <==> p.installed == []
  {
    hide Run, After, Inv;
    Always(cfg, steps);
    SubmittedRecord(cfg, After(cfg, steps), c);
  }

  lemma SubmittedRecord(cfg: Config, s: System, c: nat)
    requires Inv(cfg, s) && c < |s.peers| && s.peers[c].up
    ensures var p := s.peers[c];
            && (p.installed == [] ==> p.slave.tree == p.start && p.slave.hosts == [p.host])
            && (p.installed != [] ==> p.slave.hosts != [] && p.slave.hosts[0] != p.host)
  {
    hide PostedOk, SessionsOk, OwnershipOk, WellFormed, RemoveNotOf, StreamOk, KeptOk, MemberOk;
    hide HasRecognition, Uniform;
    var m, p := s.master, s.peers[c];
    assert PeerOk(m, c, p);
    if p.installed != [] {
      BaseOrigin(m, c, p);
      var h, last := p.installed[|p.installed| - 1].stamp, |m.history| - 1;
      assert m.history[h].hosts <= m.history[last].hosts;
      assert Base(p).hosts[0] == m.hosts[0];
    }
  }
}
