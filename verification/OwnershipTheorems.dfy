/** Who contributes what to the tree, in every run. */
module OwnershipTheorems {
  import opened Names
  import opened Trees
  import opened TreeLaws
  import opened DirTreeClass
  import opened Nodes
  import opened GroupSystem
  import opened Invariant
  import opened Membership

  // ---------------------------------------------------------------------------
  // Exact union

  /** The entry is one that the member behind connection `c` contributes now. */
  ghost predicate Contributes(s: System, c: nat, n: Node) {
    && c < |s.peers| && c < |s.master.connections|
    && s.master.connections[c].slaveId != 0
    && s.peers[c].submission.Some?
    && n in Kept(s.peers[c])
  }

  lemma MemberEntry(cfg: Config, s: System, c: nat, n: Node)
    requires Inv(cfg, s) && c < |s.peers| && s.master.connections[c].slaveId != 0
    ensures s.peers[c].submission.Some?
    ensures n in Kept(s.peers[c]) <==> n in s.master.tree && n.hostId == s.master.connections[c].slaveId
  {
    hide PostedOk, OwnershipOk, SessionsOk, ValidConfig, SoundHistory, RemoveNotOf, PeerOk, Kept;
    var m, p := s.master, s.peers[c];
    assert PeerOk(m, c, p);
    LiveMember(m, c, p);
    KeptNow(m, c, p);
    RemoveNotOfMembers(m.tree, p.memberId);
  }

  lemma OwnEntry(cfg: Config, s: System, n: Node)
    requires Inv(cfg, s)
    ensures n in cfg.start <==> n in s.master.tree && n.hostId == 1
  {
    hide PostedOk, OwnershipOk, SessionsOk, ValidConfig, SoundHistory, RemoveNotOf, PeerOk;
    var m := s.master;
    assert RemoveNotOf(m.history[|m.history| - 1].tree, 1) == cfg.start;
    RemoveNotOfMembers(m.tree, 1);
  }

  lemma OwnerLive(cfg: Config, s: System, n: Node)
    requires Inv(cfg, s) && n in s.master.tree
    ensures 1 <= n.hostId < |s.master.hosts|
    ensures n.hostId != 1 ==> exists c | 0 <= c < |s.peers| :: s.master.connections[c].slaveId == n.hostId
    ensures Sorted(s.master.tree) && SingleOwners(s.master.tree)
  {
    hide PostedOk, SessionsOk, ValidConfig, RemoveNotOf, PeerOk, Uniform, Sorted, Attributed;
    var m := s.master;
    assert Sound(m.history[|m.history| - 1]);
    assert LiveOwner(m.connections, n.hostId);
  }

  /** The master's tree is exactly its own start tree and what the present members
      contribute. */
  lemma ExactMembers(cfg: Config, steps: seq<Step>, n: Node)
    requires Run(cfg, steps)
    ensures n in After(cfg, steps).master.tree <==>
            n in cfg.start || exists c :: Contributes(After(cfg, steps), c, n)
  {
    Always(cfg, steps);
    var s := After(cfg, steps);
    hide Inv, Run, After, Kept;
    ExactOf(cfg, s, n);
  }

  lemma ExactOf(cfg: Config, s: System, n: Node)
    requires Inv(cfg, s)
    ensures n in s.master.tree <==> n in cfg.start || exists c :: Contributes(s, c, n)
  {
    hide PostedOk, OwnershipOk, SessionsOk, ValidConfig, MasterOk, PeerOk, Kept;
    OwnEntry(cfg, s, n);
    if n in s.master.tree && n.hostId != 1 {
      OwnerLive(cfg, s, n);
      var c :| 0 <= c < |s.peers| && s.master.connections[c].slaveId == n.hostId;
      MemberEntry(cfg, s, c, n);
      assert Contributes(s, c, n);
    }
    if exists c :: Contributes(s, c, n) {
      var c :| Contributes(s, c, n);
      MemberEntry(cfg, s, c, n);
    }
  }

  /** The contributions share no name with each other nor with the master's own. */
  lemma Disjoint(cfg: Config, steps: seq<Step>, a: Node, c: nat, b: Node, d: nat)
    requires Run(cfg, steps) && c != d
    requires Contributes(After(cfg, steps), c, a)
    requires b in cfg.start || Contributes(After(cfg, steps), d, b)
    ensures a.name != b.name
  {
    Always(cfg, steps);
    var s := After(cfg, steps);
    hide Inv, Run, After, Kept;
    DisjointOf(cfg, s, a, c, b, d);
  }

  lemma DisjointOf(cfg: Config, s: System, a: Node, c: nat, b: Node, d: nat)
    requires Inv(cfg, s) && c != d
    requires Contributes(s, c, a)
    requires b in cfg.start || Contributes(s, d, b)
    ensures a.name != b.name
  {
    hide PostedOk, SessionsOk, ValidConfig, MasterOk, Kept, Sorted, Attributed, LiveOwner, StreamOk, KeptOk;
    hide SlaveOk, Common, WellFormed;
    MemberEntry(cfg, s, c, a);
    OwnEntry(cfg, s, b);
    OwnerLive(cfg, s, a);
    assert PeerOk(s.master, c, s.peers[c]);
    LiveMember(s.master, c, s.peers[c]);
    if Contributes(s, d, b) {
      MemberEntry(cfg, s, d, b);
      assert PeerOk(s.master, d, s.peers[d]);
      LiveMember(s.master, d, s.peers[d]);
    }
    assert a.hostId != b.hostId;
    if a.name == b.name {
      NameDeterminesOwner(s.master.tree, a, b);
    }
  }

  /** Merging the contributions of connections `0..k` into the start tree. */
  function Rebuilt(cfg: Config, s: System, k: nat): Forest
    requires k <= |s.peers| && k <= |s.master.connections|
  {
    if k == 0 then cfg.start
    else
      var rest := Rebuilt(cfg, s, k - 1);
      if s.master.connections[k - 1].slaveId == 0 || s.peers[k - 1].submission.None? then rest
      else Merge(rest, Kept(s.peers[k - 1]))
  }

  /** The tree the master keeps up to date, join by join and leave by leave, is the
      one it would get by starting over with the members it has. */
  lemma IncrementalIsRebuilt(cfg: Config, steps: seq<Step>)
    requires Run(cfg, steps)
    ensures |After(cfg, steps).peers| <= |After(cfg, steps).master.connections|
    ensures After(cfg, steps).master.tree == Rebuilt(cfg, After(cfg, steps), |After(cfg, steps).peers|)
  {
    Always(cfg, steps);
    var s := After(cfg, steps);
    hide Run, After, Kept, PostedOk, SessionsOk, PeerOk, Uniform, Less, RemoveNotOf, OwnershipOk;
    hide WellFormed, Merge, Sorted;
    var k := |s.peers|;
    RebuiltMembers(cfg, s, k);
    assert Sound(s.master.history[|s.master.history| - 1]);
    SortedOf(s.master.tree);
    forall n
      ensures n in s.master.tree <==> n in Rebuilt(cfg, s, k)
    {
      ExactOf(cfg, s, n);
    }
    SameMembers(s.master.tree, Rebuilt(cfg, s, k));
  }

  ghost predicate ContributedBefore(s: System, k: nat, n: Node) {
    exists c | 0 <= c < k :: Contributes(s, c, n)
  }

  lemma {:induction false} RebuiltMembers(cfg: Config, s: System, k: nat)
    requires Inv(cfg, s) && k <= |s.peers|
    ensures Sorted(Rebuilt(cfg, s, k))
    ensures forall n :: n in Rebuilt(cfg, s, k) <==> n in cfg.start || ContributedBefore(s, k, n)
  {
    hide PostedOk, SessionsOk, PeerOk, MasterOk, OwnershipOk, Kept, Merge, Sorted, WellFormed, Uniform;
    hide NamesOf;
    if k == 0 {
      SortedOf(cfg.start);
    } else {
      RebuiltMembers(cfg, s, k - 1);
      var rest, c := Rebuilt(cfg, s, k - 1), k - 1;
      if s.master.connections[c].slaveId != 0 && s.peers[c].submission.Some? {
        KeptSorted(cfg, s, c);
        MergeMembers(rest, Kept(s.peers[c]));
        forall n | n in Kept(s.peers[c])
          ensures n.name !in NamesOf(rest)
        {
          NameFree(cfg, s, k - 1, c, n);
        }
      }
      forall n
        ensures n in Rebuilt(cfg, s, k) <==> n in cfg.start || ContributedBefore(s, k, n)
      {
        assert ContributedBefore(s, k, n) <==> ContributedBefore(s, k - 1, n) || Contributes(s, c, n);
      }
    }
  }

  lemma NameFree(cfg: Config, s: System, k: nat, c: nat, n: Node)
    requires Inv(cfg, s) && k <= c < |s.peers| && Contributes(s, c, n)
    requires forall b :: b in Rebuilt(cfg, s, k) <==> b in cfg.start || ContributedBefore(s, k, b)
    ensures n.name !in NamesOf(Rebuilt(cfg, s, k))
  {
    hide Inv, Kept, Rebuilt;
    forall b | b in Rebuilt(cfg, s, k)
      ensures b.name != n.name
    {
      if b in cfg.start {
        DisjointOf(cfg, s, n, c, b, c + 1);
      } else {
        var d :| 0 <= d < k && Contributes(s, d, b);
        DisjointOf(cfg, s, n, c, b, d);
      }
    }
  }

  lemma KeptSorted(cfg: Config, s: System, c: nat)
    requires Inv(cfg, s) && c < |s.peers| && s.peers[c].submission.Some?
    ensures Sorted(Kept(s.peers[c]))
  {
    hide PostedOk, SessionsOk, OwnershipOk, MasterOk, StreamOk, KeptOk, SlaveOk, Sorted, WellFormed, Common;
    var p := s.peers[c];
    assert PeerOk(s.master, c, p);
    SortedOf(p.submission.value.tree);
    TagAllMembers(p.submission.value.tree, p.memberId);
    WithoutMembers(TagAll(p.submission.value.tree, p.memberId), p.lost);
  }

  // ---------------------------------------------------------------------------
  // What a join loses

  /** With the intended check no join ever loses an entry. */
  lemma {:induction false} IntendedLosesNothing(cfg: Config, steps: seq<Step>, c: nat)
    requires Run(cfg, steps) && cfg.check == Intended && c < |After(cfg, steps).peers|
    ensures After(cfg, steps).peers[c].lost == []
  {
    hide RemoveOf, Merge, TagAll, RemoveNotOf, Common, Accept, Close, Leave, Admit, RunPosted;
    hide NewConnection, Receive, Disconnected;
    if steps == [] {
    } else {
      var k := |steps| - 1;
      var before, step := After(cfg, steps[..k]), steps[k];
      if c < |before.peers| {
        IntendedLosesNothing(cfg, steps[..k], c);
        if step.ReadJoin? && step.peer == c {
          var tree := before.peers[c].submission.value.tree;
          assert tree[..|tree|] == tree;
        }
      }
    }
  }

  /** Everything the member submitted shows in the master's tree, under its id. */
  ghost predicate FullyVisible(s: System, c: nat)
    requires c < |s.peers| && c < |s.master.connections| && s.peers[c].submission.Some?
  {
    forall n | n in TagAll(s.peers[c].submission.value.tree, s.master.connections[c].slaveId) :: n in s.master.tree
  }

  /** A member is fully visible exactly when none of its names was taken when it
      joined; `lost` holds those names, and the condition is the one the intended
      check looks for. */
  lemma VisibleIffNoClash(cfg: Config, steps: seq<Step>, c: nat)
    requires Run(cfg, steps)
    requires c < |After(cfg, steps).peers| && c < |After(cfg, steps).master.connections|
    requires After(cfg, steps).master.connections[c].slaveId != 0
    ensures After(cfg, steps).peers[c].submission.Some?
    ensures var s := After(cfg, steps);
            var p := s.peers[c];
            && 1 <= p.joinStamp < |s.master.history|
            && p.lost == Common(p.submission.value.tree, s.master.history[p.joinStamp - 1].tree)
            && (FullyVisible(s, c) <==> p.lost == [])
  {
    hide Inv, Run, After, Kept, TagAll, Common, FullyVisible;
    Always(cfg, steps);
    VisibleOf(cfg, After(cfg, steps), c);
  }

  lemma LostAreSubmitted(cfg: Config, s: System, c: nat)
    requires Inv(cfg, s) && c < |s.peers| && s.peers[c].memberId != 0
    ensures var p := s.peers[c];
            && p.submission.Some?
            && 1 <= p.joinStamp < |s.master.history|
            && p.lost == Common(p.submission.value.tree, s.master.history[p.joinStamp - 1].tree)
            && (forall x | x in p.lost :: x in NamesOf(p.submission.value.tree))
  {
    hide PostedOk, SessionsOk, OwnershipOk, MasterOk, StreamOk, KeptOk, SlaveOk, WellFormed, Common;
    var p := s.peers[c];
    assert PeerOk(s.master, c, p);
    CommonMembers(p.submission.value.tree, s.master.history[p.joinStamp - 1].tree);
  }

  lemma VisibleOf(cfg: Config, s: System, c: nat)
    requires Inv(cfg, s) && c < |s.peers| && s.master.connections[c].slaveId != 0
    ensures var p := s.peers[c];
            && p.submission.Some?
            && 1 <= p.joinStamp < |s.master.history|
            && p.lost == Common(p.submission.value.tree, s.master.history[p.joinStamp - 1].tree)
            && (FullyVisible(s, c) <==> p.lost == [])
  {
    hide PostedOk, SessionsOk, OwnershipOk, MasterOk, PeerOk, Common;
    var p, id := s.peers[c], s.master.connections[c].slaveId;
    assert PeerOk(s.master, c, p);
    LiveMember(s.master, c, p);
    LostAreSubmitted(cfg, s, c);
    var tagged := TagAll(p.submission.value.tree, id);
    TagAllMembers(p.submission.value.tree, id);
    WithoutMembers(tagged, p.lost);
    forall n | n in tagged
      ensures n in s.master.tree <==> n.name !in p.lost
    {
      MemberEntry(cfg, s, c, n);
    }
    if p.lost != [] {
      assert p.lost[0] in NamesOf(tagged);
      var n :| n in tagged && n.name == p.lost[0];
    }
  }

  /** The entry is one that the member behind connection `c` submitted, under its id. */
  ghost predicate SubmittedBy(s: System, c: nat, n: Node) {
    && c < |s.peers| && c < |s.master.connections|
    && s.master.connections[c].slaveId != 0
    && s.peers[c].submission.Some?
    && n in TagAll(s.peers[c].submission.value.tree, s.master.connections[c].slaveId)
  }

  /** With the intended check the master's tree is, in every reachable state, the
      union of its start tree and the re-tagged trees of exactly the connections with
      a slave id; by `Disjoint` a disjoint one. */
  lemma ExactUnion(cfg: Config, steps: seq<Step>, n: Node)
    requires Run(cfg, steps) && cfg.check == Intended
    ensures n in After(cfg, steps).master.tree <==>
            n in cfg.start || exists c :: SubmittedBy(After(cfg, steps), c, n)
  {
    hide Inv, Run, After, TagAll, Without;
    Always(cfg, steps);
    ExactMembers(cfg, steps, n);
    var s := After(cfg, steps);
    forall c: nat
      ensures Contributes(s, c, n) <==> SubmittedBy(s, c, n)
    {
      if c < |s.peers| && c < |s.master.connections| && s.master.connections[c].slaveId != 0 {
        IntendedLosesNothing(cfg, steps, c);
        MemberIdNow(cfg, s, c);
        WithoutNothing(TagAll(s.peers[c].submission.value.tree, s.peers[c].memberId));
      }
    }
  }

  lemma MemberIdNow(cfg: Config, s: System, c: nat)
    requires Inv(cfg, s) && c < |s.peers| && s.master.connections[c].slaveId != 0
    ensures s.peers[c].memberId == s.master.connections[c].slaveId && s.peers[c].submission.Some?
  {
    hide PostedOk, OwnershipOk, SessionsOk, MasterOk, StreamOk, KeptOk, SlaveOk, WellFormed, Common;
    assert PeerOk(s.master, c, s.peers[c]);
  }

  // ---------------------------------------------------------------------------
  // Deep ownership

  /** At any depth a node belongs to the master or to a present member. */
  lemma DeepOwnership(cfg: Config, steps: seq<Step>, id: nat)
    requires Run(cfg, steps) && Owns(After(cfg, steps).master.tree, id)
    ensures id == 1 || exists c | 0 <= c < |After(cfg, steps).master.connections| ::
              After(cfg, steps).master.connections[c].slaveId == id
    ensures 1 <= id < |After(cfg, steps).master.hosts|
  {
    Always(cfg, steps);
    var s := After(cfg, steps);
    hide PostedOk, SessionsOk, PeerOk, MasterOk, Attributed, WellFormed;
    var n :| n in s.master.tree && (n.hostId == id || Owns(n.children, id));
    OwnerLive(cfg, s, n);
    if n.hostId != id {
      UniformOwns(n, n.hostId, id);
    }
  }

  /** A host that has left is nowhere in the master's tree and no lookup finds it. */
  lemma DepartedIsGone(cfg: Config, steps: seq<Step>, c: nat, path: seq<Name>)
    requires Run(cfg, steps) && c < |After(cfg, steps).peers| && path != []
    requires After(cfg, steps).peers[c].departures != []
    ensures var s := After(cfg, steps);
            && !Owns(s.master.tree, s.peers[c].memberId)
            && (Walk(s.master.tree, path).Some? ==> Walk(s.master.tree, path).value.hostId != s.peers[c].memberId)
  {
    Always(cfg, steps);
    var s := After(cfg, steps);
    var id := s.peers[c].memberId;
    hide PostedOk, SessionsOk, MasterOk, Attributed, LiveOwner, WellFormed, StreamOk, KeptOk, SlaveOk;
    hide Common, Run, After, Walk;
    assert PeerOk(s.master, c, s.peers[c]);
    if Owns(s.master.tree, id) {
      DeepOwnership(cfg, steps, id);
      var d :| 0 <= d < |s.master.connections| && s.master.connections[d].slaveId == id;
      assert PeerOk(s.master, d, s.peers[d]);
      LiveMember(s.master, d, s.peers[d]);
      assert false;
    }
    if Walk(s.master.tree, path).Some? {
      TreeSingleOwners(cfg, s);
      WalkOwner(s.master.tree, path);
    }
  }

  lemma TreeSingleOwners(cfg: Config, s: System)
    requires Inv(cfg, s)
    ensures SingleOwners(s.master.tree)
  {
    hide PostedOk, SessionsOk, PeerOk, OwnershipOk, WellFormed, Uniform;
    assert Sound(s.master.history[|s.master.history| - 1]);
  }
}
