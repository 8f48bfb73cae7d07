/** Counting joins, leaves and broadcasts over a run, and what never changes. */
module Accounting {
  import opened Trees
  import opened DirTreeClass
  import opened Nodes
  import opened GroupSystem
  import opened Invariant
  import opened Membership
  import opened Theorems
  import opened RoutingTheorems

  // ---------------------------------------------------------------------------
  // Broadcasts

  function Broadcasts(posted: seq<Posted>): nat {
    if posted == [] then 0
    else Broadcasts(posted[..|posted| - 1]) + (if posted[|posted| - 1].ToAll? then 1 else 0)
  }

  lemma BroadcastsOne(posted: seq<Posted>, posted': seq<Posted>)
    requires posted <= posted' && |posted| < |posted'| <= |posted| + 2
    requires posted'[|posted'| - 1].ToAll?
    requires |posted'| == |posted| + 2 ==> posted'[|posted|].ToOne?
    ensures Broadcasts(posted') == Broadcasts(posted) + 1
  {
    var k := |posted'| - 1;
    if k == |posted| {
      assert posted'[..k] == posted;
    } else {
      assert posted'[..k][..k - 1] == posted;
    }
  }

  // ---------------------------------------------------------------------------
  // Conservation

  function Members(peers: seq<Peer>): nat {
    if peers == [] then 0
    else Members(peers[..|peers| - 1]) + (if peers[|peers| - 1].memberId != 0 then 1 else 0)
  }

  function Departures(peers: seq<Peer>): nat {
    if peers == [] then 0
    else Departures(peers[..|peers| - 1]) + |peers[|peers| - 1].departures|
  }

  lemma {:induction false} CountUpdate(peers: seq<Peer>, c: nat, p: Peer)
    requires c < |peers|
    ensures Members(peers[c := p]) + (if peers[c].memberId != 0 then 1 else 0)
            == Members(peers) + (if p.memberId != 0 then 1 else 0)
    ensures Departures(peers[c := p]) + |peers[c].departures| == Departures(peers) + |p.departures|
  {
    var k, updated := |peers| - 1, peers[c := p];
    if c == k {
      assert updated[..k] == peers[..k];
    } else {
      CountUpdate(peers[..k], c, p);
      assert updated[..k] == peers[..k][c := p];
    }
  }

  lemma CountNew(peers: seq<Peer>, p: Peer)
    requires p.memberId == 0 && p.departures == []
    ensures Members(peers + [p]) == Members(peers) && Departures(peers + [p]) == Departures(peers)
  {
    assert (peers + [p])[..|peers|] == peers;
  }

  /** Every view in the master's history is accounted for by one join or one
      leave, and every id it has given out by one join. */
  lemma {:induction false} Conservation(cfg: Config, steps: seq<Step>)
    requires Run(cfg, steps)
    ensures var s := After(cfg, steps);
            && |s.master.history| == 1 + Members(s.peers) + Departures(s.peers)
            && s.master.maxHostId == 2 + Members(s.peers)
  {
    if steps == [] {
    } else {
      var k := |steps| - 1;
      Conservation(cfg, steps[..k]);
      Always(cfg, steps[..k]);
      CountStep(cfg, After(cfg, steps[..k]), steps[k]);
    }
  }

  lemma CountStep(cfg: Config, s: System, step: Step)
    requires Inv(cfg, s) && Enabled(s, step)
    ensures var s' := Next(cfg.check, s, step);
            && |s'.master.history| - Members(s'.peers) - Departures(s'.peers)
               == |s.master.history| - Members(s.peers) - Departures(s.peers)
            && s'.master.maxHostId - Members(s'.peers) == s.master.maxHostId - Members(s.peers)
  {
    hide Inv, Conflicts, Receive, Disconnected, ReadSessions, Broadcast, Members, Departures, InitialSlave, Scanned;
    hide Admit, Close, Common;
    var s' := Next(cfg.check, s, step);
    match step {
      case Connect(start, host) => CountNew(s.peers, NewPeer(start, host));
      case Submit(c) => CountUpdate(s.peers, c, s'.peers[c]);
      case ReadJoin(c, address) =>
        CountUpdate(s.peers, c, s'.peers[c]);
        NotYetMember(cfg, s, c);
        JoinCounts(s.master, c, s.peers[c].submission.value.tree, s.peers[c].submission.value.host, address);
      case RunHandler =>
      case Transmit(c) => CountUpdate(s.peers, c, s'.peers[c]);
      case ConnectionError(c) =>
        CountUpdate(s.peers, c, s'.peers[c]);
        JoinCounts(s.master, c, [], cfg.host, "");
      case Deliver(c) => CountUpdate(s.peers, c, s'.peers[c]);
      case LinkLost(c, pending) => CountUpdate(s.peers, c, s'.peers[c]);
      case ReadAtMaster(path) =>
      case ReadAtSlave(c, path) => CountUpdate(s.peers, c, s'.peers[c]);
    }
  }

  lemma NotYetMember(cfg: Config, s: System, c: nat)
    requires Inv(cfg, s) && c < |s.peers| && !s.peers[c].consumed
    ensures s.peers[c].memberId == 0 && s.master.connections[c].slaveId == 0 && s.master.maxHostId != 0
  {
    hide PostedOk, OwnershipOk, SessionsOk, SoundHistory, StreamOk, KeptOk, SlaveOk, WellFormed, Common, RemoveNotOf;
    assert PeerOk(s.master, c, s.peers[c]);
  }

  lemma JoinCounts(m: Master, c: nat, tree: Forest, host: Host, address: string)
    requires c < |m.connections|
    ensures var m' := Admit(m, c, tree, host, address);
            |m'.history| == |m.history| + 1 && m'.maxHostId == m.maxHostId + 1
    ensures var m' := Close(m, c);
            && m'.maxHostId == m.maxHostId && |m.history| <= |m'.history| <= |m.history| + 1
            && (m.connections[c].slaveId == 0 ==> m'.history == m.history)
  {
    hide Merge, TagAll, RemoveOf;
  }

  /** Joins and leaves so far. */
  function Changes(s: System): nat {
    Members(s.peers) + Departures(s.peers)
  }

  /** The step posts one broadcast, of the view the master then has. */
  predicate Announces(m: Master, m': Master) {
    && m.posted <= m'.posted && |m.posted| < |m'.posted|
    && m'.posted[|m'.posted| - 1] == ToAll(Update(View(m'.tree, m'.hosts), |m.history|))
    && Broadcasts(m'.posted) == Broadcasts(m.posted) + 1
  }

  /** A join or a leave happens in a step if and only if the step posts exactly one
      broadcast, of the new view.  In any other step the tree, the hosts and the
      history stay and nothing is posted; so no view changes unannounced. */
  lemma EachChangeIsBroadcast(cfg: Config, s: System, step: Step)
    requires Inv(cfg, s) && Enabled(s, step)
    ensures var s' := Next(cfg.check, s, step);
            var m, m' := s.master, s'.master;
            && (Changes(s') != Changes(s) <==> Announces(m, m'))
            && (Changes(s') != Changes(s) ==> Changes(s') == Changes(s) + 1)
            && (Changes(s') == Changes(s) ==>
                  && m'.tree == m.tree && m'.hosts == m.hosts && m'.history == m.history
                  && (m'.posted == m.posted || (step == RunHandler && m'.posted == m.posted[1..])))
  {
    CountStep(cfg, s, step);
    PostedStep(cfg, s, step);
  }

  lemma PostedStep(cfg: Config, s: System, step: Step)
    requires Enabled(s, step)
    ensures var m, m' := s.master, Next(cfg.check, s, step).master;
            && (|m'.history| == |m.history| ==>
                  && m'.tree == m.tree && m'.hosts == m.hosts && m'.history == m.history
                  && (m'.posted == m.posted || (step == RunHandler && m'.posted == m.posted[1..])))
            && (|m'.history| != |m.history| ==> |m'.history| == |m.history| + 1 && Announces(m, m'))
  {
    hide RemoveOf, Merge, TagAll, Conflicts, Broadcasts, Broadcast;
    var m, m' := s.master, Next(cfg.check, s, step).master;
    if m'.history != m.history {
      BroadcastsOne(m.posted, m'.posted);
    }
  }

  /** The broadcasts posted over a whole run. */
  ghost function Announced(cfg: Config, steps: seq<Step>): int
    requires Run(cfg, steps)
    decreases |steps|
  {
    if steps == [] then 0
    else
      var k := |steps| - 1;
      var m, m' := After(cfg, steps[..k]).master, After(cfg, steps).master;
      Announced(cfg, steps[..k]) +
      if steps[k] == RunHandler then 0 else Broadcasts(m'.posted) - Broadcasts(m.posted)
  }

  /** Over a run as many broadcasts are posted as there were joins and leaves. */
  lemma {:induction false} AnnouncedIsChanges(cfg: Config, steps: seq<Step>)
    requires Run(cfg, steps)
    ensures Announced(cfg, steps) == Changes(After(cfg, steps))
  {
    hide Inv, Next, Enabled, Broadcasts, Changes;
    if steps == [] {
      NoChanges(cfg);
    } else {
      var k := |steps| - 1;
      AnnouncedIsChanges(cfg, steps[..k]);
      Always(cfg, steps[..k]);
      EachChangeIsBroadcast(cfg, After(cfg, steps[..k]), steps[k]);
      if steps[k] == RunHandler {
        HandlersAnnounceNothing(cfg, After(cfg, steps[..k]), steps[k]);
      }
    }
  }

  lemma NoChanges(cfg: Config)
    ensures Changes(Initial(cfg)) == 0
  {
  }

  lemma HandlersAnnounceNothing(cfg: Config, s: System, step: Step)
    requires Enabled(s, step) && step == RunHandler
    ensures Changes(Next(cfg.check, s, step)) == Changes(s)
  {
  }

  /** However often its reads, writes and closes fail, a connection departs at most
      once, only after joining, and then it is closed for good. */
  lemma OneDeparture(cfg: Config, steps: seq<Step>, c: nat)
    requires Run(cfg, steps) && c < |After(cfg, steps).peers|
    ensures var s := After(cfg, steps);
            && c < |s.master.connections|
            && |s.peers[c].departures| <= 1
            && (s.peers[c].departures != [] ==>
                  s.peers[c].memberId != 0 && !s.master.connections[c].open && s.master.connections[c].slaveId == 0)
  {
    Always(cfg, steps);
    var s := After(cfg, steps);
    hide PostedOk, OwnershipOk, SessionsOk, MasterOk, StreamOk, KeptOk, SlaveOk, WellFormed, Common;
    assert PeerOk(s.master, c, s.peers[c]);
  }

  /** A rejected join closes its connection, if that is still open, and empties its
      queue; it changes nothing else: no id, no host, no entry, no broadcast, no other
      connection. */
  lemma RejectedJoin(cfg: Config, steps: seq<Step>, c: nat, address: string)
    requires Run(cfg, steps) && Enabled(After(cfg, steps), ReadJoin(c, address))
    requires var s := After(cfg, steps); Conflicts(cfg.check, s.peers[c].submission.value.tree, s.master.tree) != []
    ensures var m, m' := After(cfg, steps).master, Next(cfg.check, After(cfg, steps), ReadJoin(c, address)).master;
            && m' == m.(connections := m'.connections)
            && m'.connections == m.connections[c := m'.connections[c]]
            && !m'.connections[c].open && m'.connections[c].slaveId == 0
            && m'.connections[c].queue == if m.connections[c].open then [] else m.connections[c].queue
  {
    Always(cfg, steps);
    var s := After(cfg, steps);
    hide PostedOk, OwnershipOk, SessionsOk, MasterOk, StreamOk, KeptOk, SlaveOk, WellFormed, Common;
    hide Conflicts, Run, After;
    assert PeerOk(s.master, c, s.peers[c]);
  }

  // ---------------------------------------------------------------------------
  // Ids

  /** Different members have different ids; an id, once given, stays with its
      connection, and so does the record behind it. */
  lemma IdsNeverReused(cfg: Config, steps: seq<Step>, t: nat, c: nat, d: nat)
    requires Run(cfg, steps) && t <= |steps|
    requires c < |StateAt(cfg, steps, t).peers| && StateAt(cfg, steps, t).peers[c].memberId != 0
    ensures var s, s' := StateAt(cfg, steps, t), After(cfg, steps);
            && c < |s'.peers| && s'.peers[c].memberId == s.peers[c].memberId
            && s.master.hosts <= s'.master.hosts
            && s.peers[c].memberId < |s.master.hosts|
            && (d < |s'.peers| && d != c ==> s'.peers[d].memberId != s.peers[c].memberId)
  {
    IdStays(cfg, steps, t, c);
    Always(cfg, steps);
    RunPrefix(cfg, steps, t);
    Always(cfg, steps[..t]);
    hide PostedOk, SessionsOk, MasterOk, StreamOk, KeptOk, SlaveOk, WellFormed, Common, Attributed;
    hide LiveOwner, Run, After;
    var s := StateAt(cfg, steps, t);
    assert PeerOk(s.master, c, s.peers[c]);
  }

  lemma {:induction false} IdStays(cfg: Config, steps: seq<Step>, t: nat, c: nat)
    requires Run(cfg, steps) && t <= |steps|
    requires c < |StateAt(cfg, steps, t).peers| && StateAt(cfg, steps, t).peers[c].memberId != 0
    ensures var s, s' := StateAt(cfg, steps, t), After(cfg, steps);
            && c < |s'.peers| && s'.peers[c].memberId == s.peers[c].memberId
            && s.master.hosts <= s'.master.hosts
    decreases |steps|
  {
    hide Next, Enabled, Inv;
    if t == |steps| {
      assert steps[..t] == steps;
    } else {
      var k := |steps| - 1;
      assert steps[..k][..t] == steps[..t];
      RunPrefix(cfg, steps, t);
      IdStays(cfg, steps[..k], t, c);
      Always(cfg, steps[..k]);
      IdKept(cfg, After(cfg, steps[..k]), steps[k], c);
    }
  }

  lemma IdKept(cfg: Config, s: System, step: Step, c: nat)
    requires Inv(cfg, s) && Enabled(s, step) && c < |s.peers| && s.peers[c].memberId != 0
    ensures var s' := Next(cfg.check, s, step);
            c < |s'.peers| && s'.peers[c].memberId == s.peers[c].memberId && s.master.hosts <= s'.master.hosts
  {
    hide PostedOk, OwnershipOk, SessionsOk, MasterOk, StreamOk, KeptOk, SlaveOk, RemoveOf, Merge, TagAll;
    hide RemoveNotOf, Conflicts, Common, WellFormed, ValidConfig, Scanned;
    assert PeerOk(s.master, c, s.peers[c]);
  }

  // ---------------------------------------------------------------------------
  // A slave's own files

  lemma {:induction false} SubmissionStays(cfg: Config, steps: seq<Step>, t: nat, c: nat)
    requires Run(cfg, steps) && t <= |steps|
    requires c < |StateAt(cfg, steps, t).peers| && StateAt(cfg, steps, t).peers[c].submission.Some?
    ensures var s, s' := StateAt(cfg, steps, t), After(cfg, steps);
            && c < |s'.peers| && s'.peers[c].submission == s.peers[c].submission
            && s'.peers[c].start == s.peers[c].start
    decreases |steps|
  {
    hide Next, Enabled;
    if t == |steps| {
      assert steps[..t] == steps;
    } else {
      var k := |steps| - 1;
      assert steps[..k][..t] == steps[..t];
      RunPrefix(cfg, steps, t);
      SubmissionStays(cfg, steps[..k], t, c);
      SubmissionKept(cfg, After(cfg, steps[..k]), steps[k], c);
    }
  }

  lemma SubmissionKept(cfg: Config, s: System, step: Step, c: nat)
    requires Enabled(s, step) && c < |s.peers| && s.peers[c].submission.Some?
    ensures var s' := Next(cfg.check, s, step);
            c < |s'.peers| && s'.peers[c].submission == s.peers[c].submission && s'.peers[c].start == s.peers[c].start
  {
    hide RemoveOf, Merge, TagAll, RemoveNotOf, Conflicts, Common, Scanned, NewConnection, Close, RunPosted;
  }

  /** With the intended check, a slave that submitted before any broadcast reached
      it, was recognised and last heard a disconnection shows exactly its own files. */
  lemma OwnFilesBack(cfg: Config, steps: seq<Step>, t: nat, c: nat)
    requires Run(cfg, steps) && t < |steps| && steps[t] == Submit(c) && cfg.check == Intended
    requires c < |StateAt(cfg, steps, t).peers| && StateAt(cfg, steps, t).peers[c].installed == []
    requires c < |After(cfg, steps).peers|
    requires After(cfg, steps).peers[c].slave.hostId != 0 && After(cfg, steps).peers[c].cutOff
    ensures var p := After(cfg, steps).peers[c];
            p.slave.tree == TagAll(p.start, p.slave.hostId)
  {
    hide TagAll, Inv, Enabled;
    RunPrefix(cfg, steps, t);
    RunPrefix(cfg, steps, t + 1);
    assert steps[..t + 1][..t] == steps[..t];
    SubmitsOwn(cfg, steps[..t], c);
    SubmissionStays(cfg, steps, t + 1, c);
    Fallback(cfg, steps, c);
  }

  // ---------------------------------------------------------------------------
  // Joining on a closed connection

  /** A member behind a connection that is already closed. */
  predicate Stranded(s: System, c: nat) {
    c < |s.master.connections| && !s.master.connections[c].open && s.master.connections[c].slaveId != 0
  }

  /** A member gets stranded exactly when its join request is read after its
      connection was closed and no conflict is reported. */
  lemma StrandedIff(cfg: Config, s: System, step: Step, c: nat)
    requires Inv(cfg, s) && Enabled(s, step) && c < |s.peers|
    ensures Stranded(Next(cfg.check, s, step), c) <==>
            || Stranded(s, c)
            || (step.ReadJoin? && step.peer == c && !s.master.connections[c].open &&
                Conflicts(cfg.check, s.peers[c].submission.value.tree, s.master.tree) == [])
  {
    hide PostedOk, OwnershipOk, SessionsOk, StreamOk, KeptOk, SlaveOk, RemoveOf, Merge, TagAll, RemoveNotOf;
    hide Conflicts, Common, WellFormed, ValidConfig, Scanned, SoundHistory;
    assert PeerOk(s.master, c, s.peers[c]);
  }

  /** It stays a member for the rest of the run, and every later tree holds exactly
      the entries it had: what it brought is never removed. */
  lemma {:induction false} StrandedForever(cfg: Config, steps: seq<Step>, t: nat, c: nat)
    requires Run(cfg, steps) && t <= |steps| && Stranded(StateAt(cfg, steps, t), c)
    ensures Stranded(After(cfg, steps), c)
    ensures var m, m' := StateAt(cfg, steps, t).master, After(cfg, steps).master;
            var id := m.connections[c].slaveId;
            && m'.connections[c].slaveId == id
            && RemoveNotOf(m'.tree, id) == RemoveNotOf(m.tree, id)
            && forall n | n in m.tree && n.hostId == id :: n in m'.tree
    decreases |steps|
  {
    hide Next, Enabled, Inv, RemoveNotOf;
    if t == |steps| {
      assert steps[..t] == steps;
    } else {
      var k := |steps| - 1;
      assert steps[..k][..t] == steps[..t];
      RunPrefix(cfg, steps, t);
      StrandedForever(cfg, steps[..k], t, c);
      Always(cfg, steps[..k]);
      Always(cfg, steps);
      StrandedStep(cfg, After(cfg, steps[..k]), steps[k], c);
      var m, m' := StateAt(cfg, steps, t).master, After(cfg, steps).master;
      RemoveNotOfMembers(m.tree, m.connections[c].slaveId);
      RemoveNotOfMembers(m'.tree, m.connections[c].slaveId);
    }
  }

  lemma StrandedStep(cfg: Config, s: System, step: Step, c: nat)
    requires Inv(cfg, s) && Enabled(s, step) && Inv(cfg, Next(cfg.check, s, step)) && Stranded(s, c)
    ensures var m, m' := s.master, Next(cfg.check, s, step).master;
            && Stranded(Next(cfg.check, s, step), c)
            && m'.connections[c].slaveId == m.connections[c].slaveId
            && RemoveNotOf(m'.tree, m.connections[c].slaveId) == RemoveNotOf(m.tree, m.connections[c].slaveId)
  {
    hide Inv, Next, Enabled, RemoveNotOf, Conflicts;
    var s' := Next(cfg.check, s, step);
    StrandedEntries(cfg, s, c);
    StrandedIff(cfg, s, step, c);
    StrandedEntries(cfg, s', c);
    JoinKept(cfg, s, step, c);
  }

  lemma StrandedEntries(cfg: Config, s: System, c: nat)
    requires Inv(cfg, s) && Stranded(s, c)
    ensures c < |s.peers|
    ensures var p, id := s.peers[c], s.master.connections[c].slaveId;
            p.memberId == id && p.submission.Some? && RemoveNotOf(s.master.tree, id) == Kept(p)
  {
    hide PostedOk, OwnershipOk, SessionsOk, SoundHistory, StreamOk, SlaveOk, RemoveNotOf, Kept, WellFormed, Common;
    assert PeerOk(s.master, c, s.peers[c]);
  }

  lemma JoinKept(cfg: Config, s: System, step: Step, c: nat)
    requires Inv(cfg, s) && Enabled(s, step) && c < |s.peers| && s.peers[c].memberId != 0
    ensures var s' := Next(cfg.check, s, step);
            && c < |s'.peers| && s'.peers[c].memberId == s.peers[c].memberId
            && s'.peers[c].submission == s.peers[c].submission && s'.peers[c].lost == s.peers[c].lost
  {
    hide PostedOk, OwnershipOk, SessionsOk, MasterOk, StreamOk, KeptOk, SlaveOk, RemoveOf, Merge, TagAll;
    hide RemoveNotOf, Conflicts, Common, WellFormed, ValidConfig, Scanned;
    assert PeerOk(s.master, c, s.peers[c]);
  }
}
