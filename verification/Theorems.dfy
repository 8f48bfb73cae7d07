/** What holds in every run of the group. */
module Theorems {
  import opened Trees
  import opened DirTreeClass
  import opened Nodes
  import opened GroupSystem
  import opened Invariant
  import opened Membership

  // ---------------------------------------------------------------------------
  // Replica agreement

  /** Nothing is left to arrive at the slave of a connection. */
  predicate Drained(s: System, c: nat)
    requires c < |s.peers| && c < |s.master.connections|
  {
    s.master.posted == [] && s.master.connections[c].queue == [] && s.peers[c].wire == []
  }

  /** A member whose connection is open at both ends and drained knows its id and
      holds exactly the master's tree and host table. */
  lemma ReplicaAgreement(cfg: Config, steps: seq<Step>, c: nat)
    requires Run(cfg, steps)
    requires c < |After(cfg, steps).peers| && c < |After(cfg, steps).master.connections|
    requires After(cfg, steps).master.connections[c].open && After(cfg, steps).peers[c].up
    requires After(cfg, steps).master.connections[c].slaveId != 0
    requires Drained(After(cfg, steps), c)
    ensures var s := After(cfg, steps);
            && s.peers[c].slave.hostId == s.master.connections[c].slaveId
            && s.peers[c].slave.tree == s.master.tree
            && s.peers[c].slave.hosts == s.master.hosts
  {
    Always(cfg, steps);
    var s := After(cfg, steps);
    AgreementOf(cfg, s, c);
  }

  lemma AgreementOf(cfg: Config, s: System, c: nat)
    requires Inv(cfg, s) && c < |s.peers| && Drained(s, c)
    requires s.master.connections[c].open && s.peers[c].up && s.master.connections[c].slaveId != 0
    ensures s.peers[c].slave.hostId == s.master.connections[c].slaveId
    ensures s.peers[c].slave.tree == s.master.tree
    ensures s.peers[c].slave.hosts == s.master.hosts
  {
    hide PostedOk, OwnershipOk, SessionsOk, ValidConfig, SoundHistory, RemoveNotOf, KeptOk, Common;
    hide WellFormed, Scanned, HasRecognition;
    var m, p := s.master, s.peers[c];
    assert PeerOk(m, c, p);
    LiveMember(m, c, p);
    assert Log(m, c, p) == p.installed;
    assert p.installed[|p.installed| - 1] in p.installed;
  }

  /** A recognised slave is a member until its connection is closed. */
  lemma RecognisedIsMember(cfg: Config, steps: seq<Step>, c: nat)
    requires Run(cfg, steps) && c < |After(cfg, steps).peers| && After(cfg, steps).peers[c].slave.hostId != 0
    ensures var s := After(cfg, steps);
            && c < |s.master.connections|
            && (s.master.connections[c].open ==> s.master.connections[c].slaveId == s.peers[c].slave.hostId)
  {
    Always(cfg, steps);
    var s := After(cfg, steps);
    hide Inv, Next, Run, After;
    RecognisedOf(cfg, s, c);
  }

  lemma RecognisedOf(cfg: Config, s: System, c: nat)
    requires Inv(cfg, s) && c < |s.peers| && s.peers[c].slave.hostId != 0
    ensures c < |s.master.connections|
    ensures s.peers[c].memberId == s.peers[c].slave.hostId && s.peers[c].installed != []
    ensures s.master.connections[c].open ==> s.master.connections[c].slaveId == s.peers[c].slave.hostId
    ensures s.peers[c].joinStamp <= s.peers[c].installed[|s.peers[c].installed| - 1].stamp
    ensures s.peers[c].installed[|s.peers[c].installed| - 1].stamp < PresentUntil(s.master.history, s.peers[c])
  {
    hide PostedOk, OwnershipOk, SessionsOk, ValidConfig, MasterOk, RemoveNotOf, KeptOk, UpToDate, Common;
    hide WellFormed, Scanned, For;
    var m, p := s.master, s.peers[c];
    assert PeerOk(m, c, p);
    var k :| k in p.installed && k.Recognition?;
    var i :| 0 <= i < |p.installed| && p.installed[i] == k;
    var log, last := Log(m, c, p), |p.installed| - 1;
    assert log[i] == k && log[last] == p.installed[last];
    assert log[i] in log && log[last] in log;
    assert p.installed[last] in p.installed + p.wire;
  }

  // ---------------------------------------------------------------------------
  // Ordered views

  function ViewOf(s: System): View {
    View(s.master.tree, s.master.hosts)
  }

  lemma RunPrefix(cfg: Config, steps: seq<Step>, t: nat)
    requires Run(cfg, steps) && t <= |steps|
    ensures Run(cfg, steps[..t])
    decreases |steps| - t
  {
    if t == |steps| {
      assert steps[..t] == steps;
    } else {
      RunPrefix(cfg, steps, t + 1);
      assert steps[..t + 1][..t] == steps[..t];
    }
  }

  ghost function StateAt(cfg: Config, steps: seq<Step>, t: nat): System
    requires Run(cfg, steps) && t <= |steps|
  {
    RunPrefix(cfg, steps, t);
    After(cfg, steps[..t])
  }

  /** A step adds at most one view, and then it is the one the master holds. */
  lemma StepHistory(cfg: Config, s: System, step: Step)
    requires Enabled(s, step)
    ensures var s' := Next(cfg.check, s, step);
            s'.master.history == s.master.history ||
            s'.master.history == s.master.history + [ViewOf(s')]
  {
    hide RemoveOf, Merge, TagAll, Conflicts;
  }

  /** The first time the history reached beyond position `k`. */
  ghost function TimeOf(cfg: Config, steps: seq<Step>, k: nat): nat
    requires Run(cfg, steps) && k < |After(cfg, steps).master.history|
    ensures TimeOf(cfg, steps, k) <= |steps|
    decreases |steps|
  {
    if steps == [] then 0
    else
      var n := |steps| - 1;
      if k < |After(cfg, steps[..n]).master.history| then TimeOf(cfg, steps[..n], k) else |steps|
  }

  /** Every view in the history is one the master held at its time, and later
      positions have later times. */
  lemma {:induction false} TimeOfView(cfg: Config, steps: seq<Step>, k: nat, l: nat)
    requires Run(cfg, steps) && k <= l < |After(cfg, steps).master.history|
    ensures ViewOf(StateAt(cfg, steps, TimeOf(cfg, steps, k))) == After(cfg, steps).master.history[k]
    ensures TimeOf(cfg, steps, k) <= TimeOf(cfg, steps, l)
    decreases |steps|
  {
    hide Next, Enabled;
    if steps == [] {
      assert steps[..0] == steps;
    } else {
      var n := |steps| - 1;
      var before := After(cfg, steps[..n]);
      StepHistory(cfg, before, steps[n]);
      if k < |before.master.history| {
        TimeOfView(cfg, steps[..n], k, if l < |before.master.history| then l else k);
        var t := TimeOf(cfg, steps[..n], k);
        assert steps[..n][..t] == steps[..t];
      } else {
        assert steps[..|steps|] == steps;
      }
    }
  }

  /** When the master first held the view that a slave installed in `i`-th place. */
  ghost function ViewTime(cfg: Config, steps: seq<Step>, c: nat, i: nat): nat
    requires Run(cfg, steps) && c < |After(cfg, steps).peers| && i < |After(cfg, steps).peers[c].installed|
    requires After(cfg, steps).peers[c].installed[i].stamp < |After(cfg, steps).master.history|
  {
    TimeOf(cfg, steps, After(cfg, steps).peers[c].installed[i].stamp)
  }

  /** Every view a slave installs is one the master held, and it installs them in
      the order in which the master held them; its host table only grows. */
  lemma OrderedViews(cfg: Config, steps: seq<Step>, c: nat, i: nat, j: nat)
    requires Run(cfg, steps) && c < |After(cfg, steps).peers|
    requires i <= j < |After(cfg, steps).peers[c].installed|
    ensures After(cfg, steps).peers[c].installed[i].stamp < |After(cfg, steps).master.history|
    ensures After(cfg, steps).peers[c].installed[j].stamp < |After(cfg, steps).master.history|
    ensures ViewTime(cfg, steps, c, i) <= ViewTime(cfg, steps, c, j) <= |steps|
    ensures ViewOf(StateAt(cfg, steps, ViewTime(cfg, steps, c, i))) == After(cfg, steps).peers[c].installed[i].view
    ensures After(cfg, steps).peers[c].installed[i].view.hosts <= After(cfg, steps).peers[c].installed[j].view.hosts
  {
    hide Inv, Next, Run, After, TimeOf, StateAt;
    Always(cfg, steps);
    var s := After(cfg, steps);
    InstalledGenuine(cfg, s, c);
    var log := s.peers[c].installed;
    TimeOfView(cfg, steps, log[i].stamp, log[j].stamp);
  }

  lemma InstalledGenuine(cfg: Config, s: System, c: nat)
    requires Inv(cfg, s) && c < |s.peers|
    ensures var log, history := s.peers[c].installed, s.master.history;
            && (forall i | 0 <= i < |log| :: log[i].stamp < |history| && log[i].view == history[log[i].stamp])
            && (forall i, j | 0 <= i <= j < |log| ::
                  log[i].stamp <= log[j].stamp && log[i].view.hosts <= log[j].view.hosts)
  {
    hide PostedOk, OwnershipOk, SessionsOk, ValidConfig, RemoveNotOf, KeptOk, UpToDate, SlaveOk, MemberOk;
    hide Sound, For;
    var m, p := s.master, s.peers[c];
    assert PeerOk(m, c, p);
    var whole := Log(m, c, p);
    assert forall i | 0 <= i < |p.installed| :: whole[i] == p.installed[i] && whole[i] in whole;
    assert SoundHistory(m.history);
    forall i, j | 0 <= i <= j < |p.installed|
      ensures p.installed[i].stamp <= p.installed[j].stamp
      ensures p.installed[i].view.hosts <= p.installed[j].view.hosts
    {
      assert whole[i].stamp <= whole[j].stamp;
    }
  }
}
