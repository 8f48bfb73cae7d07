/** Left alone, the group settles: the work under way runs out in a bounded number
    of steps, in whatever order it is done, and then every connected member holds
    the master's view. */
module Convergence {
  import opened DirTreeClass
  import opened Nodes
  import opened GroupSystem
  import opened Invariant
  import opened Membership
  import opened Theorems

  /** Steps that only carry packets on. */
  predicate Internal(step: Step) {
    step.RunHandler? || step.Transmit? || step.Deliver?
  }

  /** No packet can be carried on. */
  ghost predicate Settled(s: System) {
    forall step | Internal(step) :: !Enabled(s, step)
  }

  function QueuedOf(c: Connection): nat {
    if c.open then |c.queue| else 0
  }

  function QueuedTotal(connections: seq<Connection>): nat {
    if connections == [] then 0
    else QueuedTotal(connections[..|connections| - 1]) + QueuedOf(connections[|connections| - 1])
  }

  function OnWire(peers: seq<Peer>): nat {
    if peers == [] then 0 else OnWire(peers[..|peers| - 1]) + |peers[|peers| - 1].wire|
  }

  /** A bound on the steps that packets under way can still take: one for a packet
      on the wire, two for a queued one, and for a posted handler its own step and
      two for every connection it may be queued on. */
  function Potential(s: System): nat {
    |s.master.posted| * (2 * |s.master.connections| + 1) + 2 * QueuedTotal(s.master.connections) + OnWire(s.peers)
  }

  lemma {:induction false} QueuedUpdate(connections: seq<Connection>, c: nat, x: Connection)
    requires c < |connections|
    ensures QueuedTotal(connections[c := x]) + QueuedOf(connections[c]) == QueuedTotal(connections) + QueuedOf(x)
  {
    var k, updated := |connections| - 1, connections[c := x];
    if c == k {
      assert updated[..k] == connections[..k];
    } else {
      QueuedUpdate(connections[..k], c, x);
      assert updated[..k] == connections[..k][c := x];
    }
  }

  lemma {:induction false} OnWireUpdate(peers: seq<Peer>, c: nat, p: Peer)
    requires c < |peers|
    ensures OnWire(peers[c := p]) + |peers[c].wire| == OnWire(peers) + |p.wire|
  {
    var k, updated := |peers| - 1, peers[c := p];
    if c == k {
      assert updated[..k] == peers[..k];
    } else {
      OnWireUpdate(peers[..k], c, p);
      assert updated[..k] == peers[..k][c := p];
    }
  }

  lemma {:induction false} QueuedBroadcast(connections: seq<Connection>, packet: Notice)
    ensures QueuedTotal(Broadcast(connections, packet)) <= QueuedTotal(connections) + |connections|
  {
    if connections == [] {
    } else {
      var k := |connections| - 1;
      QueuedBroadcast(connections[..k], packet);
      assert Broadcast(connections, packet)[..k] == Broadcast(connections[..k], packet);
    }
  }

  /** Every internal step uses up potential and leaves the master's view alone. */
  lemma InternalStep(check: ConflictCheck, s: System, step: Step)
    requires Internal(step) && Enabled(s, step)
    ensures Potential(Next(check, s, step)) < Potential(s)
    ensures ViewOf(Next(check, s, step)) == ViewOf(s)
  {
    hide QueuedTotal, OnWire, Receive;
    var s' := Next(check, s, step);
    var m, m' := s.master, s'.master;
    match step {
      case RunHandler =>
        var w := 2 * |m.connections| + 1;
        match m.posted[0] {
          case ToAll(packet) => QueuedBroadcast(m.connections, packet);
          case ToOne(c, packet) => QueuedUpdate(m.connections, c, m'.connections[c]);
        }
        assert |m'.connections| == |m.connections| && |m'.posted| == |m.posted| - 1;
        assert |m.posted| * w == |m'.posted| * w + w;
      case Transmit(c) =>
        QueuedUpdate(m.connections, c, m'.connections[c]);
        OnWireUpdate(s.peers, c, s'.peers[c]);
      case Deliver(c) =>
        OnWireUpdate(s.peers, c, s'.peers[c]);
    }
  }

  /** Without joins, leaves and failures the group settles: any internal steps from
      a reachable state are at most as many as its potential, and do not change
      the view the members are to agree on. */
  lemma {:induction false} SettlesInBoundedTime(cfg: Config, steps: seq<Step>, more: seq<Step>)
    requires Run(cfg, steps) && Run(cfg, steps + more)
    requires forall i | 0 <= i < |more| :: Internal(more[i])
    ensures Potential(After(cfg, steps + more)) + |more| <= Potential(After(cfg, steps))
    ensures ViewOf(After(cfg, steps + more)) == ViewOf(After(cfg, steps))
    decreases |more|
  {
    hide Potential, Next, Enabled;
    if more == [] {
      assert steps + more == steps;
    } else {
      var k := |more| - 1;
      var all := steps + more;
      assert all[..|all| - 1] == steps + more[..k] && all[|all| - 1] == more[k];
      SettlesInBoundedTime(cfg, steps, more[..k]);
      InternalStep(cfg.check, After(cfg, steps + more[..k]), more[k]);
    }
  }

  /** When nothing is under way any more, every member whose connection is open at
      both ends agrees with the master. */
  lemma SettledAgrees(cfg: Config, steps: seq<Step>, c: nat)
    requires Run(cfg, steps) && Settled(After(cfg, steps))
    requires c < |After(cfg, steps).peers| && c < |After(cfg, steps).master.connections|
    requires After(cfg, steps).master.connections[c].open && After(cfg, steps).peers[c].up
    requires After(cfg, steps).master.connections[c].slaveId != 0
    ensures var s := After(cfg, steps);
            && s.peers[c].slave.hostId == s.master.connections[c].slaveId
            && View(s.peers[c].slave.tree, s.peers[c].slave.hosts) == ViewOf(s)
  {
    hide Inv, Run, After, Settled;
    Always(cfg, steps);
    SettledIsDrained(cfg, After(cfg, steps), c);
    ReplicaAgreement(cfg, steps, c);
  }

  lemma SettledIsDrained(cfg: Config, s: System, c: nat)
    requires Inv(cfg, s) && Settled(s) && c < |s.peers|
    requires s.master.connections[c].open && s.peers[c].up
    ensures Drained(s, c)
  {
    hide PostedOk, OwnershipOk, SessionsOk, MasterOk, PeerOk, ValidConfig, Scanned;
    assert s.master.posted == [] || s.master.posted[0] in s.master.posted;
    assert !Enabled(s, RunHandler) && !Enabled(s, Transmit(c)) && !Enabled(s, Deliver(c));
  }

  lemma ExtendRun(cfg: Config, steps: seq<Step>, step: Step)
    requires Run(cfg, steps) && Enabled(After(cfg, steps), step)
    ensures Run(cfg, steps + [step])
    ensures After(cfg, steps + [step]) == Next(cfg.check, After(cfg, steps), step)
  {
    hide Enabled, Next;
    assert (steps + [step])[..|steps|] == steps;
  }

  /** From every reachable state internal steps alone lead to a settled one. */
  lemma {:induction false} CanSettle(cfg: Config, steps: seq<Step>) returns (more: seq<Step>)
    requires Run(cfg, steps)
    ensures Run(cfg, steps + more) && Settled(After(cfg, steps + more))
    ensures forall i | 0 <= i < |more| :: Internal(more[i])
    decreases Potential(After(cfg, steps))
  {
    hide Enabled, Next, Potential, Run, After;
    if Settled(After(cfg, steps)) {
      more := [];
      assert steps + more == steps;
    } else {
      var step :| Internal(step) && Enabled(After(cfg, steps), step);
      ExtendRun(cfg, steps, step);
      InternalStep(cfg.check, After(cfg, steps), step);
      var rest := CanSettle(cfg, steps + [step]);
      more := [step] + rest;
      assert steps + more == steps + [step] + rest;
    }
  }

  /** What internal steps leave alone: both ends of each link, who is behind it and
      what it submitted. */
  predicate SameLink(s: System, s': System, c: nat) {
    && |s'.peers| == |s.peers| && |s'.master.connections| == |s.master.connections|
    && (c < |s.peers| ==> s'.peers[c].up == s.peers[c].up && s'.peers[c].submission == s.peers[c].submission)
    && (c < |s.master.connections| ==>
          && s'.master.connections[c].open == s.master.connections[c].open
          && s'.master.connections[c].slaveId == s.master.connections[c].slaveId)
  }

  lemma InternalKeepsLink(check: ConflictCheck, s: System, step: Step, c: nat)
    requires Internal(step) && Enabled(s, step)
    ensures SameLink(s, Next(check, s, step), c)
  {
    hide Receive;
  }

  lemma {:induction false} LinksStay(cfg: Config, steps: seq<Step>, more: seq<Step>, c: nat)
    requires Run(cfg, steps) && Run(cfg, steps + more)
    requires forall i | 0 <= i < |more| :: Internal(more[i])
    ensures SameLink(After(cfg, steps), After(cfg, steps + more), c)
    decreases |more|
  {
    hide Next, Enabled;
    if more == [] {
      assert steps + more == steps;
    } else {
      var k := |more| - 1;
      var all := steps + more;
      assert all[..|all| - 1] == steps + more[..k] && all[|all| - 1] == more[k];
      LinksStay(cfg, steps, more[..k], c);
      InternalKeepsLink(cfg.check, After(cfg, steps + more[..k]), more[k], c);
    }
  }

  /** Whichever internal steps the group takes until it is settled, a member whose
      connection is open at both ends then holds the view the master has now. */
  lemma MembersConverge(cfg: Config, steps: seq<Step>, more: seq<Step>, c: nat)
    requires Run(cfg, steps) && Run(cfg, steps + more) && Settled(After(cfg, steps + more))
    requires forall i | 0 <= i < |more| :: Internal(more[i])
    requires c < |After(cfg, steps).peers| && c < |After(cfg, steps).master.connections|
    requires After(cfg, steps).master.connections[c].open && After(cfg, steps).peers[c].up
    requires After(cfg, steps).master.connections[c].slaveId != 0
    ensures SameLink(After(cfg, steps), After(cfg, steps + more), c)
    ensures var p, s := After(cfg, steps + more).peers[c], After(cfg, steps);
            && p.slave.hostId == s.master.connections[c].slaveId
            && View(p.slave.tree, p.slave.hosts) == ViewOf(s) == ViewOf(After(cfg, steps + more))
  {
    hide Run, After, Settled, Internal;
    LinksStay(cfg, steps, more, c);
    SettlesInBoundedTime(cfg, steps, more);
    SettledAgrees(cfg, steps + more, c);
  }
}
