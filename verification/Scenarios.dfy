/** Concrete runs, for any attributes and host records: one in which all goes well,
    and those in which the code does not do what was meant.  For each of the latter a
    theorem says exactly when it happens. */
module Scenarios {
  import opened Names
  import opened Trees
  import opened TreeLaws
  import opened DirTreeClass
  import opened Nodes
  import opened GroupSystem
  import opened Theorems
  import opened OwnershipTheorems
  import opened RoutingTheorems
  import opened Accounting
  import opened Convergence
  import StartUp

  function File(name: Name, a: Attributes, id: nat): Node {
    Node(name, a, id, [])
  }

  lemma FileScanned(name: Name, a: Attributes, id: nat)
    ensures Scanned([File(name, a, id)], id)
    ensures forall other :: TagAll([File(name, a, id)], other) == [File(name, a, other)]
  {
    hide Less;
    var file := File(name, a, id);
    assert forall other :: TagAll([], other) == [];
    assert [file][1..] == [];
    assert WellFormed(file.children);
    assert forall n | n in [file] :: n == file;
  }

  lemma EmptyConfig(check: ConflictCheck, host: Host)
    requires host.id == 1
    ensures ValidConfig(Config(check, [], host)) && Run(Config(check, [], host), [])
  {
  }

  /** Two slaves connect, each with one file. */
  lemma TwoPeers(cfg: Config, x: Name, y: Name, a: Attributes, h: Host) returns (steps: seq<Step>)
    requires Run(cfg, []) && h.id == 0
    ensures Run(cfg, steps)
    ensures var s := After(cfg, steps);
            && s.master == Accept(Accept(InitialMaster(cfg.start, cfg.host)))
            && s.peers == [NewPeer([File(x, a, 0)], h), NewPeer([File(y, a, 0)], h)]
  {
    hide Scanned, ValidConfig, TagAll;
    FileScanned(x, a, 0);
    FileScanned(y, a, 0);
    var one, two := Connect([File(x, a, 0)], h), Connect([File(y, a, 0)], h);
    ExtendRun(cfg, [], one);
    ExtendRun(cfg, [] + [one], two);
    steps := [] + [one] + [two];
  }

  /** A slave whose tree is still its own submits it. */
  lemma SubmitStep(cfg: Config, before: seq<Step>, c: nat) returns (steps: seq<Step>)
    requires Run(cfg, before) && Enabled(After(cfg, before), Submit(c))
    ensures Run(cfg, steps)
    ensures var s, p := After(cfg, before), After(cfg, before).peers[c];
            var sent := Submission(p.slave.tree, p.slave.hosts[0]);
            After(cfg, steps) == s.(peers := s.peers[c := p.(submission := Some(sent))])
  {
    hide Run, After;
    ExtendRun(cfg, before, Submit(c));
    steps := before + [Submit(c)];
  }

  lemma NothingReported(theirs: Forest, ours: Forest)
    ensures Conflicts(AsWritten, theirs, ours) == []
  {
    assert theirs[..0] == [];
  }

  lemma FirstComes(name: Name, a: Attributes)
    ensures Merge([], [File(name, a, 2)]) == [File(name, a, 2)]
    ensures Merge([File(name, a, 2)], [File(name, a, 3)]) == [File(name, a, 2)]
    ensures RemoveOf([File(name, a, 2)], 2) == []
  {
    hide Less;
    assert [File(name, a, 2)][..0] == [] && [File(name, a, 3)][..0] == [];
    assert [File(name, a, 2)][1..] == [];
  }

  lemma NoNames(theirs: Forest)
    ensures Conflicts(Intended, theirs, []) == []
  {
    assert theirs[..|theirs|] == theirs;
    var common := Common(theirs, []);
    assert common == [] || common[0] in common;
    CommonMembers(theirs, []);
  }

  /** Two slaves connect and the first one joins. */
  lemma FirstJoins(check: ConflictCheck, x: Name, y: Name, a: Attributes, master: Host, h: Host)
    returns (cfg: Config, steps: seq<Step>)
    requires master.id == 1 && h.id == 0
    ensures cfg.check == check && Run(cfg, steps)
    ensures var s := After(cfg, steps);
            var view := View([File(x, a, 2)], [master, master, Record(h, "", 2)]);
            && |s.peers| == 2 && s.peers[1] == NewPeer([File(y, a, 0)], h)
            && s.peers[0].up && s.peers[0].wire == []
            && s.master.tree == view.tree && s.master.maxHostId == 3
            && s.master.connections == [Connection(true, [], 2), Connection(true, [], 0)]
            && s.master.posted == [ToOne(0, Recognition(2, view, 1)), ToAll(Update(view, 1))]
  {
    cfg := Config(check, [], master);
    EmptyConfig(check, master);
    steps := TwoPeers(cfg, x, y, a, h);
    steps := SubmitStep(cfg, steps, 0);
    FirstAdmission(check, x, a, master, h);
    hide Run, After, NewConnection, Accept, InitialMaster;
    ExtendRun(cfg, steps, ReadJoin(0, ""));
    steps := steps + [ReadJoin(0, "")];
  }

  lemma FirstAdmission(check: ConflictCheck, x: Name, a: Attributes, master: Host, h: Host)
    ensures var m := NewConnection(Accept(Accept(InitialMaster([], master))), check, 0, [File(x, a, 0)], h, "");
            var view := View([File(x, a, 2)], [master, master, Record(h, "", 2)]);
            && m.tree == view.tree && m.maxHostId == 3
            && m.connections == [Connection(true, [], 2), Connection(true, [], 0)]
            && m.posted == [ToOne(0, Recognition(2, view, 1)), ToAll(Update(view, 1))]
  {
    hide Conflicts, Merge, TagAll, Scanned, Less;
    var file := [File(x, a, 0)];
    FileScanned(x, a, 0);
    NoNames(file);
    NothingReported(file, []);
    FirstComes(x, a);
    assert [master, master] + [Record(h, "", 2)] == [master, master, Record(h, "", 2)];
  }

  lemma HiddenAtMaster(name: Name, a: Attributes, master: Host, h: Host) returns (cfg: Config, steps: seq<Step>)
    requires master.id == 1 && h.id == 0
    ensures cfg.check == AsWritten && Run(cfg, steps)
    ensures var s := After(cfg, steps);
            && |s.peers| == |s.master.connections| == 2
            && !s.master.connections[0].open
            && s.master.connections[1].open && s.peers[1].up && s.master.connections[1].slaveId == 3
            && s.peers[1].submission == Some(Submission([File(name, a, 0)], h))
            && s.master.tree == []
  {
    hide Run, After, Scanned, NewConnection, Close, Conflicts, File;
    cfg, steps := FirstJoins(AsWritten, name, name, a, master, h);
    steps := SubmitStep(cfg, steps, 1);
    var s := After(cfg, steps);
    SecondAdmission(s.master, name, a, h);
    NothingReported([File(name, a, 0)], s.master.tree);
    ExtendRun(cfg, steps, ReadJoin(1, ""));
    steps := steps + [ReadJoin(1, "")];
    ExtendRun(cfg, steps, ConnectionError(0));
    steps := steps + [ConnectionError(0)];
  }

  /** The second request with the same name is admitted and loses its entry; then the
      first connection fails. */
  lemma SecondAdmission(m: Master, name: Name, a: Attributes, h: Host)
    requires m.tree == [File(name, a, 2)] && m.maxHostId == 3
    requires m.connections == [Connection(true, [], 2), Connection(true, [], 0)]
    ensures var m1 := NewConnection(m, AsWritten, 1, [File(name, a, 0)], h, "");
            && |m1.connections| == 2
            && var m2 := Close(m1, 0);
               m2.tree == [] && m2.connections == [Connection(false, [], 0), Connection(true, [], 3)]
  {
    hide Conflicts, Merge, TagAll, RemoveOf, Record;
    NothingReported([File(name, a, 0)], m.tree);
    FileScanned(name, a, 0);
    FirstComes(name, a);
  }

  /** As written: a second member with a clashing name joins and the first one
      leaves.  When every packet has arrived the second one is still connected, and
      its file is neither in the master's tree nor in its own. */
  lemma HiddenFile(name: Name, a: Attributes, master: Host, h: Host) returns (cfg: Config, steps: seq<Step>)
    requires master.id == 1 && h.id == 0
    ensures cfg.check == AsWritten && Run(cfg, steps) && Settled(After(cfg, steps))
    ensures var s := After(cfg, steps);
            && |s.peers| == |s.master.connections| == 2
            && !s.master.connections[0].open
            && s.master.connections[1].open && s.peers[1].up
            && s.peers[1].slave.hostId == s.master.connections[1].slaveId == 3
            && s.peers[1].submission == Some(Submission([File(name, a, 0)], h))
            && s.master.tree == [] == s.peers[1].slave.tree
            && !FullyVisible(s, 1)
  {
    cfg, steps := HiddenAtMaster(name, a, master, h);
    hide Run, After, Settled;
    var more := CanSettle(cfg, steps);
    LinksStay(cfg, steps, more, 0);
    MembersConverge(cfg, steps, more, 1);
    steps := steps + more;
    FileScanned(name, a, 0);
    assert File(name, a, 3) in TagAll([File(name, a, 0)], 3);
  }

  /** Then both handlers run, so the broadcast is being written to the second
      connection when its slave submits. */
  lemma SecondSubmits(check: ConflictCheck, x: Name, y: Name, a: Attributes, master: Host, h: Host)
    returns (cfg: Config, steps: seq<Step>)
    requires master.id == 1 && h.id == 0
    ensures cfg.check == check && Run(cfg, steps)
    ensures var s := After(cfg, steps);
            && |s.peers| == |s.master.connections| == 2
            && s.peers[1].submission == Some(Submission([File(y, a, 0)], h)) && !s.peers[1].consumed
            && s.master.tree == [File(x, a, 2)] && s.master.maxHostId == 3
            && s.master.connections[1].open && s.master.connections[1].slaveId == 0
            && |s.master.connections[1].queue| == 1 && s.master.connections[1].queue[0].Update?
            && s.master.connections[1].queue[0].view.tree == s.master.tree
            && s.peers[1].up && s.peers[1].wire == [] && s.peers[1].installed == [] && s.peers[1].slave.hostId == 0
  {
    hide Run, After, Scanned, File, Record;
    cfg, steps := FirstJoins(check, x, y, a, master, h);
    ExtendRun(cfg, steps, RunHandler);
    steps := steps + [RunHandler];
    ExtendRun(cfg, steps, RunHandler);
    steps := steps + [RunHandler];
    steps := SubmitStep(cfg, steps, 1);
  }

  /** A join request is complete but not yet handled when the write of a broadcast
      to the same connection fails.  The connection is closed, then the request is
      handled: its entries are behind no connection. */
  lemma StrandedRun(x: Name, y: Name, a: Attributes, master: Host, h: Host) returns (cfg: Config, steps: seq<Step>)
    requires x != y && master.id == 1 && h.id == 0
    ensures cfg.check == Intended && Run(cfg, steps) && |steps| >= 2
    ensures var k := |steps| - 2;
            && steps[k..] == [ConnectionError(1), ReadJoin(1, "")]
            && 1 < |StateAt(cfg, steps, k).master.connections|
            && StateAt(cfg, steps, k).master.connections[1].queue != []
    ensures Stranded(After(cfg, steps), 1) && File(y, a, 3) in After(cfg, steps).master.tree
  {
    hide Run, After, Scanned, Less, NewConnection, NoteJoin, Conflicts, File, RemoveOf;
    var before;
    cfg, before := SecondSubmits(Intended, x, y, a, master, h);
    var s0 := After(cfg, before);
    ExtendRun(cfg, before, ConnectionError(1));
    var s1 := Next(Intended, s0, ConnectionError(1));
    ExtendRun(cfg, before + [ConnectionError(1)], ReadJoin(1, ""));
    steps := before + [ConnectionError(1)] + [ReadJoin(1, "")];
    assert steps[..|before|] == before;
    LateJoin(s1.master, x, y, a, h);
  }

  /** A request with a free name, on a connection that is closed already. */
  lemma LateJoin(m: Master, x: Name, y: Name, a: Attributes, h: Host)
    requires x != y && m.tree == [File(x, a, 2)] && m.maxHostId == 3
    requires |m.connections| == 2 && !m.connections[1].open
    ensures var m' := NewConnection(m, Intended, 1, [File(y, a, 0)], h, "");
            && |m'.connections| == 2 && !m'.connections[1].open && m'.connections[1].slaveId == 3
            && File(y, a, 3) in m'.tree
  {
    hide Conflicts, Merge, TagAll, Scanned, Less;
    FileScanned(y, a, 0);
    NoClash(x, y, a);
    FileScanned(y, a, 3);
    FileScanned(x, a, 2);
    MergeMembers(m.tree, [File(y, a, 3)]);
  }

  lemma NoClash(x: Name, y: Name, a: Attributes)
    requires x != y
    ensures Conflicts(Intended, [File(y, a, 0)], [File(x, a, 2)]) == []
  {
    hide Common, Scanned, Less;
    FileScanned(y, a, 0);
    FileScanned(x, a, 2);
    var common := Common([File(y, a, 0)], [File(x, a, 2)]);
    assert [File(y, a, 0)][..1] == [File(y, a, 0)];
    assert common == [] || common[0] in common;
    CommonMembers([File(y, a, 0)], [File(x, a, 2)]);
  }

  /** The broadcast has been read but not yet handled when the write of the slave's
      own request fails.  After the disconnection the slave shows the whole view. */
  lemma LateReadRun(check: ConflictCheck, x: Name, y: Name, a: Attributes, master: Host, h: Host)
    returns (cfg: Config, steps: seq<Step>)
    requires master.id == 1 && h.id == 0
    ensures cfg.check == check && Run(cfg, steps)
    ensures var s := After(cfg, steps);
            && |s.peers| == 2 && !s.peers[1].up && !s.peers[1].cutOff
            && s.peers[1].slave.tree == s.master.tree == [File(x, a, 2)]
  {
    hide Run, After, Scanned, File, RemoveNotOf;
    cfg, steps := SecondSubmits(check, x, y, a, master, h);
    ExtendRun(cfg, steps, Transmit(1));
    steps := steps + [Transmit(1)];
    ExtendRun(cfg, steps, LinkLost(1, true));
    steps := steps + [LinkLost(1, true)];
    ExtendRun(cfg, steps, Deliver(1));
    steps := steps + [Deliver(1)];
  }

  /** When its two packets have arrived the first slave is a member that agrees with
      the master. */
  lemma HealthyJoin(check: ConflictCheck, x: Name, y: Name, a: Attributes, master: Host, h: Host)
    returns (cfg: Config, steps: seq<Step>)
    requires master.id == 1 && h.id == 0
    ensures cfg.check == check && Run(cfg, steps)
    ensures var s := After(cfg, steps);
            && |s.peers| == |s.master.connections| == 2 && Drained(s, 0)
            && s.master.connections[0].open && s.peers[0].up
            && s.peers[0].slave.hostId == s.master.connections[0].slaveId == 2
            && s.peers[0].slave.tree == [File(x, a, 2)]
  {
    hide Run, After, Scanned, File, Record;
    cfg, steps := FirstJoins(check, x, y, a, master, h);
    ExtendRun(cfg, steps, RunHandler);
    steps := steps + [RunHandler];
    ExtendRun(cfg, steps, RunHandler);
    steps := steps + [RunHandler];
    ExtendRun(cfg, steps, Transmit(0));
    steps := steps + [Transmit(0)];
    ExtendRun(cfg, steps, Transmit(0));
    steps := steps + [Transmit(0)];
    ExtendRun(cfg, steps, Deliver(0));
    steps := steps + [Deliver(0)];
    ExtendRun(cfg, steps, Deliver(0));
    steps := steps + [Deliver(0)];
    ReplicaAgreement(cfg, steps, 0);
  }

  /** Then both handlers run, and the second slave, which has not joined, installs
      the broadcast. */
  lemma EarlyBroadcast(check: ConflictCheck, x: Name, y: Name, a: Attributes, master: Host, h: Host)
    returns (cfg: Config, steps: seq<Step>)
    requires master.id == 1 && h.id == 0
    ensures cfg.check == check && Run(cfg, steps)
    ensures var s := After(cfg, steps);
            && |s.peers| == |s.master.connections| == 2
            && s.peers[1].up && s.peers[1].submission.None? && s.peers[1].start == [File(y, a, 0)]
            && |s.peers[1].installed| == 1 && s.peers[1].slave.hostId == 0
            && s.peers[1].slave.tree == [File(x, a, 2)] == s.master.tree
            && s.peers[1].slave.hosts != []
  {
    hide Run, After, Scanned, File, Record;
    cfg, steps := FirstJoins(check, x, y, a, master, h);
    ExtendRun(cfg, steps, RunHandler);
    steps := steps + [RunHandler];
    ExtendRun(cfg, steps, RunHandler);
    steps := steps + [RunHandler];
    ExtendRun(cfg, steps, Transmit(1));
    steps := steps + [Transmit(1)];
    ExtendRun(cfg, steps, Deliver(1));
    steps := steps + [Deliver(1)];
  }

  /** With either check: a slave that hears a broadcast before it is recognised
      and then loses its link is left with nothing, its own file included. */
  lemma WipedSlave(check: ConflictCheck, x: Name, y: Name, a: Attributes, master: Host, h: Host)
    returns (cfg: Config, steps: seq<Step>)
    requires master.id == 1 && h.id == 0
    ensures cfg.check == check && Run(cfg, steps)
    ensures var s := After(cfg, steps);
            |s.peers| == 2 && s.peers[1].start == [File(y, a, 0)] && s.peers[1].slave.tree == []
  {
    cfg, steps := EarlyBroadcast(check, x, y, a, master, h);
    hide Run, After, Less;
    ExtendRun(cfg, steps, LinkLost(1, false));
    steps := steps + [LinkLost(1, false)];
    UnrecognisedFallback(cfg, steps, 1);
  }

  /** With either check: a slave whose main thread is late submits the master's
      view as its own files. */
  lemma BorrowedSubmission(check: ConflictCheck, x: Name, y: Name, a: Attributes, master: Host, h: Host)
    returns (cfg: Config, steps: seq<Step>)
    requires master.id == 1 && h.id == 0
    ensures cfg.check == check && Run(cfg, steps)
    ensures var s := After(cfg, steps);
            && |s.peers| == 2 && s.peers[1].start == [File(y, a, 0)]
            && s.peers[1].submission.Some?
            && s.peers[1].submission.value.tree == [File(x, a, 2)]
  {
    cfg, steps := EarlyBroadcast(check, x, y, a, master, h);
    steps := SubmitStep(cfg, steps, 1);
  }

  /** A slave joins before the master's push. */
  lemma EarlyJoin(check: ConflictCheck, name: Name, a: Attributes, master: Host, h: Host)
    returns (events: seq<StartUp.StartEvent>)
    ensures StartUp.StartRun(check, [], master, events)
    ensures var s := StartUp.Started(check, [], master, events);
            && s.master == NewConnection(Accept(StartMaster([], master)), check, 0, [File(name, a, 0)], h, "")
            && s.remotes == [StartUp.Remote(InitialSlave([File(name, a, 0)], h), true)]
            && !s.pushed
  {
    var file := [File(name, a, 0)];
    FirstOpened(check, master, file, h);
    hide NewConnection, InitialSlave, StartMaster, Accept, File, StartUp.StartRun, StartUp.Started;
    var open, request := StartUp.Opened(file, h), StartUp.Requested(0, file, h, "");
    StartUp.OneMore(check, [], master, [open], request);
    events := [open] + [request];
  }

  lemma FirstOpened(check: ConflictCheck, master: Host, start: Forest, h: Host)
    ensures var events := [StartUp.Opened(start, h)];
            && StartUp.StartRun(check, [], master, events)
            && var s := StartUp.Started(check, [], master, events);
               && s.master == Accept(StartMaster([], master)) && |s.master.connections| == 1 && !s.pushed
               && s.remotes == [StartUp.Remote(InitialSlave(start, h), true)]
  {
    hide InitialSlave;
    StartUp.OneMore(check, [], master, [], StartUp.Opened(start, h));
    assert [] + [StartUp.Opened(start, h)] == [StartUp.Opened(start, h)];
  }

  lemma EarlyAdmission(check: ConflictCheck, x: Name, a: Attributes, master: Host, h: Host)
    ensures var m := NewConnection(Accept(StartMaster([], master)), check, 0, [File(x, a, 0)], h, "");
            var view := View([File(x, a, 2)], [master, Record(h, "", 2)]);
            && m.tree == view.tree && m.hosts == view.hosts && m.history != []
            && m.connections == [Connection(true, [], 2)]
            && m.posted == [ToOne(0, Recognition(2, view, 1)), ToAll(Update(view, 1))]
  {
    hide Conflicts, Merge, TagAll, Scanned, Less;
    var file := [File(x, a, 0)];
    FileScanned(x, a, 0);
    NoNames(file);
    NothingReported(file, []);
    FirstComes(x, a);
    assert [master] + [Record(h, "", 2)] == [master, Record(h, "", 2)];
  }

  /** Until the push the new id has no record; afterwards it leads to the master's
      record, and the master's id to the slave's. */
  lemma MisroutedRun(check: ConflictCheck, name: Name, a: Attributes, master: Host, h: Host)
    returns (before: seq<StartUp.StartEvent>, after: seq<StartUp.StartEvent>)
    requires master.id == 1
    ensures StartUp.StartRun(check, [], master, before) && StartUp.StartRun(check, [], master, after)
    ensures after == before + [StartUp.Push]
    ensures var m := StartUp.Started(check, [], master, before).master;
            m.tree == [File(name, a, 2)] && |m.hosts| == 2
    ensures var m := StartUp.Started(check, [], master, after).master;
            m.tree == [File(name, a, 2)] && m.hosts == [master, Record(h, "", 2), master]
  {
    before := EarlyJoin(check, name, a, master, h);
    EarlyAdmission(check, name, a, master, h);
    hide NewConnection, StartUp.StartRun, StartUp.Started;
    StartUp.OneMore(check, [], master, before, StartUp.Push);
    after := before + [StartUp.Push];
  }

  /** Both packets of the join arrive, then the push comes: the slave is drained and
      its host table lacks the pushed record. */
  lemma StaleTable(check: ConflictCheck, name: Name, a: Attributes, master: Host, h: Host)
    returns (events: seq<StartUp.StartEvent>)
    ensures StartUp.StartRun(check, [], master, events)
    ensures var s := StartUp.Started(check, [], master, events);
            && |s.remotes| == |s.master.connections| == 1 && s.remotes[0].up
            && s.master.connections == [Connection(true, [], 2)] && s.master.posted == []
            && s.remotes[0].slave.hosts + [master] == s.master.hosts
  {
    events := EarlyJoin(check, name, a, master, h);
    EarlyAdmission(check, name, a, master, h);
    hide NewConnection, File, Record, StartUp.StartRun, StartUp.Started;
    StartUp.OneMore(check, [], master, events, StartUp.Handled);
    events := events + [StartUp.Handled];
    StartUp.OneMore(check, [], master, events, StartUp.Handled);
    events := events + [StartUp.Handled];
    StartUp.OneMore(check, [], master, events, StartUp.Arrived(0));
    events := events + [StartUp.Arrived(0)];
    StartUp.OneMore(check, [], master, events, StartUp.Arrived(0));
    events := events + [StartUp.Arrived(0)];
    StartUp.OneMore(check, [], master, events, StartUp.Push);
    events := events + [StartUp.Push];
    StartUp.PushedLastMeans(check, [], master, events);
    StartUp.HostsAgreeIff(check, [], master, events, 0);
  }
}
