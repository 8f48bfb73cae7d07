/** One master and any number of slaves, as a system of atomic steps: every
    callback runs on its node's single io thread. */
module GroupSystem {
  import opened Names
  import opened Trees
  import opened DirTreeClass
  import opened Nodes

  /** What a slave sent: its tree and its own host record. */
  datatype Submission = Submission(tree: Forest, host: Host)

  /** A slave and the link between it and the connection of the same index.  The
      slave's socket is `up` until it fails; a read that had completed by then is
      `late` and still to be handled.  `wire` holds the packets written but not yet
      delivered.  From `installed` on the fields are auxiliary: the packets
      installed, whether the last callback was a disconnection, the id and the
      address given at the join, the position of the join in the master's history,
      the names the join lost to entries already there, and the positions of the
      departures. */
  datatype Peer = Peer(
    start: Forest, host: Host, slave: Slave, up: bool, late: bool, wire: seq<Notice>,
    submission: Option<Submission>, consumed: bool,
    installed: seq<Notice>, cutOff: bool, memberId: nat, address: string, joinStamp: nat,
    lost: seq<Name>, departures: seq<nat>)

  datatype System = System(master: Master, peers: seq<Peer>, sessions: Sessions)

  /** Which conflict check runs, and what the master starts with. */
  datatype Config = Config(check: ConflictCheck, start: Forest, host: Host)

  /** A freshly scanned working directory: sorted at every level, and every node
      tagged with the id the scanning host has at that time. */
  ghost predicate Scanned(tree: Forest, id: nat) {
    WellFormed(tree) && forall n | n in tree :: Uniform(n, id)
  }

  ghost predicate ValidConfig(cfg: Config) {
    Scanned(cfg.start, 1) && cfg.host.id == 1
  }

  datatype Step =
    | Connect(start: Forest, host: Host)     // a slave connects and is accepted
    | Submit(peer: nat)                      // its main thread sends tree and host
    | ReadJoin(peer: nat, address: string)   // the master reads that message
    | RunHandler                             // the master runs its oldest posted handler
    | Transmit(peer: nat)                    // a queued packet goes out whole
    | ConnectionError(peer: nat)             // a read or write fails at the master
    | Deliver(peer: nat)                     // the slave reads a packet
    | LinkLost(peer: nat, pending: bool)     // connect, read or write fails at the slave
    | ReadAtMaster(path: seq<Name>)          // a file is read through the master's mount
    | ReadAtSlave(peer: nat, path: seq<Name>)

  function Initial(cfg: Config): System {
    System(InitialMaster(cfg.start, cfg.host), [], map[])
  }

  ghost predicate Enabled(s: System, step: Step) {
    match step
    case Connect(start, host) => Scanned(start, 0) && host.id == 0
    case Submit(c) => c < |s.peers| && s.peers[c].up && s.peers[c].submission.None? && s.peers[c].slave.hosts != []
    case ReadJoin(c, _) =>
      c < |s.peers| && c < |s.master.connections| && s.peers[c].submission.Some? && !s.peers[c].consumed
    case RunHandler =>
      s.master.posted != [] &&
      (s.master.posted[0].ToOne? ==> s.master.posted[0].connection < |s.master.connections|)
    case Transmit(c) =>
      c < |s.peers| && c < |s.master.connections| && s.master.connections[c].open && s.master.connections[c].queue != []
    case ConnectionError(c) => c < |s.peers| && c < |s.master.connections|
    case Deliver(c) => c < |s.peers| && (s.peers[c].up || s.peers[c].late) && s.peers[c].wire != []
    case LinkLost(c, pending) => c < |s.peers| && (pending ==> s.peers[c].up && s.peers[c].wire != [])
    case ReadAtMaster(path) => true
    case ReadAtSlave(c, _) => c < |s.peers|
  }

  function NewPeer(start: Forest, host: Host): Peer {
    Peer(start, host, InitialSlave(start, host), true, false, [], None, false, [], false, 0, "", 0, [], [])
  }

  /** Auxiliary bookkeeping for a connection that may have departed. */
  function NoteDeparture(p: Peer, before: Master, after: Master): Peer {
    if |after.history| > |before.history|
    then p.(departures := p.departures + [|before.history|])
    else p
  }

  /** Auxiliary bookkeeping for a join request. */
  function NoteJoin(p: Peer, check: ConflictCheck, before: Master, address: string): Peer
    requires p.submission.Some?
  {
    var tree := p.submission.value.tree;
    if Conflicts(check, tree, before.tree) != [] then p.(consumed := true)
    else p.(consumed := true, memberId := before.maxHostId, address := address,
            joinStamp := |before.history|, lost := Common(tree, before.tree))
  }

  function ReadSessions(sessions: Sessions, tree: Forest, hosts: seq<Host>, path: seq<Name>): Sessions {
    match Target(tree, path)
    case None => sessions
    case Some(id) => if id < |hosts| then SessionsAfterRead(sessions, hosts, id) else sessions
  }

  ghost function Next(check: ConflictCheck, s: System, step: Step): System
    requires Enabled(s, step)
  {
    match step
    case Connect(start, host) =>
      s.(master := Accept(s.master), peers := s.peers + [NewPeer(start, host)])
    case Submit(c) =>
      var p := s.peers[c];
      s.(peers := s.peers[c := p.(submission := Some(Submission(p.slave.tree, p.slave.hosts[0])))])
    case ReadJoin(c, address) =>
      var p, sub := s.peers[c], s.peers[c].submission.value;
      s.(master := NewConnection(s.master, check, c, sub.tree, sub.host, address),
         peers := s.peers[c := NoteJoin(p, check, s.master, address)])
    case RunHandler =>
      s.(master := RunPosted(s.master))
    case Transmit(c) =>
      var p, conn := s.peers[c], s.master.connections[c];
      s.(master := s.master.(connections := s.master.connections[c := conn.(queue := conn.queue[1..])]),
         peers := s.peers[c := p.(wire := p.wire + [conn.queue[0]])])
    case ConnectionError(c) =>
      var master := Close(s.master, c);
      s.(master := master, peers := s.peers[c := NoteDeparture(s.peers[c], s.master, master)])
    case Deliver(c) =>
      var p := s.peers[c];
      s.(peers := s.peers[c := p.(slave := Receive(p.slave, p.wire[0]), wire := p.wire[1..], late := false,
                                  installed := p.installed + [p.wire[0]], cutOff := false)])
    case LinkLost(c, pending) =>
      var p := s.peers[c];
      s.(peers := s.peers[c := p.(slave := Disconnected(p.slave), up := false, late := p.late || pending,
                                  cutOff := true)])
    case ReadAtMaster(path) =>
      s.(sessions := ReadSessions(s.sessions, s.master.tree, s.master.hosts, path))
    case ReadAtSlave(c, path) =>
      var p := s.peers[c];
      s.(peers := s.peers[c := p.(slave := p.slave.(sessions :=
        ReadSessions(p.slave.sessions, p.slave.tree, p.slave.hosts, path)))])
  }

  /** Every run: a configuration and steps that are each possible when taken. */
  ghost predicate Run(cfg: Config, steps: seq<Step>)
    decreases |steps|, 0
  {
    ValidConfig(cfg) &&
    (steps != [] ==>
      var k := |steps| - 1;
      Run(cfg, steps[..k]) && Enabled(After(cfg, steps[..k]), steps[k]))
  }

  /** The state a run ends in. */
  ghost function After(cfg: Config, steps: seq<Step>): System
    requires Run(cfg, steps)
    decreases |steps|, 1
  {
    if steps == [] then Initial(cfg)
    else
      var k := |steps| - 1;
      Next(cfg.check, After(cfg, steps[..k]), steps[k])
  }
}
