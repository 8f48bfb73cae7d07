/** The two kinds of node and what each callback does to it, on values. */
module Nodes {
  import opened Names
  import opened Trees
  import opened TreeLaws
  import opened DirTreeClass

  datatype Host = Host(id: nat, address: string, workingDir: string, tcpPort: nat, sshPort: nat)

  /** The metadata a node holds: the root's children and the host table. */
  datatype View = View(tree: Forest, hosts: seq<Host>)

  /** Messages from the master.  `stamp` is an auxiliary variable: the position of
      the snapshot in the master's history.  No callback reads it. */
  datatype Notice =
    | Recognition(id: nat, view: View, stamp: nat)
    | Update(view: View, stamp: nat)

  /** A handler waiting in the master's io service. */
  datatype Posted = ToOne(connection: nat, packet: Notice) | ToAll(packet: Notice)

  datatype Connection = Connection(open: bool, queue: seq<Notice>, slaveId: nat)

  datatype Session = Session(address: string, port: nat)

  type Sessions = map<nat, Session>

  // ---------------------------------------------------------------------------
  // Reading a file

  function SessionFor(h: Host): Session {
    Session(h.address, h.sshPort)
  }

  /** The owner of the file a path names; directories are not read. */
  function Target(tree: Forest, path: seq<Name>): Option<nat> {
    if path == [] then None
    else match Walk(tree, path)
         case None => None
         case Some(n) => if n.attributes.kind == Directory then None else Some(n.hostId)
  }

  /** The session table after a read: a missing owner gets a session for the
      address the host table holds now. */
  function SessionsAfterRead(sessions: Sessions, hosts: seq<Host>, id: nat): Sessions
    requires id < |hosts|
  {
    if id in sessions then sessions else sessions[id := SessionFor(hosts[id])]
  }

  // ---------------------------------------------------------------------------
  // The master

  /** `history` is an auxiliary variable: every view the master has held, one per
      join or leave. */
  datatype Master = Master(
    tree: Forest, hosts: seq<Host>, maxHostId: nat,
    connections: seq<Connection>, posted: seq<Posted>, history: seq<View>)

  /** The master as its constructor and `initHost` leave it: its own record sits at
      index 0 only. */
  function StartMaster(start: Forest, host: Host): Master {
    Master(start, [host], 2, [], [], [View(start, [host])])
  }

  /** The main thread pushes the master's record once more.  That is no membership
      change: nothing is announced. */
  function PushMaster(m: Master): Master
    requires m.hosts != [] && m.history != []
  {
    var hosts := m.hosts + [m.hosts[0]];
    m.(hosts := hosts, history := m.history[..|m.history| - 1] + [View(m.tree, hosts)])
  }

  /** The master when that push has come first: its record sits at index 1, its id. */
  function InitialMaster(start: Forest, host: Host): Master {
    Master(start, [host, host], 2, [], [], [View(start, [host, host])])
  }

  function Accept(m: Master): Master {
    m.(connections := m.connections + [Connection(true, [], 0)])
  }

  /** The slave behind a connection is gone: drop its subtrees and tell the rest.
      A connection without a member is ignored. */
  function Leave(m: Master, c: nat): Master
    requires c < |m.connections|
  {
    var id := m.connections[c].slaveId;
    if id == 0 then m
    else
      var tree := RemoveOf(m.tree, id);
      var view := View(tree, m.hosts);
      m.(tree := tree,
         connections := m.connections[c := m.connections[c].(slaveId := 0)],
         posted := m.posted + [ToAll(Update(view, |m.history|))],
         history := m.history + [view])
  }

  /** Closing an open connection drops its queue and counts as a departure;
      closing again does nothing. */
  function Close(m: Master, c: nat): Master
    requires c < |m.connections|
  {
    if !m.connections[c].open then m
    else Leave(m.(connections := m.connections[c := m.connections[c].(open := false, queue := [])]), c)
  }

  /** The record the master stores for a newcomer. */
  function Record(host: Host, address: string, id: nat): Host {
    host.(address := address, id := id)
  }

  /** A join request that was not rejected. */
  function Admit(m: Master, c: nat, tree: Forest, host: Host, address: string): Master
    requires c < |m.connections|
  {
    var id := m.maxHostId;
    var merged := View(Merge(m.tree, TagAll(tree, id)), m.hosts + [Record(host, address, id)]);
    var stamp := |m.history|;
    m.(tree := merged.tree, hosts := merged.hosts, maxHostId := id + 1,
       connections := m.connections[c := m.connections[c].(slaveId := id)],
       posted := m.posted + [ToOne(c, Recognition(id, merged, stamp)), ToAll(Update(merged, stamp))],
       history := m.history + [merged])
  }

  /** A join request arrives on a connection. */
  function NewConnection(m: Master, check: ConflictCheck, c: nat, tree: Forest, host: Host, address: string): Master
    requires c < |m.connections|
  {
    if Conflicts(check, tree, m.tree) != [] then Close(m, c)
    else Admit(m, c, tree, host, address)
  }

  /** One packet appended to the queue of every open connection. */
  function Broadcast(connections: seq<Connection>, packet: Notice): seq<Connection> {
    seq(|connections|, i requires 0 <= i < |connections| =>
      if connections[i].open
      then connections[i].(queue := connections[i].queue + [packet])
      else connections[i])
  }

  /** The oldest posted handler runs.  A packet for one connection is queued
      whether or not the connection is still open. */
  function RunPosted(m: Master): Master
    requires m.posted != []
    requires m.posted[0].ToOne? ==> m.posted[0].connection < |m.connections|
  {
    match m.posted[0]
    case ToAll(packet) =>
      m.(posted := m.posted[1..], connections := Broadcast(m.connections, packet))
    case ToOne(c, packet) =>
      m.(posted := m.posted[1..],
         connections := m.connections[c := m.connections[c].(queue := m.connections[c].queue + [packet])])
  }

  // ---------------------------------------------------------------------------
  // A slave

  datatype Slave = Slave(
    hostId: nat, tree: Forest, hosts: seq<Host>,
    waiting: bool, semaphore: nat, sessions: Sessions)

  function InitialSlave(start: Forest, host: Host): Slave {
    Slave(0, start, [host], true, 0, map[])
  }

  function Install(s: Slave, view: View): Slave {
    s.(tree := view.tree, hosts := view.hosts)
  }

  function Recognised(s: Slave, id: nat, view: View): Slave {
    Install(s, view).(hostId := id, waiting := false, semaphore := s.semaphore + 1)
  }

  function Receive(s: Slave, packet: Notice): Slave {
    match packet
    case Recognition(id, view, _) => Recognised(s, id, view)
    case Update(view, _) => Install(s, view)
  }

  /** The connection failed or was lost. */
  function Disconnected(s: Slave): Slave {
    s.(tree := RemoveNotOf(s.tree, s.hostId), waiting := false,
       semaphore := s.semaphore + (if s.waiting then 1 else 0))
  }

  // ---------------------------------------------------------------------------
  // Waking up the slave's main thread

  datatype Callback = OnPacket(packet: Notice) | OnDisconnect

  function AfterCallbacks(s: Slave, callbacks: seq<Callback>): Slave {
    if callbacks == [] then s
    else
      var before := AfterCallbacks(s, callbacks[..|callbacks| - 1]);
      match callbacks[|callbacks| - 1]
      case OnPacket(packet) => Receive(before, packet)
      case OnDisconnect => Disconnected(before)
  }

  function Recognitions(callbacks: seq<Callback>): nat {
    if callbacks == [] then 0
    else
      var last := callbacks[|callbacks| - 1];
      Recognitions(callbacks[..|callbacks| - 1]) +
      if last.OnPacket? && last.packet.Recognition? then 1 else 0
  }

  /** Some disconnection came before every recognition. */
  predicate FailedFirst(callbacks: seq<Callback>) {
    exists i | 0 <= i < |callbacks| :: callbacks[i].OnDisconnect? && Recognitions(callbacks[..i]) == 0
  }

  /** Over any callbacks in any order: each recognition posts the semaphore once,
      the disconnections together at most once and only if one came first, and the
      main thread is still waiting exactly when neither kind has come. */
  lemma {:induction false} WakeUp(start: Forest, host: Host, callbacks: seq<Callback>)
    ensures var s := AfterCallbacks(InitialSlave(start, host), callbacks);
            && s.semaphore == Recognitions(callbacks) + (if FailedFirst(callbacks) then 1 else 0)
            && (s.waiting <==> Recognitions(callbacks) == 0 && OnDisconnect !in callbacks)
            && (s.waiting <==> s.semaphore == 0)
  {
    if callbacks == [] {
    } else {
      var k := |callbacks| - 1;
      var init, last := callbacks[..k], callbacks[k];
      WakeUp(start, host, init);
      assert callbacks == init + [last];
      forall i | 0 <= i < k
        ensures callbacks[..i] == init[..i] && callbacks[i] == init[i]
      {
      }
      assert FailedFirst(init) ==> FailedFirst(callbacks);
      if last.OnDisconnect? && Recognitions(init) == 0 {
        assert callbacks[k].OnDisconnect? && callbacks[..k] == init;
        assert FailedFirst(callbacks);
        if OnDisconnect in init {
          FirstDisconnect(init);
        }
      }
      assert FailedFirst(callbacks) ==> FailedFirst(init) || (last.OnDisconnect? && Recognitions(init) == 0);
    }
  }

  lemma {:induction false} RecognitionsPrefix(callbacks: seq<Callback>, i: nat)
    requires i <= |callbacks|
    ensures Recognitions(callbacks[..i]) <= Recognitions(callbacks)
    decreases |callbacks| - i
  {
    if i == |callbacks| {
      assert callbacks[..i] == callbacks;
    } else {
      RecognitionsPrefix(callbacks, i + 1);
      assert callbacks[..i + 1][..i] == callbacks[..i];
    }
  }

  lemma FirstDisconnect(callbacks: seq<Callback>)
    requires OnDisconnect in callbacks && Recognitions(callbacks) == 0
    ensures FailedFirst(callbacks)
  {
    var i :| 0 <= i < |callbacks| && callbacks[i] == OnDisconnect;
    RecognitionsPrefix(callbacks, i);
  }
}
