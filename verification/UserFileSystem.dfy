/** The file system object and the master's messager, updated step by step and
    proved against the callbacks on values that the runs are made of. */
module UserFileSystem {
  import opened Trees
  import opened DirTreeClass
  import opened Nodes
  import opened GroupSystem
  import opened Membership
  import opened StartUp

  /** The master's connections and the handlers it has posted to itself.  A handle
      is a position in the list, from which nothing is ever erased. */
  class MasterMessager {
    var connections: seq<Connection>
    var posted: seq<Posted>

    constructor ()
      ensures connections == [] && posted == []
    {
      connections, posted := [], [];
    }

    method OnAccept() returns (handle: nat)
      modifies this`connections
      ensures handle == |old(connections)|
      ensures connections == old(connections) + [Connection(true, [], 0)]
    {
      handle := |connections|;
      connections := connections + [Connection(true, [], 0)];
    }

    method Write(packet: Notice)
      modifies this`posted
      ensures posted == old(posted) + [ToAll(packet)]
    {
      posted := posted + [ToAll(packet)];
    }

    method WriteTo(packet: Notice, handle: nat)
      modifies this`posted
      ensures posted == old(posted) + [ToOne(handle, packet)]
    {
      posted := posted + [ToOne(handle, packet)];
    }

    /** The loop of the posted broadcast: closed sockets are skipped. */
    method BroadcastNow(packet: Notice)
      modifies this`connections
      ensures connections == Broadcast(old(connections), packet)
    {
      var i := 0;
      while i < |connections|
        invariant i <= |connections| == |old(connections)|
        invariant forall k | 0 <= k < i :: connections[k] == Broadcast(old(connections), packet)[k]
        invariant forall k | i <= k < |connections| :: connections[k] == old(connections)[k]
      {
        if connections[i].open {
          connections := connections[i := connections[i].(queue := connections[i].queue + [packet])];
        }
        i := i + 1;
      }
    }

    /** Runs the oldest posted handler. */
    method RunOne()
      requires posted != []
      requires posted[0].ToOne? ==> posted[0].connection < |connections|
      modifies this
      ensures forall m: Master | m.connections == old(connections) && m.posted == old(posted) ::
                connections == RunPosted(m).connections && posted == RunPosted(m).posted
    {
      var handler := posted[0];
      posted := posted[1..];
      match handler {
        case ToAll(packet) => BroadcastNow(packet);
        case ToOne(c, packet) =>
          connections := connections[c := connections[c].(queue := connections[c].queue + [packet])];
      }
    }

    /** A completed write: the front packet is out. */
    method OnWritten(handle: nat) returns (packet: Notice)
      requires handle < |connections| && connections[handle].queue != []
      modifies this`connections
      ensures packet == old(connections)[handle].queue[0]
      ensures var c := old(connections)[handle];
              connections == old(connections)[handle := c.(queue := c.queue[1..])]
    {
      packet := connections[handle].queue[0];
      connections := connections[handle := connections[handle].(queue := connections[handle].queue[1..])];
    }
  }

  class UserFS {
    const dirTree: DirTree
    const messager: MasterMessager
    var hostId: nat
    var maxHostId: nat
    var hosts: seq<Host>
    var mainThreadIsWaiting: bool
    var slaveWaitSem: nat
    var sessions: Sessions

    /** Auxiliary: the views held so far; read only to stamp packets. */
    var history: seq<View>

    constructor (root: Node, host: Host)
      ensures hostId == host.id && maxHostId == 2 && mainThreadIsWaiting && slaveWaitSem == 0
      ensures hosts == [host] && sessions == map[] && MasterState() == StartMaster(root.children, host)
      ensures fresh(dirTree) && fresh(messager) && dirTree.root == root
      ensures SlaveState() == InitialSlave(root.children, host).(hostId := host.id)
    {
      dirTree := new DirTree(root);
      messager := new MasterMessager();
      hostId, maxHostId, hosts := host.id, 2, [host];
      mainThreadIsWaiting, slaveWaitSem := true, 0;
      sessions, history := map[], [View(root.children, [host])];
    }

    /** The master's invariant: what `MasterKeeps` says of its state. */
    ghost predicate Valid(cfg: Config)
      reads this, dirTree, messager
    {
      MasterKeeps(cfg, MasterState())
    }

    /** The master's part of `initTCPNetwork`: its record is pushed again.  Done
        before the first join this establishes the master's invariant. */
    method PushMasterHost(ghost cfg: Config)
      requires hosts != [] && history != []
      modifies this`hosts, this`history
      ensures MasterState() == PushMaster(old(MasterState()))
      ensures ValidConfig(cfg) && old(MasterState()) == StartMaster(cfg.start, cfg.host) ==> Valid(cfg)
    {
      hosts := hosts + [hosts[0]];
      history := history[..|history| - 1] + [View(dirTree.root.children, hosts)];
      if ValidConfig(cfg) && old(MasterState()) == StartMaster(cfg.start, cfg.host) {
        PushedIsInitial(cfg.start, cfg.host);
        InitialKept(cfg);
      }
    }

    function MasterState(): Master
      reads this, dirTree, messager
    {
      Master(dirTree.root.children, hosts, maxHostId, messager.connections, messager.posted, history)
    }

    function SlaveState(): Slave
      reads this, dirTree
    {
      Slave(hostId, dirTree.root.children, hosts, mainThreadIsWaiting, slaveWaitSem, sessions)
    }

    // -------------------------------------------------------------------------
    // Master

    method SendUpdate()
      modifies this`history, messager
      ensures history == old(history) + [View(dirTree.root.children, hosts)]
      ensures messager.connections == old(messager.connections)
      ensures messager.posted == old(messager.posted) +
                [ToAll(Update(View(dirTree.root.children, hosts), |old(history)|))]
    {
      var view := View(dirTree.root.children, hosts);
      messager.Write(Update(view, |history|));
      history := history + [view];
    }

    /** A slave is gone from the master's point of view. */
    method OnSlaveLost(ghost cfg: Config, handle: nat)
      requires Valid(cfg) && handle < |messager.connections|
      modifies this`history, dirTree, messager
      ensures Valid(cfg) && MasterState() == Leave(old(MasterState()), handle)
    {
      hide MasterKeeps;
      CloseKept(cfg, MasterState(), handle);
      var slaveId := messager.connections[handle].slaveId;
      if slaveId == 0 {
        return;
      }
      dirTree.RemoveHost(slaveId);
      messager.connections := messager.connections[handle := messager.connections[handle].(slaveId := 0)];
      SendUpdate();
    }

    method CloseConnection(ghost cfg: Config, handle: nat)
      requires Valid(cfg) && handle < |messager.connections|
      modifies this`history, dirTree, messager
      ensures Valid(cfg) && MasterState() == Close(old(MasterState()), handle)
    {
      hide MasterKeeps;
      CloseKept(cfg, MasterState(), handle);
      var connection := messager.connections[handle];
      if connection.open {
        messager.connections := messager.connections[handle := connection.(open := false, queue := [])];
        SocketClosedKept(cfg, old(MasterState()), handle);
        OnSlaveLost(cfg, handle);
      }
    }

    /** A join request: a conflict closes the connection, otherwise the slave is
        admitted. */
    method OnNewConnection(ghost cfg: Config, check: ConflictCheck, submitted: Node, host: Host,
                           handle: nat, address: string)
      requires Valid(cfg) && handle < |messager.connections|
      requires WellFormed(submitted.children)
      modifies this, dirTree, messager
      ensures Valid(cfg)
      ensures MasterState() == NewConnection(old(MasterState()), check, handle, submitted.children, host, address)
    {
      hide Sorted, Conflicts, Close, Admit, MasterKeeps, WellFormed;
      AdmitKept(cfg, MasterState(), handle, submitted.children, host, address);
      KeepsSorted(cfg, MasterState());
      SortedOf(submitted.children);
      var slaveTree := new DirTree(submitted);
      var conflicts := dirTree.HasConflict(check, slaveTree.root.children);
      if conflicts != [] {
        CloseConnection(cfg, handle);
      } else {
        AdmitSlave(slaveTree, host, handle, address);
      }
    }

    /** Allocate an id, tag, merge, record, answer, announce. */
    method AdmitSlave(slaveTree: DirTree, host: Host, handle: nat, address: string)
      requires handle < |messager.connections| && slaveTree != dirTree
      modifies this, dirTree, messager, slaveTree
      ensures MasterState() == Admit(old(MasterState()), handle, old(slaveTree.root.children), host, address)
    {
      hide Merge, TagAll;
      var slaveId := maxHostId;
      maxHostId := maxHostId + 1;
      var slaveHost := host.(address := address);
      slaveHost := slaveHost.(id := slaveId);
      slaveTree.SetHostId(slaveId);
      messager.connections := messager.connections[handle := messager.connections[handle].(slaveId := slaveId)];
      dirTree.MergeWith(slaveTree.root.children);
      hosts := hosts + [slaveHost];
      var merged := View(dirTree.root.children, hosts);
      messager.WriteTo(Recognition(slaveId, merged, |history|), handle);
      SendUpdate();
      assert messager.posted == old(messager.posted) +
        [ToOne(handle, Recognition(slaveId, merged, |old(history)|)), ToAll(Update(merged, |old(history)|))];
    }

    /** The network thread accepts, runs a posted handler, or sees a write done. */
    method OnAccepted(ghost cfg: Config) returns (handle: nat)
      requires Valid(cfg)
      modifies messager
      ensures Valid(cfg) && MasterState() == Accept(old(MasterState()))
      ensures handle < |messager.connections| && messager.connections[handle].slaveId == 0
    {
      hide MasterKeeps;
      AcceptKept(cfg, MasterState());
      handle := messager.OnAccept();
    }

    method RunHandler(ghost cfg: Config)
      requires Valid(cfg) && messager.posted != []
      modifies messager
      ensures Valid(cfg) && MasterState() == old(RunPosted(MasterState()))
    {
      hide MasterKeeps;
      HandlerKept(cfg, MasterState());
      messager.RunOne();
    }

    method OnWriteDone(ghost cfg: Config, handle: nat) returns (packet: Notice)
      requires Valid(cfg) && handle < |messager.connections| && messager.connections[handle].queue != []
      modifies messager
      ensures Valid(cfg) && packet == old(messager.connections[handle].queue[0])
      ensures var m, c := old(MasterState()), old(messager.connections[handle]);
              MasterState() == m.(connections := m.connections[handle := c.(queue := c.queue[1..])])
    {
      hide MasterKeeps;
      WrittenKept(cfg, MasterState(), handle, messager.connections[handle].queue[1..]);
      packet := messager.OnWritten(handle);
    }

    // -------------------------------------------------------------------------
    // Slave

    method UpdateInfo(view: View)
      modifies this`hosts, dirTree
      ensures SlaveState() == Install(old(SlaveState()), view)
    {
      dirTree.root := dirTree.root.(children := view.tree);
      hosts := view.hosts;
    }

    method SlaveRecognized(slaveId: nat, view: View)
      modifies this, dirTree
      ensures SlaveState() == Recognised(old(SlaveState()), slaveId, view)
    {
      hostId := slaveId;
      dirTree.root := dirTree.root.(children := view.tree);
      hosts := view.hosts;
      mainThreadIsWaiting := false;
      slaveWaitSem := slaveWaitSem + 1;
    }

    method OnPacketRead(packet: Notice)
      modifies this, dirTree
      ensures SlaveState() == Receive(old(SlaveState()), packet)
    {
      match packet {
        case Recognition(id, view, _) => SlaveRecognized(id, view);
        case Update(view, _) => UpdateInfo(view);
      }
    }

    method OnMasterLost()
      modifies this`mainThreadIsWaiting, this`slaveWaitSem, dirTree
      ensures SlaveState() == Disconnected(old(SlaveState()))
    {
      dirTree.RemoveOthers(hostId);
      if mainThreadIsWaiting {
        mainThreadIsWaiting := false;
        slaveWaitSem := slaveWaitSem + 1;
      }
    }

    // -------------------------------------------------------------------------
    // Either role

    /** The session table and the host record used when a file of `nodeId` is read. */
    method Route(nodeId: nat) returns (record: Host, session: Session)
      requires nodeId < |hosts|
      modifies this`sessions
      ensures sessions == SessionsAfterRead(old(sessions), hosts, nodeId)
      ensures record == hosts[nodeId] && nodeId in sessions && session == sessions[nodeId]
    {
      if nodeId !in sessions {
        sessions := sessions[nodeId := SessionFor(hosts[nodeId])];
      }
      record, session := hosts[nodeId], sessions[nodeId];
    }
  }
}
