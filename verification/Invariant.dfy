/** What every reachable state satisfies. */
module Invariant {
  import opened Trees
  import opened Nodes
  import opened GroupSystem

  // ---------------------------------------------------------------------------
  // The master

  /** A view fit for anyone's use: sorted trees, one owner per subtree, and every
      owner id an index of the host table where that id is stored. */
  ghost predicate Sound(v: View) {
    && WellFormed(v.tree)
    && |v.hosts| >= 2
    && (forall i | 1 <= i < |v.hosts| :: v.hosts[i].id == i)
    && (forall n | n in v.tree :: Uniform(n, n.hostId) && 1 <= n.hostId < |v.hosts|)
  }

  ghost predicate SoundHistory(history: seq<View>) {
    && (forall h | 0 <= h < |history| :: Sound(history[h]))
    && (forall g, h | 0 <= g <= h < |history| :: history[g].hosts <= history[h].hosts)
  }

  ghost predicate MasterOk(cfg: Config, m: Master) {
    && m.history != []
    && m.history[|m.history| - 1] == View(m.tree, m.hosts)
    && |m.hosts| == m.maxHostId
    && |m.hosts| >= 2 && m.hosts[0] == cfg.host && m.hosts[1] == cfg.host
    && SoundHistory(m.history)
    && (forall h | 0 <= h < |m.history| :: RemoveNotOf(m.history[h].tree, 1) == cfg.start)
  }

  // ---------------------------------------------------------------------------
  // The packets on their way to one slave

  function For(posted: seq<Posted>, c: nat): seq<Notice> {
    if posted == [] then []
    else For(posted[..|posted| - 1], c) + Share(posted[|posted| - 1], c)
  }

  function Share(p: Posted, c: nat): seq<Notice> {
    match p
    case ToAll(packet) => [packet]
    case ToOne(d, packet) => if c == d then [packet] else []
  }

  /** What the slave has installed, what is under way, and, on an open connection,
      what is queued or about to be. */
  function Log(m: Master, c: nat, p: Peer): seq<Notice>
    requires c < |m.connections|
  {
    p.installed + p.wire + Waiting(m, c)
  }

  function Waiting(m: Master, c: nat): seq<Notice>
    requires c < |m.connections|
  {
    if m.connections[c].open then m.connections[c].queue + For(m.posted, c) else []
  }

  ghost predicate Ordered(log: seq<Notice>) {
    forall i, j | 0 <= i <= j < |log| :: log[i].stamp <= log[j].stamp
  }

  /** A packet carries a view from the history, and a recognition the id and the
      view of the join. */
  ghost predicate Genuine(history: seq<View>, memberId: nat, joinStamp: nat, k: Notice) {
    && k.stamp < |history|
    && k.view == history[k.stamp]
    && (k.Recognition? ==> memberId != 0 && k.id == memberId && k.stamp == joinStamp)
  }

  ghost predicate HasRecognition(log: seq<Notice>) {
    exists k | k in log :: k.Recognition?
  }

  ghost predicate LogOk(history: seq<View>, memberId: nat, joinStamp: nat, log: seq<Notice>) {
    && Ordered(log)
    && (forall k | k in log :: Genuine(history, memberId, joinStamp, k))
  }

  /** The newest thing on the way to an open member is the newest view. */
  ghost predicate UpToDate(history: seq<View>, log: seq<Notice>) {
    log != [] && log[|log| - 1].stamp == |history| - 1 && HasRecognition(log)
  }

  ghost predicate StreamOk(m: Master, c: nat, p: Peer)
    requires c < |m.connections|
  {
    && LogOk(m.history, p.memberId, p.joinStamp, Log(m, c, p))
    && (m.connections[c].open && p.memberId != 0 ==> UpToDate(m.history, Log(m, c, p)))
  }

  // ---------------------------------------------------------------------------
  // Membership

  ghost predicate MemberOk(m: Master, conn: Connection, p: Peer) {
    && (p.submission.Some? ==> WellFormed(p.submission.value.tree))
    && (p.memberId == 0 ==> conn.slaveId == 0 && p.departures == [])
    && (p.memberId != 0 ==>
          && p.consumed && p.submission.Some?
          && 2 <= p.memberId < |m.hosts|
          && m.hosts[p.memberId] == Record(p.submission.value.host, p.address, p.memberId)
          && 1 <= p.joinStamp < |m.history|
          && p.memberId < |m.history[p.joinStamp].hosts|
          && p.lost == Common(p.submission.value.tree, m.history[p.joinStamp - 1].tree)
          && conn.slaveId == (if p.departures == [] then p.memberId else 0))
    && (p.departures != [] ==>
          && |p.departures| == 1 && !conn.open
          && p.joinStamp < p.departures[0] < |m.history|
          && (forall k | k in p.installed + p.wire :: k.stamp < p.departures[0]))
  }

  /** The entries a member contributes: what it submitted, under its id, without
      the names that were taken when it joined. */
  function Kept(p: Peer): Forest
    requires p.submission.Some?
  {
    Without(TagAll(p.submission.value.tree, p.memberId), p.lost)
  }

  function PresentUntil(history: seq<View>, p: Peer): int {
    if p.departures == [] then |history| else p.departures[0]
  }

  /** From its join until its departure every view holds a member's entries and no
      other entries under its id. */
  ghost predicate KeptOk(history: seq<View>, p: Peer) {
    p.memberId != 0 && p.submission.Some? ==>
      forall h | p.joinStamp <= h < PresentUntil(history, p) && 0 <= h < |history| ::
        RemoveNotOf(history[h].tree, p.memberId) == Kept(p)
  }

  // ---------------------------------------------------------------------------
  // The slave's own state

  /** The view the slave has installed last; at first its own. */
  function Base(p: Peer): View {
    if p.installed == [] then View(p.start, [p.host]) else p.installed[|p.installed| - 1].view
  }

  ghost predicate SessionsOk(sessions: Sessions, hosts: seq<Host>) {
    forall id | id in sessions && id != 0 :: id < |hosts| && sessions[id] == SessionFor(hosts[id])
  }

  ghost predicate SlaveOk(p: Peer) {
    && Scanned(p.start, 0) && p.host.id == 0
    && p.slave.hosts == Base(p).hosts
    && p.slave.tree == (if p.cutOff then RemoveNotOf(Base(p).tree, p.slave.hostId) else Base(p).tree)
    && (p.up ==> !p.cutOff)
    && (!p.up && !p.cutOff ==> p.installed != [] && !p.late)
    && p.slave.hostId == (if HasRecognition(p.installed) then p.memberId else 0)
    && (p.slave.waiting <==> p.up && !HasRecognition(p.installed))
    && (p.slave.waiting <==> p.slave.semaphore == 0)
    && SessionsOk(p.slave.sessions, p.slave.hosts)
    && (p.installed == [] && 0 in p.slave.sessions ==> p.slave.sessions[0] == SessionFor(p.host))
  }

  // ---------------------------------------------------------------------------
  // Across connections

  ghost predicate PeerOk(m: Master, c: nat, p: Peer)
    requires c < |m.connections|
  {
    && StreamOk(m, c, p)
    && MemberOk(m, m.connections[c], p)
    && KeptOk(m.history, p)
    && SlaveOk(p)
  }

  ghost predicate UniqueIds(peers: seq<Peer>) {
    forall c, d | 0 <= c < |peers| && 0 <= d < |peers| ::
      peers[c].memberId != 0 && peers[c].memberId == peers[d].memberId ==> c == d
  }

  /** An entry is the master's own or one that a known peer submitted. */
  ghost predicate Attributed(peers: seq<Peer>, n: Node) {
    n.hostId == 1 ||
    exists c | 0 <= c < |peers| ::
      peers[c].memberId == n.hostId && peers[c].submission.Some? &&
      n in TagAll(peers[c].submission.value.tree, n.hostId)
  }

  ghost predicate LiveOwner(connections: seq<Connection>, id: nat) {
    id == 1 || exists c | 0 <= c < |connections| :: connections[c].slaveId == id
  }

  ghost predicate OwnershipOk(s: System) {
    && UniqueIds(s.peers)
    && (forall h, n | 0 <= h < |s.master.history| && n in s.master.history[h].tree :: Attributed(s.peers, n))
    && (forall n | n in s.master.tree :: LiveOwner(s.master.connections, n.hostId))
  }

  ghost predicate Shape(s: System) {
    && |s.peers| == |s.master.connections|
    && (forall q | q in s.master.posted :: q.ToOne? ==> q.connection < |s.master.connections|)
  }

  /** Handlers were posted in the order of the views they carry. */
  ghost predicate PostedOk(m: Master) {
    && (forall i, j | 0 <= i <= j < |m.posted| :: m.posted[i].packet.stamp <= m.posted[j].packet.stamp)
    && (forall q | q in m.posted ::
          && q.packet.stamp < |m.history|
          && q.packet.view == m.history[q.packet.stamp]
          && (q.ToAll? ==> q.packet.Update?))
  }

  ghost predicate Inv(cfg: Config, s: System) {
    && ValidConfig(cfg)
    && Shape(s)
    && MasterOk(cfg, s.master)
    && PostedOk(s.master)
    && (forall c | 0 <= c < |s.peers| :: PeerOk(s.master, c, s.peers[c]))
    && OwnershipOk(s)
    && SessionsOk(s.sessions, s.master.hosts) && 0 !in s.sessions
  }
}
