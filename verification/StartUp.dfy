/** The master starts its network thread before its main thread pushes the master's
    record to index 1.  Here the push is a step like the others: joins may come
    before it, and slaves may hear of them before or after. */
module StartUp {
  import opened Trees
  import opened DirTreeClass
  import opened Nodes

  /** A slave, and whether its socket is still up. */
  datatype Remote = Remote(slave: Slave, up: bool)

  /** The two last fields are auxiliary: the ids given out before the push, and
      whether the push has come without a join or leave since. */
  datatype Starting = Starting(
    master: Master, remotes: seq<Remote>, pushed: bool, early: int, unannounced: bool)

  datatype StartEvent =
    | Push
    | Opened(start: Forest, own: Host)
    | Requested(connection: nat, tree: Forest, host: Host, address: string)
    | Failed(connection: nat)
    | Handled
    | Arrived(connection: nat)               // the front packet reaches the slave
    | Dropped(connection: nat)               // the slave loses its link

  predicate Possible(s: Starting, e: StartEvent) {
    match e
    case Push => !s.pushed && s.master.hosts != [] && s.master.history != []
    case Opened(_, _) => true
    case Requested(c, _, _, _) => c < |s.master.connections|
    case Failed(c) => c < |s.master.connections|
    case Handled =>
      s.master.posted != [] &&
      (s.master.posted[0].ToOne? ==> s.master.posted[0].connection < |s.master.connections|)
    case Arrived(c) =>
      && c < |s.master.connections| && s.master.connections[c].open && s.master.connections[c].queue != []
      && c < |s.remotes| && s.remotes[c].up
    case Dropped(c) => c < |s.remotes|
  }

  function Perform(check: ConflictCheck, s: Starting, e: StartEvent): Starting
    requires Possible(s, e)
  {
    match e
    case Push => s.(master := PushMaster(s.master), pushed := true)
    case Opened(start, own) =>
      s.(master := Accept(s.master), remotes := s.remotes + [Remote(InitialSlave(start, own), true)])
    case Requested(c, tree, host, address) =>
      s.(master := NewConnection(s.master, check, c, tree, host, address))
    case Failed(c) => s.(master := Close(s.master, c))
    case Handled => s.(master := RunPosted(s.master))
    case Arrived(c) =>
      var conn, r := s.master.connections[c], s.remotes[c];
      s.(master := s.master.(connections := s.master.connections[c := conn.(queue := conn.queue[1..])]),
         remotes := s.remotes[c := r.(slave := Receive(r.slave, conn.queue[0]))])
    case Dropped(c) =>
      s.(remotes := s.remotes[c := Remote(Disconnected(s.remotes[c].slave), false)])
  }

  /** The step and its bookkeeping. */
  function Happen(check: ConflictCheck, s: Starting, e: StartEvent): Starting
    requires Possible(s, e)
  {
    var s' := Perform(check, s, e);
    s'.(early := if s.pushed then s.early else s.early + s'.master.maxHostId - s.master.maxHostId,
        unannounced := e == Push || (s.unannounced && |s'.master.history| == |s.master.history|))
  }

  ghost predicate StartRun(check: ConflictCheck, start: Forest, host: Host, events: seq<StartEvent>)
    decreases |events|, 0
  {
    events == [] ||
    (var k := |events| - 1;
     StartRun(check, start, host, events[..k]) && Possible(Started(check, start, host, events[..k]), events[k]))
  }

  ghost function Started(check: ConflictCheck, start: Forest, host: Host, events: seq<StartEvent>): Starting
    requires StartRun(check, start, host, events)
    decreases |events|, 1
  {
    if events == [] then Starting(StartMaster(start, host), [], false, 0, false)
    else
      var k := |events| - 1;
      Happen(check, Started(check, start, host, events[..k]), events[k])
  }

  /** Records that came before the push sit one place below their id, the pushed
      record sits after them, and later ones at their id. */
  ghost predicate TableOk(host: Host, s: Starting) {
    var hosts := s.master.hosts;
    && s.master.history != [] && s.early >= 0
    && s.master.maxHostId == |hosts| + (if s.pushed then 0 else 1)
    && |hosts| >= s.early + (if s.pushed then 2 else 1)
    && (!s.pushed ==> |hosts| == s.early + 1)
    && hosts[0] == host
    && (forall i | 1 <= i <= s.early :: hosts[i].id == i + 1)
    && (s.pushed ==> hosts[s.early + 1] == host)
    && (forall i | s.early + 1 < i < |hosts| :: hosts[i].id == i)
  }

  lemma TableStep(check: ConflictCheck, host: Host, s: Starting, e: StartEvent)
    requires TableOk(host, s) && Possible(s, e)
    ensures TableOk(host, Happen(check, s, e))
  {
    hide Conflicts, Merge, TagAll, RemoveOf, Broadcast, Receive, Disconnected;
  }

  lemma {:induction false} TableAlways(check: ConflictCheck, start: Forest, host: Host, events: seq<StartEvent>)
    requires StartRun(check, start, host, events)
    ensures TableOk(host, Started(check, start, host, events))
  {
    hide Possible, Happen;
    if events == [] {
    } else {
      var k := |events| - 1;
      TableAlways(check, start, host, events[..k]);
      TableStep(check, host, Started(check, start, host, events[..k]), events[k]);
    }
  }

  /** The host table has the record of this id where a lookup for it goes. */
  predicate Routes(m: Master, id: nat) {
    id < |m.hosts| && m.hosts[id].id == id
  }

  /** At any time, before the push and after it: an id that was given out leads to
      its own record exactly when the push has come and either no id was given out
      before it or this one was given out after it.  An id given out before it, other
      than the newest of these, leads to the record of the next id; the newest one
      has no record until the push and then leads to the master's. */
  lemma RoutesIff(check: ConflictCheck, start: Forest, host: Host, events: seq<StartEvent>, id: nat)
    requires host.id == 1 && StartRun(check, start, host, events)
    requires 1 <= id < Started(check, start, host, events).master.maxHostId
    ensures var s := Started(check, start, host, events);
            && (Routes(s.master, id) <==> s.pushed && (s.early == 0 || id > s.early + 1))
            && (id <= s.early ==> id < |s.master.hosts| && s.master.hosts[id].id == id + 1)
            && (id == s.early + 1 ==>
                  if s.pushed then id < |s.master.hosts| && s.master.hosts[id] == host else id == |s.master.hosts|)
  {
    hide StartRun, Started;
    TableAlways(check, start, host, events);
  }

  /** The push came while the id counter still had its initial value. */
  ghost predicate PushedFirst(check: ConflictCheck, start: Forest, host: Host, events: seq<StartEvent>)
    requires StartRun(check, start, host, events)
  {
    exists i | 0 <= i < |events| :: events[i] == Push && IdsAt(check, start, host, events, i) == 2
  }

  /** The id counter before event `i`. */
  ghost function IdsAt(check: ConflictCheck, start: Forest, host: Host, events: seq<StartEvent>, i: nat): nat
    requires StartRun(check, start, host, events) && i <= |events|
  {
    StartPrefix(check, start, host, events, i);
    Started(check, start, host, events[..i]).master.maxHostId
  }

  /** The joins and leaves before event `i`, and one. */
  ghost function ViewsAt(check: ConflictCheck, start: Forest, host: Host, events: seq<StartEvent>, i: nat): nat
    requires StartRun(check, start, host, events) && i <= |events|
  {
    StartPrefix(check, start, host, events, i);
    |Started(check, start, host, events[..i]).master.history|
  }

  lemma {:induction false} StartPrefix(
    check: ConflictCheck, start: Forest, host: Host, events: seq<StartEvent>, i: nat)
    requires StartRun(check, start, host, events) && i <= |events|
    ensures StartRun(check, start, host, events[..i])
    decreases |events|
  {
    if i == |events| {
      assert events[..i] == events;
    } else {
      var k := |events| - 1;
      StartPrefix(check, start, host, events[..k], i);
      assert events[..k][..i] == events[..i];
    }
  }

  /** The last event of a run, and what came before it. */
  lemma LastEvent(check: ConflictCheck, start: Forest, host: Host, events: seq<StartEvent>)
    requires StartRun(check, start, host, events) && events != []
    ensures var k := |events| - 1;
            && StartRun(check, start, host, events[..k])
            && Possible(Started(check, start, host, events[..k]), events[k])
            && Started(check, start, host, events)
               == Happen(check, Started(check, start, host, events[..k]), events[k])
  {
    hide Possible, Happen;
  }

  lemma OneMore(check: ConflictCheck, start: Forest, host: Host, events: seq<StartEvent>, e: StartEvent)
    requires StartRun(check, start, host, events) && Possible(Started(check, start, host, events), e)
    ensures StartRun(check, start, host, events + [e])
    ensures Started(check, start, host, events + [e]) == Happen(check, Started(check, start, host, events), e)
  {
    hide Possible, Happen;
    assert (events + [e])[..|events|] == events;
  }

  /** A shorter run passes through the same states. */
  lemma ShorterRun(check: ConflictCheck, start: Forest, host: Host, events: seq<StartEvent>, k: nat, i: nat)
    requires StartRun(check, start, host, events) && i <= k <= |events|
    requires StartRun(check, start, host, events[..k])
    ensures IdsAt(check, start, host, events, i) == IdsAt(check, start, host, events[..k], i)
    ensures ViewsAt(check, start, host, events, i) == ViewsAt(check, start, host, events[..k], i)
  {
    hide StartRun, Started;
    assert events[..k][..i] == events[..i];
  }

  lemma NowAt(check: ConflictCheck, start: Forest, host: Host, events: seq<StartEvent>)
    requires StartRun(check, start, host, events)
    ensures var m := Started(check, start, host, events).master;
            && IdsAt(check, start, host, events, |events|) == m.maxHostId
            && ViewsAt(check, start, host, events, |events|) == |m.history|
  {
    hide StartRun, Started;
    assert events[..|events|] == events;
  }

  lemma {:induction false} PushedFirstMeans(check: ConflictCheck, start: Forest, host: Host, events: seq<StartEvent>)
    requires StartRun(check, start, host, events)
    ensures var s := Started(check, start, host, events);
            PushedFirst(check, start, host, events) <==> s.pushed && s.early == 0
    decreases |events|
  {
    if events == [] {
    } else {
      var k := |events| - 1;
      LastEvent(check, start, host, events);
      hide Possible, Happen, StartRun, Started, TableOk, IdsAt;
      var init, s := events[..k], Started(check, start, host, events[..k]);
      PushedFirstMeans(check, start, host, init);
      TableAlways(check, start, host, init);
      EarlyStep(check, host, s, events[k]);
      NowAt(check, start, host, init);
      forall i | 0 <= i <= k
        ensures IdsAt(check, start, host, events, i) == IdsAt(check, start, host, init, i)
      {
        ShorterRun(check, start, host, events, k, i);
      }
      if PushedFirst(check, start, host, init) {
        var i :| 0 <= i < k && init[i] == Push && IdsAt(check, start, host, init, i) == 2;
        assert events[i] == Push;
      }
      if PushedFirst(check, start, host, events) {
        var i :| 0 <= i <= k && events[i] == Push && IdsAt(check, start, host, events, i) == 2;
        assert i < k ==> init[i] == Push;
      }
    }
  }

  lemma EarlyStep(check: ConflictCheck, host: Host, s: Starting, e: StartEvent)
    requires TableOk(host, s) && Possible(s, e)
    ensures var s' := Happen(check, s, e);
            s'.pushed && s'.early == 0 <==> (s.pushed && s.early == 0) || (e == Push && s.master.maxHostId == 2)
  {
    hide Conflicts, Merge, TagAll, RemoveOf, Broadcast, Receive, Disconnected;
  }

  /** Over all runs: every id given out leads to its own record if and only if the
      push came before the first join. */
  lemma AlignedIffPushedFirst(check: ConflictCheck, start: Forest, host: Host, events: seq<StartEvent>)
    requires host.id == 1 && StartRun(check, start, host, events)
    ensures (forall id | 1 <= id < Started(check, start, host, events).master.maxHostId ::
               Routes(Started(check, start, host, events).master, id))
            <==> PushedFirst(check, start, host, events)
  {
    hide StartRun, Started, PushedFirst;
    PushedFirstMeans(check, start, host, events);
    TableAlways(check, start, host, events);
    var s := Started(check, start, host, events);
    assert s.master.maxHostId >= 2;
    RoutesIff(check, start, host, events, 1);
    forall id | 2 <= id < s.master.maxHostId
      ensures Routes(s.master, id) <==> s.pushed && (s.early == 0 || id > s.early + 1)
    {
      RoutesIff(check, start, host, events, id);
    }
  }

  // ---------------------------------------------------------------------------
  // What the slaves hear

  /** The view announced last: a push is not announced. */
  function AnnouncedView(s: Starting): View {
    var hosts := s.master.hosts;
    View(s.master.tree, if s.unannounced && hosts != [] then hosts[..|hosts| - 1] else hosts)
  }

  /** The newest view that is queued for a slave or, if none is, that it holds. */
  function Newest(conn: Connection, r: Remote): View {
    if conn.queue != [] then conn.queue[|conn.queue| - 1].view else View(r.slave.tree, r.slave.hosts)
  }

  /** A slave shows entries of its own only. */
  ghost predicate OwnOnly(slave: Slave) {
    forall n | n in slave.tree :: n.hostId == slave.hostId
  }

  /** A slave without a link shows its own entries.  The newest handler announces the
      newest view to all; without a handler that view is the newest one on the way to
      every member connected at both ends. */
  ghost predicate HeardOk(s: Starting) {
    var m := s.master;
    && |s.remotes| == |m.connections|
    && (forall c | 0 <= c < |s.remotes| && !s.remotes[c].up :: OwnOnly(s.remotes[c].slave))
    && (s.unannounced ==> s.pushed && |m.hosts| >= 2 && m.hosts[|m.hosts| - 1] == m.hosts[0])
    && (m.posted != [] ==>
          m.posted[|m.posted| - 1].ToAll? && m.posted[|m.posted| - 1].packet.view == AnnouncedView(s))
    && (m.posted == [] ==> forall c | 0 <= c < |m.connections| ::
          m.connections[c].open && m.connections[c].slaveId != 0 && s.remotes[c].up ==>
            Newest(m.connections[c], s.remotes[c]) == AnnouncedView(s))
  }

  lemma HeardStep(check: ConflictCheck, s: Starting, e: StartEvent)
    requires HeardOk(s) && Possible(s, e)
    ensures HeardOk(Happen(check, s, e))
  {
    hide NewConnection, Close, RunPosted, Receive, Disconnected;
    match e {
      case Push =>
      case Opened(_, _) =>
      case Requested(_, _, _, _) => HeardChange(check, s, e);
      case Failed(_) => HeardChange(check, s, e);
      case Handled => HeardHandled(check, s, e);
      case Arrived(_) => HeardArrived(check, s, e);
      case Dropped(c) => DroppedOwn(s.remotes[c].slave);
    }
  }

  lemma DroppedOwn(slave: Slave)
    ensures OwnOnly(Disconnected(slave))
    ensures Disconnected(slave).hosts == slave.hosts
  {
    RemoveNotOfMembers(slave.tree, slave.hostId);
  }

  lemma HeardChange(check: ConflictCheck, s: Starting, e: StartEvent)
    requires HeardOk(s) && Possible(s, e) && (e.Requested? || e.Failed?)
    ensures HeardOk(Happen(check, s, e))
  {
    hide Conflicts, Merge, TagAll, RemoveOf, Record;
  }

  lemma HeardHandled(check: ConflictCheck, s: Starting, e: StartEvent)
    requires HeardOk(s) && Possible(s, e) && e == Handled
    ensures HeardOk(Happen(check, s, e))
  {
  }

  lemma HeardArrived(check: ConflictCheck, s: Starting, e: StartEvent)
    requires HeardOk(s) && Possible(s, e) && e.Arrived?
    ensures HeardOk(Happen(check, s, e))
  {
  }

  lemma {:induction false} HeardAlways(check: ConflictCheck, start: Forest, host: Host, events: seq<StartEvent>)
    requires StartRun(check, start, host, events)
    ensures HeardOk(Started(check, start, host, events))
  {
    hide Possible, Happen;
    if events == [] {
    } else {
      var k := |events| - 1;
      HeardAlways(check, start, host, events[..k]);
      HeardStep(check, Started(check, start, host, events[..k]), events[k]);
    }
  }

  /** The push has come, and no join or leave since. */
  ghost predicate PushedLast(check: ConflictCheck, start: Forest, host: Host, events: seq<StartEvent>)
    requires StartRun(check, start, host, events)
  {
    exists i | 0 <= i < |events| ::
      events[i] == Push && ViewsAt(check, start, host, events, i) == ViewsAt(check, start, host, events, |events|)
  }

  lemma ViewsStep(check: ConflictCheck, s: Starting, e: StartEvent)
    requires Possible(s, e)
    ensures var m, m' := s.master, Happen(check, s, e).master;
            |m.history| <= |m'.history| && (e == Push ==> |m'.history| == |m.history|)
  {
    hide Conflicts, Merge, TagAll, RemoveOf, Broadcast, Receive, Disconnected;
  }

  lemma {:induction false} ViewsGrow(
    check: ConflictCheck, start: Forest, host: Host, events: seq<StartEvent>, i: nat)
    requires StartRun(check, start, host, events) && i <= |events|
    ensures ViewsAt(check, start, host, events, i) <= |Started(check, start, host, events).master.history|
    decreases |events|
  {
    if i == |events| {
      NowAt(check, start, host, events);
    } else {
      var k := |events| - 1;
      LastEvent(check, start, host, events);
      hide Possible, Happen, StartRun, Started, ViewsAt;
      ShorterRun(check, start, host, events, k, i);
      ViewsGrow(check, start, host, events[..k], i);
      ViewsStep(check, Started(check, start, host, events[..k]), events[k]);
    }
  }

  lemma {:induction false} PushedLastMeans(check: ConflictCheck, start: Forest, host: Host, events: seq<StartEvent>)
    requires StartRun(check, start, host, events)
    ensures PushedLast(check, start, host, events) <==> Started(check, start, host, events).unannounced
    decreases |events|
  {
    if events == [] {
    } else {
      var k := |events| - 1;
      LastEvent(check, start, host, events);
      hide Possible, Perform, StartRun, Started, ViewsAt;
      var init, s := events[..k], Started(check, start, host, events[..k]);
      PushedLastMeans(check, start, host, init);
      ViewsStep(check, s, events[k]);
      NowAt(check, start, host, init);
      NowAt(check, start, host, events);
      forall i | 0 <= i <= k
        ensures ViewsAt(check, start, host, events, i) == ViewsAt(check, start, host, init, i) <= |s.master.history|
      {
        ShorterRun(check, start, host, events, k, i);
        ViewsGrow(check, start, host, init, i);
      }
      if s.unannounced {
        var i :| 0 <= i < k && init[i] == Push &&
                 ViewsAt(check, start, host, init, i) == ViewsAt(check, start, host, init, k);
        assert events[i] == Push;
      }
      if PushedLast(check, start, host, events) {
        var i :| 0 <= i <= k && events[i] == Push &&
                 ViewsAt(check, start, host, events, i) == ViewsAt(check, start, host, events, k + 1);
        assert i < k ==> init[i] == Push;
      }
    }
  }

  /** Over all runs: a drained member, connected at both ends, holds the master's
      tree, and it holds the master's host table if and only if the push has not come
      or some join or leave has come since.  Otherwise it lacks exactly the record
      that was pushed. */
  lemma HostsAgreeIff(check: ConflictCheck, start: Forest, host: Host, events: seq<StartEvent>, c: nat)
    requires StartRun(check, start, host, events)
    requires var s := Started(check, start, host, events);
             && c < |s.remotes| && c < |s.master.connections|
             && s.remotes[c].up && s.master.connections[c].open && s.master.connections[c].slaveId != 0
             && s.master.posted == [] && s.master.connections[c].queue == []
    ensures var s := Started(check, start, host, events);
            var m, slave := s.master, s.remotes[c].slave;
            && slave.tree == m.tree
            && (slave.hosts == m.hosts <==> !PushedLast(check, start, host, events))
            && (PushedLast(check, start, host, events) ==> slave.hosts + [host] == m.hosts)
  {
    hide StartRun, Started, PushedLast;
    PushedLastMeans(check, start, host, events);
    HeardAlways(check, start, host, events);
    TableAlways(check, start, host, events);
  }

  /** Over all runs: a slave that lost its link shows entries of its own only, whenever
      the push comes. */
  lemma LostShowsOwn(check: ConflictCheck, start: Forest, host: Host, events: seq<StartEvent>, c: nat)
    requires StartRun(check, start, host, events)
    ensures var remotes := Started(check, start, host, events).remotes;
            c < |remotes| && !remotes[c].up ==>
              forall n | n in remotes[c].slave.tree :: n.hostId == remotes[c].slave.hostId
  {
    hide StartRun, Started;
    HeardAlways(check, start, host, events);
  }

  /** With the push first, the master is the one the group's runs start from. */
  lemma PushedIsInitial(start: Forest, host: Host)
    ensures PushMaster(StartMaster(start, host)) == InitialMaster(start, host)
  {
    assert [host] + [host] == [host, host];
    assert [View(start, [host])][..0] + [View(start, [host, host])] == [View(start, [host, host])];
  }
}
