/** Reading files: which reads make a node cache a session, to which host, and that
    a cached session is never dropped or replaced. */
module FileReads {
  import opened Names
  import opened Trees
  import opened TreeLaws
  import opened Nodes
  import opened GroupSystem
  import opened Invariant
  import opened Membership
  import opened Theorems
  import opened RoutingTheorems

  /** The path resolves to this node, and it is not a directory. */
  predicate FileAt(tree: Forest, path: seq<Name>, n: Node) {
    path != [] && Walk(tree, path) == Some(n) && n.attributes.kind != Directory
  }

  ghost predicate Unreadable(tree: Forest, path: seq<Name>) {
    forall n :: !FileAt(tree, path, n)
  }

  /** The table has a session for this host, as its record says now, and otherwise
      what it had before. */
  ghost predicate Caches(before: Sessions, after: Sessions, hosts: seq<Host>, id: nat) {
    && id < |hosts| && id in after
    && after[id] == Session(hosts[id].address, hosts[id].sshPort)
    && after.Keys == before.Keys + {id}
    && forall other | other in before :: after[other] == before[other]
  }

  lemma ReadSessionsMeaning(sessions: Sessions, tree: Forest, hosts: seq<Host>, path: seq<Name>, n: Node)
    ensures Unreadable(tree, path) ==> ReadSessions(sessions, tree, hosts, path) == sessions
    ensures FileAt(tree, path, n) && n.hostId < |hosts| &&
            (n.hostId in sessions ==> sessions[n.hostId] == SessionFor(hosts[n.hostId])) ==>
              Caches(sessions, ReadSessions(sessions, tree, hosts, path), hosts, n.hostId)
  {
    hide Walk;
    if path != [] && Walk(tree, path).Some? {
      var found := Walk(tree, path).value;
      assert FileAt(tree, path, found) <==> found.attributes.kind != Directory;
    }
  }

  /** On the master, in every run: after reading a file its owner has a session with
      the address and port of its record.  Reading a directory or a missing path
      changes nothing, and no read changes anything else. */
  lemma ReadAtMasterCaches(cfg: Config, steps: seq<Step>, path: seq<Name>, n: Node)
    requires Run(cfg, steps)
    ensures var s, s' := After(cfg, steps), Next(cfg.check, After(cfg, steps), ReadAtMaster(path));
            && s' == s.(sessions := s'.sessions)
            && (FileAt(s.master.tree, path, n) ==> Caches(s.sessions, s'.sessions, s.master.hosts, n.hostId))
            && (Unreadable(s.master.tree, path) ==> s'.sessions == s.sessions)
  {
    hide Run, After, Walk, Caches, ReadSessions, Unreadable;
    var s := After(cfg, steps);
    if FileAt(s.master.tree, path, n) {
      SafeRoutingAtMaster(cfg, steps, path);
      SessionCoherence(cfg, steps, n.hostId);
    }
    ReadSessionsMeaning(s.sessions, s.master.tree, s.master.hosts, path, n);
  }

  /** The same on every slave, in any phase. */
  lemma ReadAtSlaveCaches(cfg: Config, steps: seq<Step>, c: nat, path: seq<Name>, n: Node)
    requires Run(cfg, steps) && c < |After(cfg, steps).peers|
    ensures var s, s' := After(cfg, steps), Next(cfg.check, After(cfg, steps), ReadAtSlave(c, path));
            && |s'.peers| == |s.peers|
            && var p, p' := s.peers[c].slave, s'.peers[c].slave;
               && s' == s.(peers := s.peers[c := s.peers[c].(slave := p.(sessions := p'.sessions))])
               && (FileAt(p.tree, path, n) ==> Caches(p.sessions, p'.sessions, p.hosts, n.hostId))
               && (Unreadable(p.tree, path) ==> p'.sessions == p.sessions)
  {
    hide Run, After, Walk, Caches, ReadSessions, Inv, Unreadable;
    var s := After(cfg, steps);
    var p := s.peers[c].slave;
    if FileAt(p.tree, path, n) {
      SafeRoutingAtSlave(cfg, steps, c, path);
      if n.hostId in p.sessions {
        Always(cfg, steps);
        SlaveSingleOwners(cfg, s, c);
        WalkOwner(p.tree, path);
        SlaveSession(cfg, s, c, n.hostId);
      }
    }
    ReadSessionsMeaning(p.sessions, p.tree, p.hosts, path, n);
  }

  /** Everything cached before is cached now, unchanged. */
  predicate Extends(before: Sessions, after: Sessions) {
    forall id | id in before :: id in after && after[id] == before[id]
  }

  /** No step drops or replaces a session, and only reading a file at a node adds
      one there. */
  lemma SessionsKept(cfg: Config, s: System, step: Step, c: nat)
    requires Enabled(s, step)
    ensures var s' := Next(cfg.check, s, step);
            && Extends(s.sessions, s'.sessions)
            && (!step.ReadAtMaster? ==> s'.sessions == s.sessions)
            && (c < |s.peers| ==>
                  && c < |s'.peers|
                  && Extends(s.peers[c].slave.sessions, s'.peers[c].slave.sessions)
                  && (!(step.ReadAtSlave? && step.peer == c) ==>
                        s'.peers[c].slave.sessions == s.peers[c].slave.sessions))
  {
    hide ReadSessions, Extends, RemoveOf, RemoveNotOf, NewConnection, Close, RunPosted, Scanned;
    ReadExtends(s.sessions, s.master.tree, s.master.hosts, if step.ReadAtMaster? then step.path else []);
    Unchanged(s.sessions);
    if c < |s.peers| {
      var p := s.peers[c].slave;
      ReadExtends(p.sessions, p.tree, p.hosts, if step.ReadAtSlave? then step.path else []);
      Unchanged(p.sessions);
    }
  }

  lemma ReadExtends(sessions: Sessions, tree: Forest, hosts: seq<Host>, path: seq<Name>)
    ensures Extends(sessions, ReadSessions(sessions, tree, hosts, path))
  {
    hide Target;
  }

  lemma Unchanged(sessions: Sessions)
    ensures Extends(sessions, sessions)
  {
  }

  /** Over a run: what was cached at some time is still cached at the end. */
  lemma {:induction false} SessionsStay(cfg: Config, steps: seq<Step>, t: nat, c: nat)
    requires Run(cfg, steps) && t <= |steps|
    ensures var s, s' := StateAt(cfg, steps, t), After(cfg, steps);
            && Extends(s.sessions, s'.sessions)
            && (c < |s.peers| ==> c < |s'.peers| && Extends(s.peers[c].slave.sessions, s'.peers[c].slave.sessions))
    decreases |steps|
  {
    hide Next, Enabled;
    if t == |steps| {
      assert steps[..t] == steps;
    } else {
      var k := |steps| - 1;
      assert steps[..k][..t] == steps[..t];
      RunPrefix(cfg, steps, t);
      SessionsStay(cfg, steps[..k], t, c);
      SessionsKept(cfg, After(cfg, steps[..k]), steps[k], c);
    }
  }
}
