# Group-Share Filesystem: verified model

A Dafny model of the metadata layer of the Group-Share Filesystem (GSFS). One
master and any number of slaves share a directory tree and a host table. A slave
connects, submits its tree and host record, is given an id or turned away, and from
then on receives every view the master reaches. When a connection is lost the
slave's subtrees leave the group.

The model has three layers.

* **Data** (`Names`, `Trees`, `TreeLaws`, `Lookup`, `DirTreeClass`): tree nodes, the
  operations on the root's children, and their laws. A `std::set<TreeNode>` is the
  sequence its iterator visits, strictly sorted by name.
* **Wire** (`ByteOrder`, `Framing`, `WriteQueue`, `Payload`, `TypedChannel`): the
  64-bit codec, length-prefixed packets, the header/body reader, the queue in front
  of a socket, and the three message layouts.
* **Protocol** (`Nodes`, `StartUp`, `GroupSystem`, `Invariant`, `Preservation`,
  `Membership`, `UserFileSystem`, and the theorem files `Theorems`, `Convergence`,
  `OwnershipTheorems`, `RoutingTheorems`, `FileReads`, `Delivery`, `Accounting`,
  `Scenarios`): the callbacks of master and slave as functions on values, the objects
  that perform them in place, and the system of all runs. `Run(cfg, steps)` says that
  `steps` is a possible run and `After(cfg, steps)` is the state it ends in; theorems
  quantify over both.

Some fields are auxiliary: the master's `history` of views, the `stamp` of a packet
(its position in that history), the fields of a `Peer` from `installed` on, and
`early` and `unannounced` in `StartUp`. They record what happened; no step takes a
decision by them.

## Assumptions

* Callbacks of one node run one after the other on its io thread, so each is one
  step. Posted handlers run in the order in which they were posted.
* A connection delivers whole packets in the order in which they were written, and
  may still do so after it was closed. The wire layer justifies this from bytes
  (`WriteQueue.ChannelIsFifo`, `TypedChannel.ContentsArrive`).
* Reads, writes and connects may fail at any time, at either end, any number of
  times. A write reported after its socket was closed carries an error.
* A read that completed before its socket was closed may still be handled
  afterwards. So a join request can be processed on a closed connection, and a slave
  can install one more packet after a disconnection (`RoutingTheorems.LateRead`). In
  the source such a read presupposes a write outstanding on the same socket, since
  only the failure of that write closes it; the step system also allows it without.
* The main thread of a slave serialises its tree at any time after it has connected,
  as it does in the source, so a broadcast may come first.
* In the runs of the group the master has pushed its own record at index 1 before
  the first join. `StartUp` models the start without this assumption; there a packet
  goes from the master's queue to the slave in one step.
* Directory scans yield trees sorted at every level whose nodes carry the scanning
  host's id at that time: 1 on the master, 0 on a slave.

## Where the code differs from what it is meant to do

The model follows the code. Each deviation has a concrete instance and an exact
condition.

* `hasConflict` starts with both bounds of its first range at `begin()`, so it
  reports nothing. `ConflictCheck` selects the written or the intended bound, and
  every theorem holds for both unless it says otherwise. A member is fully visible
  exactly when none of its names was taken when it joined (`VisibleIffNoClash`); with
  the written check a member's file can stay out of the master's tree and of its own
  when everything has arrived and the host it clashed with is gone (`HiddenFile`).
* `network_to_host_64` reads byte 6 twice. The round trip is the identity exactly on
  numbers whose two top bytes are equal (`RoundTrip`), and the round trips of frames,
  whole streams and payloads hold exactly when every number in them is of that kind
  (`FrameExact`, `FramingRoundTrip`, `PayloadRoundTrip`). The byte order is
  little-endian; a comment in `src/tcp_messager.h` says big-endian.
* A broadcast also goes to connections that have not joined. A slave that installs
  one and then loses its link is left with an empty tree (`UnrecognisedFallback`,
  `WipedSlave`), and one that has not yet submitted then submits the master's tree as
  its own (`SubmitsOwn`, `BorrowedSubmission`).
* The master's network thread starts before the push of its record. Ids lead to their
  own records if and only if the push precedes the first join
  (`AlignedIffPushedFirst`). Otherwise the master's id and the ids given out before
  the push lead to the record of the next id, except that the newest of them has no
  record until the push and then leads to the master's; ids given out after the push
  lead to their own (`RoutesIff`, `MisroutedRun`). Nor is the push announced: a
  drained member has the master's host table if and only if the push has not come or
  some join or leave has come since (`HostsAgreeIff`, `StaleTable`).
* A join request that is complete when a write to its connection fails is handled
  after the connection was closed, and adds entries that nothing removes
  (`StrandedIff`, `StrandedForever`, `StrandedRun`).

## Model

| member | source | states |
|---|---|---|
| Names.FirstDifference | src/dir_tree.h:60 | the first character in which two names differ decides their order |
| Names.PrefixFirst | src/dir_tree.h:60 | a proper prefix comes before the longer name |
| Names.Lexicographic | src/dir_tree.h:60 | the order of every child set is exactly the lexicographic order of `std::string` |
| Trees.RemoveOfMembers | src/dir_tree.cc:26-32 | `removeOf` leaves exactly the children of other owners, still in order |
| Trees.RemoveNotOfMembers | src/dir_tree.cc:35-41 | `removeNotOf` leaves exactly the children of that owner, still in order |
| Trees.MergeMembers | src/dir_tree.cc:65-68 | a merge holds every entry that was there and exactly the newcomers whose name was free, in order |
| Trees.SameMembers | src/dir_tree.h:60-85 | a set of children ordered by name is determined by its members |
| Trees.TagAllMembers | src/dir_tree.h:53-58 | re-tagging keeps names, attributes, shape and order and changes only the owner |
| TreeLaws.TagUniform | src/dir_tree.h:53-58 | after re-tagging every node at every depth has the new owner, and every level stays sorted |
| TreeLaws.CommonMembers | src/dir_tree.cc:43-61 | the reported names are exactly those both trees use at top level |
| TreeLaws.CommonSorted | src/dir_tree.cc:51-58 | they are reported in strictly increasing order |
| TreeLaws.MergeLength | src/dir_tree.cc:43-68 | conservation: merged entries plus clashing names equal the entries of both sides |
| TreeLaws.NoConflictIffNothingLost | src/dir_tree.cc:43-68 | no clash is equivalent to the merge keeping every entry of both sides |
| TreeLaws.RemovalIsDeep | src/dir_tree.cc:26-41 | when each subtree has one owner, top-level removal leaves no node of the removed host at any depth, keeping a host leaves no node of another, and other hosts' nodes stay |
| TreeLaws.MergeKeeps | src/dir_tree.cc:65-68 | under a fresh id the merged tree holds exactly the newcomer's entries without the clashing names |
| TreeLaws.OthersUntouched | src/dir_tree.cc:26-68 | a join or leave of one host does not change another host's entries |
| TreeLaws.LeaveUndoesJoin | src/user_fs.cc:288-335 | removing a fresh id after merging its tree restores the tree, clashes or not |
| TreeLaws.LeaveCommutesWithJoin | src/user_fs.cc:288-335 | a leave commutes with another host's join if and only if the newcomer brings no name the leaving host holds |
| TreeLaws.LeaveUndoesJoinLater | src/user_fs.cc:288-335 | leaving undoes joining across any joins and leaves of others that bring none of its names |
| TreeLaws.WalkMerged | src/dir_tree.cc:65-88 | on a merged tree the first component decides which input resolves the path |
| TreeLaws.DenotesMerged | src/dir_tree.cc:65-88 | the same for full paths with root and "." components |
| TreeLaws.WalkOwner | src/dir_tree.cc:70-88 | a lookup below the root returns a node of the owner of its first component |
| TreeLaws.DepartedNotFound | src/dir_tree.cc:26-88 | after a host is removed no path resolves to one of its nodes |
| Lookup.PathMeaning | src/dir_tree.cc:70-88 | "/" finds the root, and "/" followed by names finds a node if and only if a chain of children with these names leads to it from the root |
| Lookup.DotIgnored | src/dir_tree.cc:76 | a "." anywhere in a path changes nothing |
| Lookup.Rootless | src/dir_tree.cc:78 | without a root component nothing is found |
| Lookup.OnlyAfterRoot | src/dir_tree.cc:77-78 | components before the root component do not matter |
| DirTreeClass.ConflictsMeaning | src/dir_tree.cc:43-61 | the intended bound reports the common names, the written one nothing; "nothing reported iff nothing lost" holds exactly with the intended bound or without a clash |
| DirTreeClass.DirTree.RemoveHost | src/dir_tree.cc:26-32 | the erasing loop computes the removal and leaves the rest of the root alone |
| DirTreeClass.DirTree.RemoveOthers | src/dir_tree.cc:35-41 | the erasing loop keeps exactly one host's children |
| DirTreeClass.DirTree.HasConflict | src/dir_tree.cc:43-61 | the two-pointer walk terminates and returns exactly the common names below its bound, in order |
| DirTreeClass.DirTree.MergeWith | src/dir_tree.cc:65-68 | the inserting loop computes the merge |
| DirTreeClass.DirTree.SetHostId | src/dir_tree.h:53-58 | every node below the root gets the id, the root keeps its own |
| DirTreeClass.DirTree.Retag | src/dir_tree.h:53-58 | the recursive loop computes the re-tagged children |
| DirTreeClass.DirTree.Find | src/dir_tree.cc:70-88 | the lookup loop returns what the path denotes: nothing without a root component, the root, or the component-by-component walk below it |
| ByteOrder.HostToNetwork | src/bytes_order.h:100-113 | the byte assignments produce the eight low-order bytes, least significant first |
| ByteOrder.Digits | src/bytes_order.h:100-113 | the encoded bytes are the base-256 digits of the number |
| ByteOrder.RoundTrip | src/bytes_order.h:100-129 | decoding an encoded number replaces its top byte by the next one; it is the identity if and only if they agree, hence below 2^48 |
| ByteOrder.RoundTripFails | src/bytes_order.h:115-123 | 2^48 and 2^56 do not survive the codec |
| Framing.DeframeAppend | src/tcp_messager.cc:260-303 | reading a stream in two parts delivers the same messages as reading it at once |
| Framing.AnyFrame | src/tcp_messager.cc:260-303 | any header and the body it announces are read as one message, an incomplete header or body as none |
| Framing.FramingRoundTrip | src/tcp_messager.h:38-53 | the frames of any messages are read back as exactly those messages, in order, if and only if every length survives the codec, and then nothing is left |
| Framing.FramingPrefix | src/tcp_messager.cc:73-103 | any prefix of the stream yields a prefix of the messages |
| Framing.FrameExact | src/tcp_messager.h:38-53 | one frame is read back as its message if and only if its length survives the codec |
| Framing.Packet.EncodeData | src/tcp_messager.h:38-43 | the packet holds length and message, and its size counts both |
| Framing.Reader.Take | src/tcp_messager.cc:73-103 | bytes for the outstanding read, decoded and stored through the packet being received, keep "delivered exactly the complete messages received" |
| Framing.Reader.Feed | src/tcp_messager.cc:260-303 | the same for any chunk |
| Framing.ReadChunks | src/tcp_messager.cc:260-303 | every chunking of a stream delivers the same messages |
| WriteQueue.AlwaysDisciplined | src/tcp_messager.cc:50-60 | in every run of an open socket one write is outstanding exactly while the queue is non-empty, and accepted packets are those done followed by those queued |
| WriteQueue.SenderLog | src/tcp_messager.cc:50-118 | in every run each message handed over is accepted in order, one is done per completed write, and the socket is open exactly until a close or a failed write |
| WriteQueue.AfterShut | src/tcp_messager.cc:105-230 | from a close on the master has lost what was queued and the slave has kept it, later messages are queued behind it, nothing is taken out, and a write is started only for a message that finds the queue empty |
| WriteQueue.LateMessage | src/tcp_messager.cc:50-230 | a run with a message and a write error after the close, for both roles |
| WriteQueue.ChannelIsFifo | src/tcp_messager.cc:173-322 | bytes on the wire while a socket was open, received at any later time, closed or not, in any chunks, are read as a prefix of what was queued, and as all of it if the queue had run empty |
| WriteQueue.SendQueue.Push | src/tcp_messager.cc:193-207 | a message is queued as an encoded packet, and its frame goes to the socket only if no write was in progress |
| WriteQueue.SendQueue.Close | src/tcp_messager.cc:210-230 | closing is done once; the master drops the queue and the slave keeps it (see `AfterShut`) |
| WriteQueue.SendQueue.OnWritten | src/tcp_messager.cc:105-118 | a completed write pops the front and hands the next frame to the socket; a failed one closes |
| Payload.DocumentedLayout | src/tcp_manager.cc:30-56 | the three message types have the documented fields at the documented offsets |
| Payload.PayloadRoundTrip | src/tcp_manager.cc:108-148 | parsing a built message returns its fields and consumes exactly the packet if and only if its id and lengths survive the codec |
| Payload.ParseExact | src/tcp_manager.cc:58-149 | any packet at all is dispatched if and only if it starts with a complete message of a type that side knows, whatever follows, and ignored if and only if its type is another |
| Payload.ReadAtMaster | src/tcp_manager.cc:58-82 | the cursor over the packet yields a join, ignores other types, and says when a read would leave the packet |
| Payload.ReadAtSlave | src/tcp_manager.cc:108-149 | the same for recognitions and updates |
| TypedChannel.ContentsArrive | src/tcp_manager.h:47-65 | what a receiver parses, also after the sender closed, are the first contents sent, in order and unchanged |
| Nodes.WakeUp | src/user_fs.cc:244-276 | over any callbacks, each recognition posts the semaphore once, the disconnections at most once together and only before any recognition, and the main thread waits exactly until one of the two kinds comes |
| StartUp.RoutesIff | src/user_fs.cc:137-141 | at any time an id given out leads to its own record if and only if the push has come and no id, or only smaller ones, were given out before it; an earlier id leads to the next id's record, and the newest earlier one to none and then to the master's |
| StartUp.AlignedIffPushedFirst | src/user_fs.cc:137-141 | over all runs of joins, leaves and the push, every id leads to its record if and only if the push precedes the first join |
| StartUp.HostsAgreeIff | src/user_fs.cc:137-226 | over all such runs a drained member connected at both ends has the master's tree, and the master's host table if and only if the push has not come or a join or leave has come since; otherwise it lacks exactly the pushed record |
| StartUp.LostShowsOwn | src/user_fs.cc:263-268 | over all such runs a slave that lost its link shows entries of its own only |
| StartUp.PushedIsInitial | src/user_fs.cc:125-141 | pushed first, the master is the one the group's runs start from |
| UserFileSystem.MasterMessager.BroadcastNow | src/tcp_messager.cc:179-189 | the loop queues the packet on every open connection and on no other |
| UserFileSystem.MasterMessager.RunOne | src/tcp_messager.cc:173-207 | the oldest handler runs as in the step system |
| UserFileSystem.UserFS.constructor | src/user_fs.h:29-30 | the initial fields, with the node's own record at index 0 only |
| UserFileSystem.UserFS.PushMasterHost | src/user_fs.cc:139-141 | the record is pushed again; before the first join this establishes the master's invariant |
| UserFileSystem.UserFS.SendUpdate | src/user_fs.cc:204-226 | the current view is posted to all |
| UserFileSystem.UserFS.OnSlaveLost | src/user_fs.cc:282-296 | a member's subtrees go, its id is cleared and the view announced; without a member nothing happens; the invariant stays |
| UserFileSystem.UserFS.CloseConnection | src/tcp_messager.cc:210-230 | an open connection is closed, emptied and left; a closed one is not touched; the invariant stays |
| UserFileSystem.UserFS.OnNewConnection | src/user_fs.cc:299-361 | a reported conflict closes the connection, otherwise the slave is admitted; either way the master's sound views, ordered handlers and id bounds stay |
| UserFileSystem.UserFS.AdmitSlave | src/user_fs.cc:318-360 | id, record, tags, merge, recognition and announcement, as in the step system |
| UserFileSystem.UserFS.OnAccepted | src/tcp_messager.cc:232-252 | accepting adds a connection without a member and keeps the master's invariant |
| UserFileSystem.UserFS.RunHandler | src/tcp_messager.cc:173-207 | running the oldest handler keeps the master's invariant, and that handler names a known connection |
| UserFileSystem.UserFS.OnWriteDone | src/tcp_messager.cc:314-318 | a completed write takes out the front packet and keeps the master's invariant |
| UserFileSystem.UserFS.UpdateInfo | src/user_fs.cc:250-259 | the view is installed |
| UserFileSystem.UserFS.SlaveRecognized | src/user_fs.cc:231-247 | id and view are installed and the main thread is woken |
| UserFileSystem.UserFS.OnPacketRead | src/tcp_manager.cc:115-148 | each kind of packet reaches its callback |
| UserFileSystem.UserFS.OnMasterLost | src/user_fs.cc:263-276 | only own nodes stay, and a waiting main thread is woken |
| UserFileSystem.UserFS.Route | src/user_fs.cc:176-184 | a missing session is created from the current record, a present one is reused |
| Membership.Always | src/user_fs.cc:204-361 | every reachable state satisfies the invariant |
| Theorems.ReplicaAgreement | src/user_fs.cc:204-361 | in every run a drained member, connected at both ends, knows its id and holds exactly the master's tree and hosts |
| Theorems.RecognisedIsMember | src/user_fs.cc:231-247 | a recognised slave has the id of its connection as long as that is open |
| Theorems.TimeOfView | src/user_fs.cc:282-361 | each view in the history is the one the master held at its time, in order of time |
| Theorems.OrderedViews | src/user_fs.cc:231-259 | every view a slave installs is one the master held, installed in the master's order, with a host table that only grows |
| Convergence.SettlesInBoundedTime | src/tcp_messager.cc:173-207 | without joins, leaves and failures the packets under way run out in a bounded number of steps, in any order, and the master's view stays |
| Convergence.CanSettle | src/tcp_messager.cc:173-322 | from every reachable state packet steps alone lead to a state in which nothing can move |
| Convergence.SettledAgrees | src/user_fs.cc:204-259 | once nothing can move, every member connected at both ends agrees with the master |
| Convergence.MembersConverge | src/user_fs.cc:204-259 | whichever packet steps lead to a state in which nothing can move, every member now connected at both ends then holds the view the master has now |
| OwnershipTheorems.ExactMembers | src/user_fs.cc:282-335 | the master's tree is exactly its start tree and the surviving entries of the connections with a slave id, for both conflict checks |
| OwnershipTheorems.Disjoint | src/user_fs.cc:282-335 | these contributions share no name |
| OwnershipTheorems.IncrementalIsRebuilt | src/user_fs.cc:282-335 | the tree kept up to date join by join and leave by leave equals the one rebuilt from the present members |
| OwnershipTheorems.IntendedLosesNothing | src/user_fs.cc:306-315 | with the intended check no join loses an entry |
| OwnershipTheorems.VisibleIffNoClash | src/user_fs.cc:306-335 | a member is fully visible if and only if none of its names was taken when it joined |
| OwnershipTheorems.ExactUnion | src/user_fs.cc:282-335 | with the intended check the master's tree is the union of its start tree and the re-tagged submissions of exactly the connections with a slave id |
| OwnershipTheorems.DeepOwnership | src/dir_tree.cc:26-32 | in every reachable tree a node at any depth belongs to the master or to a present member |
| OwnershipTheorems.DepartedIsGone | src/user_fs.cc:282-296 | a host that has left owns no node at any depth and no lookup finds one |
| RoutingTheorems.SafeRoutingAtMaster | src/user_fs.cc:176-187 | the table has as many records as ids, each at its id, and every file found is routed to the record of the host that submitted it |
| RoutingTheorems.SafeRoutingAtSlave | src/user_fs.cc:176-187 | on a slave in any phase every lookup hits the record with that id, and once it has heard from the master that is the submitter's |
| RoutingTheorems.SessionCoherence | src/ssh_manager.h:30-48 | every cached session of a host present in the tree has the address and port of the current table |
| FileReads.ReadAtMasterCaches | src/user_fs.cc:176-184 | in every run reading a file leaves a session for its owner with the address and port of the current record and the other sessions as they were; reading a directory or a missing path changes nothing |
| FileReads.ReadAtSlaveCaches | src/user_fs.cc:176-184 | the same on every slave in any phase |
| FileReads.SessionsKept | src/ssh_manager.h:30-41 | no step drops or replaces a session, and only a read at a node adds one there |
| FileReads.SessionsStay | src/ssh_manager.h:30-41 | over a run what was cached at any time is still cached unchanged |
| Delivery.HandlerStep | src/tcp_messager.cc:173-207 | a broadcast is appended to every open queue and to no closed one; a packet for one connection is appended there, open or not, and nowhere else |
| Delivery.ErrorStep | src/tcp_messager.cc:210-230 | a failure closes an open connection with an empty queue and leaves the others alone; the next failure changes nothing |
| Delivery.ClosesIff | src/tcp_messager.cc:210-303 | a connection is closed exactly by its own failure or the rejection of its own request, with an empty queue, and never opened again |
| Delivery.NothingLost | src/tcp_messager.cc:173-322 | in every run, while a connection is open, what is installed, on the wire and queued are exactly the packets offered since it was accepted, in order |
| Delivery.AfterClose | src/tcp_messager.cc:193-230 | in every run, after the close nothing more is sent and the queue holds exactly the packets for that connection by name whose handlers ran since, so no broadcast |
| Delivery.WhenClosed | src/tcp_messager.cc:210-230 | every closed connection was open until some step closed it |
| RoutingTheorems.Fallback | src/user_fs.cc:263-268 | after a disconnection a recognised slave shows exactly its surviving entries, which are all it submitted if and only if its join lost nothing |
| RoutingTheorems.UnrecognisedFallback | src/user_fs.cc:263-268 | after a disconnection a slave never recognised has its own tree if and only if no broadcast reached it or it had nothing |
| RoutingTheorems.LateRead | src/tcp_messager.cc:93-117 | a read handled after the slave's own close shows the whole view, is the last, and the next failure leaves the slave with its own entries |
| RoutingTheorems.SubmitsOwn | src/user_fs.cc:144-161 | a slave submits its own scan and record if and only if it has installed no broadcast |
| Accounting.EachChangeIsBroadcast | src/user_fs.cc:282-361 | a step is a join or a leave if and only if it posts exactly one broadcast, of the new view; in any other step tree, hosts and posted broadcasts stay |
| Accounting.AnnouncedIsChanges | src/user_fs.cc:282-361 | over a run as many broadcasts are posted as there were joins and leaves |
| Accounting.Conservation | src/user_fs.cc:282-361 | views held equal one plus joins plus leaves, and ids given out equal joins |
| Accounting.OneDeparture | src/tcp_messager.cc:210-230 | a connection departs at most once, only after joining, and is then closed |
| Accounting.RejectedJoin | src/user_fs.cc:306-315 | a rejected join closes its connection, if still open, empties its queue, and changes nothing else |
| Accounting.IdsNeverReused | src/user_fs.cc:320-325 | ids are distinct, stay with their connection, and their records stay in the table |
| Accounting.OwnFilesBack | src/user_fs.cc:231-268 | with the intended check a slave that submitted in time and was recognised shows exactly its own files after a disconnection |
| Accounting.StrandedIff | src/tcp_messager.cc:292-298 | a member is stranded exactly when its request is handled, without conflict, after its connection was closed |
| Accounting.StrandedForever | src/tcp_messager.cc:210-230 | a stranded member keeps its id for the rest of the run, and every later tree holds exactly the entries it had |
| Scenarios.HealthyJoin | src/user_fs.cc:299-361 | a run, with either check, that makes a slave a connected, drained member in agreement |
| Scenarios.HiddenFile | src/dir_tree.cc:46-51 | a run with the written check: all packets have arrived, the host it clashed with has left, and a connected member's file is neither in the master's tree nor in its own |
| Scenarios.StrandedRun | src/tcp_messager.cc:292-320 | a run in which the write of a broadcast fails while the join request of the same connection waits to be handled: the member is stranded |
| Scenarios.LateReadRun | src/tcp_messager.cc:93-117 | a run in which a slave handles a read after its own close and shows the whole view |
| Scenarios.WipedSlave | src/tcp_messager.cc:179-189 | a run that leaves an unrecognised slave without its own file |
| Scenarios.BorrowedSubmission | src/user_fs.cc:137-161 | a run in which a slave submits the master's tree |
| Scenarios.MisroutedRun | src/user_fs.cc:137-141 | a run with a join before the push: the new id first has no record, then the master's, and the master's id the slave's |
| Scenarios.StaleTable | src/user_fs.cc:137-141 | a run after which a drained member lacks the record that was pushed |

## Left out

- Boost text archives (`serialize`/`deserialize`): the protocol layer passes typed values and the wire layer opaque byte strings.
- Sockets, resolver, acceptor and thread start-up: present only as steps that may happen or fail.
- Splitting a path string into components, which Boost does: `Find` takes the components.
- The scan of the working directory in `initDirTree`: a start tree is any well-formed tree of one owner.
- SSH and SFTP transfer and local file reads: only the choice of host record and session is modelled.
- FUSE callbacks other than that directories are not read.
- The 16- and 32-bit integer codecs, which nothing in the protocol uses.
- 64-bit wrap-around of host ids: ids are unbounded naturals.
- Unlocked reads of the tree and the host table from FUSE threads, and the lifetime of nodes returned by `find`.
- Partial writes in the protocol layer: there a packet leaves the queue and reaches the wire in one step; the wire layer covers partial writes.
- Payload.ReadAtMaster: where the source would read past the packet the model returns `Overrun`.
- Payload.ReadAtSlave: where the source would read past the packet the model returns `Overrun`.
- Command line, process start-up and build files.
