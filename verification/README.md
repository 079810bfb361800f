# A verified model of nsblast

nsblast is an authoritative DNS server. A primary keeps zones in an ordered
key-value database, raises a zone's serial with every update, answers incremental
zone transfers from stored difference blocks, and replicates each committed
transaction to its followers. This project models that core in Dafny and proves what
it is meant to guarantee. `dafny verify dfyconfig.toml` checks everything.

## What is modelled

**Replication** (`Transactions`, `Sessions`, `Cluster`, `Landings`, `Deliveries`, `Copies`,
`ClusterTheorems`, `CatchUp`, `Confirmations`, `Replication`). A primary and any number of followers are one
step machine. A step is one section that the source runs under a lock, or one event that
the storage engine or the transport delivers: a commit takes its id, lands in the log or
fails, is announced by its callback; a posted task, one visit of a log scan, a completed
write, a received update, an acknowledgement, a broken stream, a reconnect (also one that
leaves the old session running), a restart of the primary or of a follower. Every finite
list of steps is a run. Ids are issued before commits land, so commits may land, and be
announced, in another order than that of their ids. `Replication` has the source's objects
with their fields; each method is proved to be the step of the machine.

**Incremental transfer** (`Differences`, `Blocks`, `Zones`, `Ixfr`, `OldClients`). How a
request becomes the new content of an entry, how the difference between two stored entries
is computed, how an update writes the new SOA and the bytes of one block, how `doIxfr`
reads the blocks back and answers, and how a client with the stages of
`handleIxfrPayloads` takes the answer apart.

**Codec, keys and indexes** (`Bytes`, `Labels`, `Names`, `Storage`, `Entries`, `Builders`,
`StoredEntries`, `Keys`, `Scans`, `Paging`, `Lookup`, `Caches`). The label parser with
compression pointers, the label iterator, the stored form of an entry with an owner for
each record, the database keys and their byte order, the scans and pages over them, the
zone lookup with its shortcut, and the session cache.

One assumption about the environment is part of the replication model: two transactions
that are open at the same time write no common key. These are the write locks that the
comment in `handleTrxLog` (src/lib/RocksDbResource.cpp:450-478) relies on.

A theorem that speaks of `Possible` states is about all runs. Nothing in the source makes
commits land, or be announced, in the order of their ids; a theorem that speaks of
`Reachable` states is about the runs in which they do.

## Main results

- In every run, whatever the order of commits: ids are unique and the entries are the
  replay of the log (`IdsAreUnique`), no queue loses or reorders anything
  (`QueueConserves`), no catching-up agent is forgotten (`NoLostWakeup`), nothing is
  confirmed that the follower has not committed (`ConfirmedIsCommitted`).
- Exactly when what a session accepts is a gap-free prefix of the primary's log: if and only
  if every step of the session meets a condition that can be checked before the step
  (`StepKeepsPrefixIff`, `RunKeepsPrefixIff`). A landing must have a larger id than
  anything the client accepted; what a callback or a scan delivers must come next in the
  log. Landing and announcing in order is enough (`AcceptedIsGapFree`). Three runs show
  the three ways to break it: `LateLandingIsLost`, `EarlyCallbackIsAGap`,
  `OldSnapshotIsAGap`.
- A commit that lands when the agent's position is at its id or past it is lost to that
  session, whatever happens afterwards (`LateLandingIsMissed`, `RunStaysMissed`). The
  position counts, not the last accepted id: `LateIsStillDelivered`. The next session brings
  it: from every state of every run a follower can be led to exactly the primary's entries
  and log (`CanAlwaysConverge`).
- In every run, a gap-free session leaves the follower with exactly the primary's store and
  log up to the last applied id, unless it holds something beyond that from an earlier
  session (`FollowerMirrorsPrimary`), and its acknowledgements are safe (`AcksAreSafe`).
  What is published is durable at every follower whose copy has no gap
  (`PublishedIsDurable`); `StepKeepsGaplessIff` says exactly which steps keep it so.
- In order, a session that catches up gets the whole log by its own steps if and only if it
  is not stuck with an old snapshot that its queue has room for (`SessionCatchesUpIff`). It
  then completes the replication without being broken: the follower has the whole log, the
  primary knows, and it is published unless another streaming agent has confirmed less
  (`ReplicationCompletes`).
- In every run, a callback makes a streaming agent fall back to the log if and only if the
  agent is not at the announced position, or its queue is full with the new transaction
  (`CallbackFallsBackIff`). A task scans exactly what is logged after the agent's position
  (`TaskScansTheRest`); a scan that nothing disturbs hands over all of it, or stops at the
  first transaction for which there is no room (`ScanRestFits`, `ScanRestStops`).
- A streaming agent is *not* always up to date. `StreamingCanBeBehind` is a run in which
  it never gets an announced transaction by itself. In order, `ScanEndIsCurrentIff` says
  exactly when the end of a scan leaves it current, and `AnnouncedIsAccepted` that the next
  commit repairs it.
- In every history of updates that kept copies, the reply to an IXFR request, read from the
  stored bytes of the blocks, turns the client's version into the current one (`IxfrIsExact`), also from
  serial zero and when the first block is the one that made the client's version. A client
  older than the zone gets a wrong zone unless every record in which it differs from the
  zone's first version occurs in some block (`OldClientIsExactIff`); `OldClientGoesWrong`
  is such a run. Every other request is answered as the state says (`AnswerIsRight`), and an
  up-to-date client keeps its data and learns the serial (`CurrentClientStays`).
- Every request for a record set leaves exactly the content that its verb asks for, or is
  refused for a stated reason and without effect (`OnResourceRecord`, `RequestIsServed`).
- `Labels::parse` accepts a name if and only if its headers, one leading to the next, end at
  a root, with at most 15 pointers in a row, no place the target of two pointers, and a text
  of at most 254 bytes (`ParsesNamesIff`). Labels followed by a pointer to a written name are
  read as both (`CompressedRoundTrip`).
- The difference of two entries is correct if and only if no record keeps some but not all
  of its copies (`CreateDiff`); `SecondCopyTakesTheFirst` is a concrete failure.
- Every list of records, with their owners, survives building, sorting and reading
  (`StoredEntryReads`), and so does a difference block with its two SOAs (`WriteBlock`).
  `finish` fails if and only if it sorts two or more records of which one has a type of 255
  or more (`FinishFailsIff`, `OutsideTableIsRefused`). The copy of the apex differs in the
  serial only (`CopyAndIncrement`).
- The zone lookup refines the plain walk, which finds the enclosing zone with the longest
  name (`LookupEntryAndSoa`, `NearestIsZone`). A new zone keeps that
  true if and only if it captures no stored name (`NewApexKeepsLookupsIff`); the source
  does not check this, and `CapturedLeafIsMisplaced` is a concrete failure.
- The cache refines a most-recent-first list (`Caches.Lru.*`, `RunExplained`,
  `Retained`), and a key that is there was stored after the last time that it was erased or
  the cache was cleared (`PresentIsStored`), except that `emplace` of a key that is there breaks it: map and list agree
  afterwards if and only if the key was missing.

Where the code and its comments differ, the model follows the code: `Entry::getSoa`
searches for a SOA but returns the first record (`GetSoa`, `SoaIsFirst`); `enqueue`
reports a full queue only after it has taken the update, so that a full queue costs a
repeated delivery and never a lost one; `TYPE_PTR` is 11 in include/nsblast/nsblast.h:284,
so that is the type that PATCH may append to.

## Model

| member | source | states |
|---|---|---|
| Transactions.ApplyPartsLastWins | src/lib/FollowerReplication.cpp:71-105 | Replaying a transaction gives each key exactly what the last part naming it says. |
| Transactions.ApplyPartsApplies | src/lib/FollowerReplication.cpp:71-105 | After replaying, a key that some part names has what the last of them says, by its place in the list, and every other key what it had. |
| Transactions.ReplayConverges | src/lib/PrimaryReplication.cpp:157-181 | Reconnect convergence: replaying the first n logged transactions over a store that already holds the first m <= n ends in exactly the state after n, for all logs. |
| Transactions.InsertReplay | src/lib/RocksDbResource.cpp:416-478 | A transaction that lands late, and shares no key with the later ones, has the effect it would have had in the order of the ids. |
| Sessions.EnqueueInv | src/lib/GrpcPrimary.cpp:123-143 | Accepting an update keeps "written, in flight, queued = accepted" and leaves a write in flight; a finished client takes nothing. |
| Sessions.WriteDoneInv | src/lib/GrpcPrimary.cpp:181-202 | A completed write loses and reorders nothing, and if it leaves the stream idle the agent is told that the queue is empty. |
| Sessions.FirstAfterIdAt | src/lib/PrimaryReplication.cpp:153-181 | A scan from the id of the k-th transaction starts at exactly the next one. |
| Cluster.TaskStep | src/lib/PrimaryReplication.cpp:249-277 | A posted task that starts a scan resumes at the agent's position, so nothing accepted so far is skipped. |
| Cluster.FeedStep | src/lib/PrimaryReplication.cpp:153-190 | A visit of the scan keeps the accepted updates a gap-free prefix; a full queue stops it one transaction ahead of the agent's id, to be repeated later. |
| Cluster.PushStep | src/lib/PrimaryReplication.cpp:288-312 | A push happens only when the agent has everything before the new transaction, so it leaves no gap; otherwise the agent falls back to the log with a task posted. |
| Cluster.MirrorApply | src/lib/FollowerReplication.cpp:71-105 | Applying the next log entry, or the last one again, keeps the follower's store and log equal to the primary's up to there. |
| Cluster.CheckAgentsRaises | src/lib/PrimaryReplication.cpp:120-142 | The published id never falls here; when it rises it is the smallest id confirmed by a streaming agent. |
| Cluster.StepInv | src/lib/PrimaryReplication.cpp:54-83 | Every step of primary, transport and followers that lands or announces commits in order preserves the whole invariant: log, queues, agents, mirrors, acknowledgements. |
| Cluster.RunInv | src/lib/PrimaryReplication.cpp:54-83 | The invariant holds after every run in order. |
| Cluster.StepLog | src/lib/RocksDbResource.cpp:416-478 | Every step, in whatever order commits land, keeps the log ascending, the open ids apart from it, and the entries the replay of the log. |
| Cluster.ConnectBeside | src/lib/PrimaryReplication.cpp:43-52 | A follower that opens a new stream while its old session lives keeps the invariant of both. |
| Landings.LandingKeepsPrefixIff | src/lib/RocksDbResource.cpp:416-478 | In every run, a landing leaves what a client accepted a prefix of the log if and only if its id is larger than the last id that the client accepted. |
| Deliveries.StepKeepsPrefixIff | src/lib/PrimaryReplication.cpp:54-83 | In every run, a step of any kind leaves what a client accepted a prefix of the log if and only if a landing has a larger id than the last accepted one, and a delivered transaction is that one again or the next of the log. |
| Deliveries.GapStays | src/lib/PrimaryReplication.cpp:153-190 | In every run, a gap in what a client accepted never closes within the session. |
| Deliveries.RunKeepsPrefixIff | src/lib/PrimaryReplication.cpp:288-312 | Over any list of steps within a session, what the client accepted stays a prefix of the log if and only if every step meets the condition. |
| Deliveries.StaysMissed | src/lib/PrimaryReplication.cpp:153-190 | In every run, a transaction that is not accepted and not above the agent's position is never accepted in that session, by whatever step. |
| Deliveries.LateLandingIsMissed | src/lib/RocksDbResource.cpp:450-478 | A commit that lands at or below the agent's position is not accepted by any continuation of the session. |
| Landings.LateLandingIsLost | src/lib/RocksDbResource.cpp:450-478 | A run in which a transaction that lands late never reaches a streaming follower, while a larger id is published. |
| Landings.OldSnapshotIsAGap | src/lib/PrimaryReplication.cpp:153-190 | A run without any callback in which a scan over an old snapshot leaves a gap. |
| Landings.LateIsStillDelivered | src/lib/PrimaryReplication.cpp:153-190 | A run in which a transaction lands below the last accepted id, but above the agent's position, and is delivered out of order. |
| Landings.EarlyCallbackIsAGap | src/lib/PrimaryReplication.cpp:54-83 | A run in which commits land in order and the second is announced first: the follower misses the first. |
| ClusterTheorems.AcceptedIsGapFree | src/lib/PrimaryReplication.cpp:288-312 | In every state reached in order the updates a client accepted, repeats collapsed, are a prefix of the log, also after restarts over a non-empty log; the exact condition is Deliveries.RunKeepsPrefixIff. |
| ClusterTheorems.QueueConserves | src/lib/GrpcPrimary.cpp:188-202 | In every run written, then the one write in flight, then the queue, are the accepted updates in order; nothing is queued without a write in flight. |
| ClusterTheorems.NoLostWakeup | src/lib/PrimaryReplication.cpp:234-277 | In every run a catching-up agent of a live client has a running scan, a posted task, or a write in flight whose completion posts one. |
| ClusterTheorems.IdsAreUnique | src/lib/RocksDbResource.cpp:416-478 | In every run, over failed commits, late landings and restarts, the logged ids ascend strictly, no open id is logged, every new id is larger than all, and the entries are the replay of the log. |
| Copies.CollapseSaysTheSame | src/lib/FollowerReplication.cpp:71-105 | Applying a transaction again directly after itself changes nothing. |
| Copies.CopiedStore | src/lib/FollowerReplication.cpp:71-105 | A copy that has read the log up to some point, and has nothing beyond, has exactly the entries as of that point. |
| Copies.StepKeepsGaplessIff | src/lib/FollowerReplication.cpp:71-105 | In every run, a step leaves the follower's log without a gap if and only if a landing is above all of it, and what the follower commits has everything before it there. |
| ClusterTheorems.FollowerMirrorsPrimary | src/lib/FollowerReplication.cpp:71-105 | In every run, in a gap-free session, the follower's log is the primary's up to the last applied transaction if and only if it has nothing beyond; then its entries are the primary's as of there. In a first session that is always. |
| ClusterTheorems.CaughtUpMirrorsPrimary | src/lib/FollowerReplication.cpp:71-105 | In order, entries and log are the primary's once a session has delivered as much as the follower held before it. |
| ClusterTheorems.AcksAreSafe | src/lib/PrimaryReplication.cpp:223-232 | In every run, in a gap-free session applied <= accepted, what is confirmed is committed, and in a first session confirmed <= applied. |
| ClusterTheorems.HeldIsLogged | src/lib/PrimaryReplication.cpp:223-232 | In order, a follower holds a prefix of the log over all its sessions, and no id beyond it is confirmed. |
| ClusterTheorems.ConfirmedIsCommitted | src/lib/PrimaryReplication.cpp:223-232 | In every run, in whatever order commits land, no id is confirmed that the follower has not committed. |
| ClusterTheorems.PublishedIsDurable | src/lib/PrimaryReplication.cpp:36-41 | In every run, at a step that raises the published id, every follower of a streaming agent whose log has no gap holds every transaction up to it; only a restart lowers it. |
| ClusterTheorems.OrderlyPublishing | src/lib/PrimaryReplication.cpp:36-41 | In order, every follower of a streaming agent does. |
| ClusterTheorems.CanAlwaysConverge | src/lib/PrimaryReplication.cpp:153-190 | From every state of every run a follower can be led, by a reconnect and without another commit, to exactly the primary's entries and log, streaming; also after late landings. |
| CatchUp.SessionCatchesUp | src/lib/PrimaryReplication.cpp:153-190 | From every state reached in order a live session that is catching up, with no scan, one over the whole log, or one that the full queue stops, gets by its own steps to streaming with the whole log accepted and committed. |
| CatchUp.OldSnapshotStaysBehind | src/lib/PrimaryReplication.cpp:153-190 | In order, a session with an older snapshot that the queue has room for gets the whole log by no steps of its own. |
| CatchUp.SessionCatchesUpIff | src/lib/PrimaryReplication.cpp:153-190 | In order, a live session that is catching up can get the whole log by its own steps if and only if it is not stuck that way. |
| Confirmations.CurrentIsLastRead | src/lib/FollowerReplication.cpp:35-66 | In every run, a follower that has recorded all it read in its session is at the id of the last update that it read. |
| Confirmations.ConnectReports | src/lib/GrpcPrimary.cpp:156-179 | A new session confirms what the follower last recorded, or after a restart the largest id of its log, and starts with a task posted, at position 0 and with nothing queued. |
| Confirmations.ConfirmationArrives | src/lib/PrimaryReplication.cpp:223-232 | From every state, a live session confirms what its follower has recorded by steps of its own that break nothing, and then nothing that all streaming agents have confirmed is unpublished. |
| Confirmations.ReplicationCompletes | src/lib/PrimaryReplication.cpp:153-232 | From every state reached in order, a live session that is catching up and not stuck gets, unbroken, to the follower having the whole log and the primary having its last id confirmed; it is published unless another streaming agent has confirmed less. |
| ClusterTheorems.CallbackSettles | src/lib/PrimaryReplication.cpp:54-83 | In every run, after the callback of a newer commit each live streaming agent has it as the last update, and if gap-free exactly what is logged up to it; any other has work pending. |
| ClusterTheorems.CallbackFallsBackIff | src/lib/PrimaryReplication.cpp:288-312 | In every run, the callback of a newer commit leaves an agent that does not stream alone; one that streams from another position falls back to the log with a task posted and takes nothing; one at the announced position takes the transaction, and falls back if and only if more than the queue limit then waits behind the write in flight. |
| ClusterTheorems.CallbackToFinished | src/lib/GrpcPrimary.cpp:123-143 | In every run, a streaming agent whose client is finished takes nothing from a callback and falls back to the log. |
| ClusterTheorems.OldCallbackIsIgnored | src/lib/PrimaryReplication.cpp:54-83 | The callback of a commit that is not newer than the last announced one changes nothing but the list of waiting callbacks. |
| ClusterTheorems.TaskScansTheRest | src/lib/PrimaryReplication.cpp:153-277 | In every run, a task is used up and starts a scan if and only if the agent is catching up; the scan is over exactly the logged transactions after the agent's position, ascending. |
| ClusterTheorems.RestartResumes | src/lib/RocksDbResource.cpp:628-643 | In every run, a primary that starts again has its log and the entries that the log gives, continues after the last logged id, and has no open transaction, callback or live session. |
| ClusterTheorems.AnnouncedIsAccepted | src/lib/PrimaryReplication.cpp:54-83 | In order, each live streaming agent has then accepted exactly the announced transactions. |
| ClusterTheorems.ScanEndReaches | src/lib/PrimaryReplication.cpp:166-190 | In every run, an agent that finishes a scan streams, and if gap-free its client has exactly what is logged up to the agent's position. |
| ClusterTheorems.ScanEndIsCurrentIff | src/lib/PrimaryReplication.cpp:166-190 | In order, an agent that finishes a scan streams, and has every announced transaction if and only if none was announced after the scan's snapshot. |
| ClusterTheorems.StreamingIsQuiet | src/lib/PrimaryReplication.cpp:249-277 | A streaming agent accepts nothing by anything that its own session does. |
| ClusterTheorems.StreamingCanBeBehind | src/lib/PrimaryReplication.cpp:166-190 | A reachable state in which a streaming agent lacks an announced transaction and never gets it without another commit. |
| ClusterTheorems.LateLandingStaysLost | src/lib/RocksDbResource.cpp:450-478 | In that run nothing that lands, is announced or happens until a reconnect brings what the late landing lost. |
| Replication.SyncClient.Flush | src/lib/GrpcPrimary.cpp:188-202 | In place, the flush step: a write starts only when none is in flight, and an empty queue is reported once. |
| Replication.SyncClient.Enqueue | src/lib/GrpcPrimary.cpp:123-143 | In place, the enqueue step: the update is last of those in flight and queued, and the verdict is whether the rest fits the queue limit; a finished client takes nothing. |
| Replication.SyncClient.OnWriteDone | src/lib/GrpcPrimary.cpp:181-186 | In place, the completion of a write. |
| Replication.SyncClient.OnReadFailed | src/lib/GrpcPrimary.cpp:156-179 | A failed read finishes the client and changes nothing else. |
| Replication.Agent.SetState | src/lib/PrimaryReplication.cpp:192-221 | A finished agent rejects every state change. |
| Replication.Agent.OnTrxId | src/lib/PrimaryReplication.cpp:223-232 | An acknowledgement records the confirmed id and posts a task; the publishing that follows is PrimaryReplication.OnTrxId. |
| Replication.Agent.OnTransaction | src/lib/PrimaryReplication.cpp:288-312 | In place on agent and client: an agent that does not stream is left alone; one at another position falls back with a task posted; otherwise the client takes the transaction, and the agent streams on if and only if the client is live and its queue is within the limit. |
| Replication.Agent.IterateDb | src/lib/PrimaryReplication.cpp:153-190 | The scan loop, undisturbed, is the whole scan from the agent's position until the log ends, the queue is full or the agent is done. |
| Replication.Agent.OnDone | src/lib/PrimaryReplication.cpp:240-247 | The end of the stream finishes the agent, which lets go of its client. |
| Replication.ScanRestIsSteps | src/lib/PrimaryReplication.cpp:153-190 | The whole scan is a sequence of scan steps of the machine. |
| Replication.ScanRestFits | src/lib/PrimaryReplication.cpp:153-190 | A scan that the queue has room for hands over the whole rest of the log in order, and the agent streams from its last id. |
| Replication.ScanRestStops | src/lib/PrimaryReplication.cpp:153-190 | Any other scan stops with the first transaction for which there is no room: that one is accepted, but the agent's position stays before it and it goes on catching up. |
| Replication.ScanRestOfFinished | src/lib/GrpcPrimary.cpp:123-143 | A finished client takes nothing from a scan. |
| Replication.PrimaryReplication.OnTransaction | src/lib/PrimaryReplication.cpp:54-83 | Only a newer id is announced, and then every agent, with its own client, makes the push step from the same previous id. |
| Replication.PrimaryReplication.GetMinTrxIdForAllAgents | src/lib/PrimaryReplication.cpp:120-142 | The published id rises to the smallest confirmed id of the streaming agents or stays, and the result tells which. |
| Replication.PrimaryReplication.OnTrxId | src/lib/PrimaryReplication.cpp:223-232 | In place, an acknowledgement with the check of all agents: the published id rises to the smallest confirmed id of the streaming agents, or stays. |
| Replication.Database.HandleTrxLog | src/lib/RocksDbResource.cpp:450-478 | A transaction with parts takes a new id before it is committed; one without takes none. |
| Replication.Database.Commit | src/lib/RocksDbResource.cpp:416-438 | A commit that succeeds gives each key what its last part says, and puts the transaction into the log in the place of its id; a failed one leaves entries and log as they were. Either way the id is no longer open. |
| Replication.FollowerAgent.OnUpdate | src/lib/FollowerReplication.cpp:71-105 | The update handler's loop makes the receive step: each key gets what the last part that names it says, the transaction is logged and its id recorded. |
| Bytes.BigEndianRoundTrip | include/nsblast/util.h:129-157 | Numbers written in network order are read back. |
| Bytes.BigEndianOrder | include/nsblast/util.h:149-157 | The byte order of such numbers is their numeric order. |
| Keys.InitKey | src/lib/ResourceIf.cpp:204-222 | Building a key, with its in-place reversal, gives class, name (reversed for some classes) and version. |
| Keys.DecodeNameKey | src/lib/ResourceIf.cpp:99-134 | The name and serial of a key are recovered from it. |
| Keys.TrxKeyOrder | src/lib/ResourceIf.cpp:224-234 | Transaction keys are ordered as their ids. |
| Keys.LastTrxKey | src/lib/RocksDbResource.cpp:628-643 | The last key of the log family is the key of the largest id. |
| Keys.SameFqdnIsSameZone | src/lib/ResourceIf.cpp:136-155 | Two block keys have the same fqdn if and only if they are of the same zone. |
| Keys.DiffKeysContiguous | src/lib/ResourceIf.cpp:204-222 | Whatever lies between two blocks of a zone is a block of that zone, also when zone names are prefixes of each other. |
| Scans.IterateDiffs | src/lib/RocksDbResource.h:101-114 | Seeking to (zone, serial) and stopping at another fqdn visits exactly the wanted blocks. |
| Scans.WantedIsExact | src/lib/DnsEngine.cpp:907-962 | The wanted blocks are exactly the zone's blocks from that serial on, in ascending numeric order. |
| Scans.IterateFromPrev | src/lib/RocksDbResource.h:63-99 | Forward iteration visits exactly the keys of the same class strictly after the start key, present or not. |
| Paging.TzoneKeySplits | src/lib/ResourceIf.cpp:185-202 | Tenant and zone are recovered from their index key. |
| Paging.VisitedZones | src/lib/RestApi.cpp:2067-2149 | Stopping at the first key of another tenant loses none of the tenant's zones. |
| Paging.ListZones | src/lib/RestApi.cpp:2067-2149 | A page is the next zones of the tenant, at most as many as asked for, and "more" tells whether there are others. |
| Paging.NextPageStarts | src/lib/RestApi.cpp:67-87 | The last zone of a page leads exactly to the zones not yet seen. |
| Paging.PagingIsComplete | src/lib/RestApi.cpp:2067-2149 | Following pages of any size yields each zone after the start exactly once, in order. |
| Paging.PagingFromStart | src/lib/RestApi.cpp:2067-2149 | From the beginning, all pages together are exactly the tenant's zones, none twice. |
| Differences.SpanNamesRecord | src/lib/RestApi.cpp:165-222 | Stored records of one owner with equal bytes are equal, name form and all. |
| Differences.SetDifference | src/lib/RestApi.cpp:165-222 | The two-pointer pass over sorted records yields exactly the multiset difference, duplicates included. |
| Differences.CreateDiff | src/lib/RestApi.cpp:165-222 | For all entries, whatever name form a record has in either version: only old data is deleted, only new data added, and (old - deleted) + added = new if and only if no record keeps some but not all of its copies. Deleted is exactly the data with a stored form that is there more often before than after, added the data with one that is there more often after. |
| Differences.DifferenceIsExactIff | src/lib/RestApi.cpp:165-222 | The two multiset differences lead from the old data to the new if and only if no record is thinned out. |
| Differences.KeptIsNotThinned | src/lib/RestApi.cpp:165-222 | A record that loses no copy, or all, is not thinned out, whatever the name forms; so it is in entries without duplicates. |
| Differences.SecondCopyTakesTheFirst | src/lib/RestApi.cpp:165-222 | Two copies of a record, then one: the record is still there, and the difference deletes it. |
| Blocks.SoaRoundTrip | src/lib/DnsMessages.cpp:1601-1611 | The serial and the rest of a SOA are read back from its record. |
| Blocks.UnsortedReads | src/lib/RestApi.cpp:225-262 | Records of any owners, any number of SOAs among them, copied into an unsorted entry, read back in order with their owners. |
| Blocks.ShortBlockFits | src/lib/DnsMessages.cpp:526-595 | A block whose records have at most 65527 bytes, counting 269 for each beside its data, fits the offsets of an entry. |
| Blocks.WriteBlock | src/lib/RestApi.cpp:165-262 | Every block of valid records is written, and its bytes read as the old SOA, the deletions, the new SOA, the additions, each with its owner. |
| Blocks.RecordsAreBlock | src/lib/DnsEngine.cpp:907-962 | What is read of a stored block is what is sent of it. |
| Zones.PatchReplacesTypes | src/lib/RestApi.cpp:1666-1727 | PATCH keeps exactly the old records whose type the new ones do not mention. |
| Zones.PatchAppends | src/lib/RestApi.cpp:1666-1727 | With append, the merged entry has exactly the data of the new records and the old data of types that they do not mention or that may be appended to. |
| Zones.MergeGood | src/lib/RestApi.cpp:1666-1727 | Merging invents no record. |
| Zones.DecideGood | src/lib/RestApi.cpp:1534-1830 | What a request is accepted with can be stored: valid records under a name that can be written, and a SOA exactly at the apex. |
| Zones.BuildsIff | src/lib/RestApi.cpp:1534-1642 | The body of a request is refused exactly when the storage builder makes no sorted entry of it. |
| Zones.RequestIsServed | src/lib/RestApi.cpp:1644-1830 | What each verb does, from the records before and after: POST is refused over an entry; POST and PUT leave exactly the records of the body, the ttl limited; PUT at the apex takes the ttl, names and timers of the body's SOA; PATCH leaves the data of the body and the old data of other types, and with append that of appendable types, refused if and only if that cannot be sorted; DELETE leaves exactly the other types, or no entry. |
| Zones.UpdateBlock | src/lib/RestApi.cpp:225-262 | A correct difference of the entry leads from the zone's old data to its new data. |
| Zones.RunInv | src/lib/RestApi.cpp:1786-1812 | In every run each zone has exactly one block per version after its first, correct if all updates kept copies. |
| Zones.SerialsAreContiguous | src/lib/RestApi.cpp:1786-1812 | In every run the serials of a zone's blocks are contiguous up to the current serial, each block raising it by one and, if all updates kept copies, leading to the next version. |
| Zones.StoreIsDiffs | src/lib/RestApi.cpp:225-262 | In every run the DIFF family holds exactly the blocks, and each one that fits reads as the block. |
| Zones.ZoneStore.OnResourceRecord | src/lib/RestApi.cpp:1534-1830 | A request is refused without effect, with the code of its reason, or is one update step that leaves exactly the content that its verb asks for under the name, every other entry as it was, the serial raised by one, and one block. |
| Ixfr.FindSerial | src/lib/DnsEngine.cpp:849-985 | The client's serial is that of the last SOA in the authority section, or 0 without one. |
| Ixfr.LastSoaCounts | src/lib/DnsEngine.cpp:849-985 | Whatever comes before a SOA, and whatever other records after it, its serial is the client's. |
| Ixfr.DoIxfr | src/lib/DnsEngine.cpp:849-985 | A format error without authority section, a name error for an unknown zone, the current SOA alone for a client that is not older, a full transfer when no block from its serial on is stored, a failure when such a value cannot be sent, and otherwise the current SOA around what those values read as, in order. |
| Ixfr.AnswerIsRight | src/lib/DnsEngine.cpp:849-985 | The kind of the answer follows from the zones and the stored values alone. |
| Ixfr.SentIff | src/lib/DnsEngine.cpp:907-962 | The wanted values are sent if and only if none of them is malformed or starts with something else than a SOA. |
| Ixfr.CurrentClientStays | src/lib/DnsEngine.cpp:896-905 | A client with the current serial, or a larger one, gets exactly the current SOA; handling it keeps the client's data and records that serial. |
| Ixfr.SentIsFlatten | src/lib/DnsEngine.cpp:907-962 | What is read from the store and sent is the blocks in order, record by record, with their owners. |
| Ixfr.HandleFlatten | src/lib/Slave.cpp:573-690 | The receiver's stages take a stream of blocks apart exactly as it was put together. |
| Ixfr.FullTransferReplaces | src/lib/Slave.cpp:573-690 | A full transfer that answers an IXFR request replaces the client's data by exactly what was sent. |
| Ixfr.ReceiverRefuses | src/lib/Slave.cpp:573-690 | A record before the first SOA or after the last one, a SOA newer than the first, another serial in a full transfer, or a deletion part not followed by a newer SOA makes the transfer fail. |
| Ixfr.ApplyRange | src/lib/DnsEngine.cpp:907-962 | The blocks after a version lead to the last one, also when the block that made that version is repeated. |
| Ixfr.IxfrIsExact | src/lib/DnsEngine.cpp:849-985 | In every history that kept copies, for every client serial from the first version to the one before the current, zero included, the reply ends in exactly the current zone. |
| Ixfr.FullTransferIff | src/lib/DnsEngine.cpp:964-977 | A client with an older serial gets a full transfer if and only if the zone was not changed since it was created. |
| Ixfr.FirstBlockFitsIff | src/lib/DnsEngine.cpp:904-962 | The first block of a reply starts at the client's version, or led to it, if and only if the client is not older than the zone. |
| Ixfr.OldClientIsExactIff | src/lib/DnsEngine.cpp:904-962 | A client no newer than the zone's first version ends with the current zone if and only if every record in which its data differs from that version occurs in some block. |
| Ixfr.StaleRecordSurvives | src/lib/DnsEngine.cpp:904-962 | A record of an older client that no block mentions is still there after the transfer, which is wrong if the zone does not have it. |
| OldClients.OldClientGoesWrong | src/lib/DnsEngine.cpp:904-962 | A run and a client older than the zone that ends with another zone than the current one. |
| Labels.Parse | src/lib/DnsMessages.cpp:1170-1284 | The byte loop ends on every buffer, reads inside it, and accepts a name if and only if it has headers that lead from one to the next to a root, with at most 15 pointers in a row, no place the target of two pointers, and a text of at most 254 bytes; count, size and bytes are those of that name. |
| Labels.ParsesNamesIff | src/lib/DnsMessages.cpp:1170-1284 | What is accepted label by label is exactly what has such headers; the labels, and the bytes up to the first pointer or the root, are theirs. |
| Names.ParseGivesWalk | src/lib/DnsMessages.cpp:1170-1284 | Every accepted name can be walked along the parser's path within the bound on pointers. |
| Names.Iterator.Increment | src/lib/DnsMessages.cpp:1339-1351 | The iterator moves to the next label of the path, or ends after the root. |
| Names.Iterator.FollowPointers | src/lib/DnsMessages.cpp:1352-1368 | On an accepted name the pointers are followed within the bound, so nothing is thrown. |
| Names.TextOf | src/lib/DnsMessages.cpp:1146-1165 | The text is the labels before the root joined with dots, and the iteration yields all of the path. |
| Names.ParseAndRead | src/lib/DnsMessages.cpp:1146-1284 | Every accepted name is read back in full: count() labels and a text of length size() - 1. |
| Names.WriteName | include/nsblast/detail/write_labels.hpp:106-177 | A name is refused or written as its wire form. |
| Names.JoinSplit | include/nsblast/detail/write_labels.hpp:106-177 | Splitting a name into labels and joining them is the identity, but for a final dot. |
| Names.NameRoundTrip | include/nsblast/detail/write_labels.hpp:106-184 | Wherever an accepted name is written in a buffer, it is parsed there and through any pointer to it, and its text is the name again, without a final dot. |
| Names.ParseCompressed | src/lib/DnsMessages.cpp:1233-1250 | Labels followed by a pointer to a written name are parsed as both, with the bytes up to and including the pointer. |
| Names.CompressedRoundTrip | src/lib/DnsMessages.cpp:1146-1284 | The text of such a name is that of all its labels. |
| Storage.FlagsRoundTrip | include/nsblast/DnsMessages.h:981-1010 | The flags of the header are read as they were set. |
| Storage.FlagsLayout | include/nsblast/DnsMessages.h:981-1010 | Each flag has its bit of the flags byte. |
| Storage.SpellableIff | src/lib/DnsMessages.cpp:283-303 | The wire form of a name has the length that the source makes room for, and asserts, if and only if the name is no single dot and does not end in two. |
| Storage.CreateRrHolds | src/lib/DnsMessages.cpp:259-310 | Each created record is in the buffer where the index says, with its own owner, spelled out or pointing to the first one's name, with the flags and SOA offset to match; refused exactly for a name that cannot be written in its room or a second SOA. |
| Storage.FinishHeader | src/lib/DnsMessages.cpp:526-595 | The header of a finished entry has the number of records, the index offset, the flags, the length of the labels and the zone length. |
| Storage.HeadLayout | src/lib/DnsMessages.cpp:259-310 | After its name a record has type, class IN, ttl and length, in network order. |
| Storage.EntryLayout | src/lib/DnsMessages.cpp:526-595 | Byte by byte, the header of a finished entry, and at the place that it names the index with the type before the offset. |
| Storage.RankIsOrder | src/lib/DnsMessages.cpp:526-595 | The table orders SOA, NS, A, AAAA, CNAME, MX, TXT, other types below 30, and the rest, and nothing else. |
| Storage.EntryRoundTrip | src/lib/DnsMessages.cpp:2014-2056 | A finished entry yields exactly the created records with their owners, in the order of the index. |
| Storage.SoaIsFirst | src/lib/DnsMessages.cpp:526-595 | In an entry sorted by the table any SOA is first. |
| Storage.GetSoa | src/lib/DnsMessages.cpp:1734-1745 | Finds something if and only if there is a SOA, and returns the first record. |
| Storage.WithSerialReads | src/lib/DnsMessages.cpp:1601-1611 | Writing a serial changes the serial to it and no other byte. |
| Storage.BumpHolds | src/lib/DnsMessages.cpp:613-641 | Raising the serial in the buffer leaves every record intact except the four bytes of the serial. |
| Entries.ReadRecord | src/lib/DnsMessages.cpp:1427-1472 | The record at an offset, with its owner, read as the parser defines it, or an exception. |
| Entries.ReadRecords | src/lib/DnsMessages.cpp:2014-2056 | The records of an entry in the order of its index. |
| Builders.SortFailsIff | src/lib/DnsMessages.cpp:526-595 | Sorting fails if and only if there are two records or more and some type is outside of the table. |
| Builders.FinishFailsIff | src/lib/DnsMessages.cpp:526-595 | Finishing fails if and only if it sorts two or more records of which one has a type of 255 or more. |
| Builders.StorageBuilder.IsSpelledOut | src/lib/DnsMessages.cpp:259-280 | A name is spelled out unless the builder has it, or all records are of one owner. |
| Builders.StorageBuilder.AddRr | src/lib/DnsMessages.cpp:495-499 | In place, a copy of a record that was read, with its own owner. |
| Builders.StorageBuilder.CreateRr | src/lib/DnsMessages.cpp:259-310 | In place, the creation of a record for any owner, refused without effect for a name that cannot be written or a second SOA. |
| Builders.StorageBuilder.IncrementSoaVersion | src/lib/DnsMessages.cpp:613-641 | In place, the serial of the existing entry's SOA, plus one, written into the builder's SOA; refused without effect when either has no SOA. |
| Builders.StorageBuilder.Finish | src/lib/DnsMessages.cpp:526-595 | The header, the records and the index, sorted by the table when asked for, or a failure. |
| Builders.SortIndexSorted | src/lib/DnsMessages.cpp:526-595 | An index that is sorted at all is sorted by the table. |
| StoredEntries.StoredEntryReads | src/lib/DnsMessages.cpp:526-595 | For every list of records and owners: built unless a name cannot be written or there is a second SOA; finished unless it sorts a type outside of the table; and then it reads as a permutation of them (ttl limited), ordered by the table if sorted and in order if not, flags exact. |
| StoredEntries.OutsideTableIsRefused | src/lib/DnsMessages.cpp:526-595 | A record of type 257 beside another one is built, but finishing fails. |
| StoredEntries.CopyAndIncrement | src/lib/RestApi.cpp:1786-1803 | The rewritten apex reads as the old one with its serial raised by one and every other byte of its records unchanged; it fails exactly when finish cannot sort it. |
| Lookup.JumpShortensIff | src/lib/RocksDbResource.cpp:166-210 | A round of the lookup shortens the key unless the entry's zone length is its own length; then the loop would not end. |
| Lookup.LookupEntryAndSoa | src/lib/RocksDbResource.cpp:166-210 | The loop ends, and when each leaf records the length of its nearest zone it finds the longest zone name that encloses the name, with its entry and that of the name, or nothing if and only if there is none. |
| Lookup.NearestIsZone | src/lib/RocksDbResource.cpp:166-210 | Removing one label at a time finds a zone if and only if one encloses the name, and then the one with the longest name. |
| Lookup.FastIsPlain | src/lib/RocksDbResource.cpp:166-210 | Jumping by the recorded length and removing labels one by one agree for every name. |
| Lookup.NewApexIsSafeIff | src/lib/RestApi.cpp:1457-1501 | A new zone keeps all recorded lengths exact if and only if no leaf below it belongs to a zone further up. |
| Lookup.NewApexKeepsLookupsIff | src/lib/RestApi.cpp:1457-1501 | After a new zone every lookup still finds the nearest zone if and only if it captures no leaf. |
| Lookup.CapturedLeafIsMisplaced | src/lib/RestApi.cpp:1457-1501 | Creating b.c over a stored a.b.c of zone c: the lookup of a.b.c finds c, not b.c. |
| Lookup.LeafWriteIsSafe | src/lib/RestApi.cpp:1580-1585 | Writing a record set with the length of the zone that was found keeps the lengths exact. |
| Lookup.LeafRemoveIsSafe | src/lib/RestApi.cpp:1772-1779 | Removing a record set keeps the lengths exact. |
| Lookup.RequestIsSafeIff | src/lib/RestApi.cpp:1580-1585 | Any request keeps the lengths exact if and only if it makes no zone that captures a leaf. |
| Lookup.RunKeepsLookups | src/lib/RocksDbResource.cpp:166-210 | After every run of requests that captures nothing, every lookup finds the nearest zone. |
| Lookup.EntryStore.PutRr | src/lib/RestApi.cpp:1644-1664 | In place: refused outside every zone, and for an apex without SOA; otherwise the name, and no other, has exactly the records of the request, with the length of its zone, which keeps lookups right unless the body makes it a zone. |
| Lookup.EntryStore.DeleteRr | src/lib/RestApi.cpp:1729-1779 | In place: of an entry that is not an apex exactly the records of the given types are removed, and the entry with the last of them; lookups stay right. |
| Lookup.EntryStore.CreateZone | src/lib/RestApi.cpp:1457-1501 | In place: refused without effect for a name that has an entry; otherwise the name, and no other, gets an apex with the given records, and lookups stay right if and only if no leaf is captured. |
| Caches.RunExplained | src/lib/AuthMgr.h:44-113 | After every run: distinct keys, at most the capacity, each with the value last stored for it, ordered by last use, so that the evicted one is the least recently used. |
| Caches.LastValueIff | src/lib/AuthMgr.h:44-113 | The last value of a key is that of its last emplace, if no erase of the key, no clear and no other emplace came after it. |
| Caches.PresentIsStored | src/lib/AuthMgr.h:44-113 | After every run, a key that is there was stored after the last clear and the last erase of it, with the value that it has. |
| Caches.KeysAfter | src/lib/AuthMgr.h:44-113 | Which keys are there after each operation: an emplace adds its key and drops at most the least recent one, an erase removes its key, a clear all. |
| Caches.Retained | src/lib/AuthMgr.h:44-113 | A key just used stays until it is erased, or as many other keys were used as there is room for. |
| Caches.SameSize | src/lib/AuthMgr.h:44-113 | When map and list have the same items they have the same size, as the source asserts. |
| Caches.Lru.Emplace | src/lib/AuthMgr.h:44-53 | Refines the list for a missing key, which is there then with its value; map and list are equally long afterwards if and only if the key was missing. |
| Caches.Lru.MakeSpace | src/lib/AuthMgr.h:104-113 | Drops the end of the list, and its key, when there is one item too many. |
| Caches.Lru.Get | src/lib/AuthMgr.h:55-74 | Returns what map and list have for the key, and moves it to the front; the map is unchanged. |
| Caches.Lru.Erase | src/lib/AuthMgr.h:76-87 | Removes exactly the key from map and list, and tells whether it was there. |
| Caches.Lru.Clear | src/lib/AuthMgr.h:89-94 | Map and list are empty afterwards. |

## Left out

- Locking inside one section: the model takes each locked section as one step. It does not
  cover that `onTransaction` reaches `onQueueIsEmpty` with the agent's mutex held, nor that
  a posted task reads the agent's state without it.
- The write locks of the storage engine are assumed, as above; the log is never trimmed;
  ids stay below 2^64 - 1.
- A scan reads the log as of its start; the iterator's snapshot is that of the storage engine.
- The follower's reply to a `ping`, timers, stream set-up, authentication of followers.
- ClusterTheorems.AcceptedIsGapFree: for runs in which commits land and are announced in the
  order of their ids; Deliveries.RunKeepsPrefixIff has the exact condition for all runs.
- ClusterTheorems.PublishedIsDurable: for followers whose log has no gap, because it is false
  otherwise (Landings.LateLandingIsLost); Copies.StepKeepsGaplessIff has the exact condition
  on each step.
- ClusterTheorems.ScanEndIsCurrentIff: for runs in order, because the position of a snapshot
  in the log has no meaning otherwise; ScanEndReaches is for all runs.
- CatchUp.SessionCatchesUp: for runs in order; so is Confirmations.ReplicationCompletes.
- Cluster.StepInv: for steps in order; what all runs keep is Cluster.StepLog, and the
  invariants of Landings and Deliveries.
- Replication.Agent.IterateDb: covers a scan that nothing disturbs; scans interleaved with
  other steps are covered by Cluster.FeedStep and Cluster.StepInv.
- Zones.ZoneStore.OnResourceRecord: names are in lower case and without a trailing dot; the
  lookup of the zone is that of Lookup; the serial is taken below 2^32 - 1, where the source asserts that it rises; that a SOA in the
  body of a request makes its name a zone of its own is modelled in Lookup.
- Zones.SerialsAreContiguous: that a block leads to the next version is stated for zones
  whose updates kept copies, a sufficient condition; Differences.CreateDiff has the exact one.
- Blocks.WriteBlock: the reading is stated for blocks whose records fit 16-bit offsets;
  Blocks.ShortBlockFits says when they surely do.
- Ixfr.IxfrIsExact: for replies of such blocks. The source's own slave asks for a full
  transfer at serial zero.
- Ixfr.DoIxfr: the answer is a record sequence over TCP; splitting into messages, name
  compression and the single-message answer over UDP are not modelled.
- Ixfr.HandleFlatten: deletes and adds are applied as they arrive (section 4 of RFC 1995);
  how the slave batches and saves them is not modelled.
- Paging.ListZones: tenant ids are compared as they are stored, without case folding; the
  page size is at least one when pages are followed; listing all tenants, and paging
  backwards, are not modelled.
- Names.WriteName: an empty label, which the source excludes with an assertion, is refused;
  the form for e-mail addresses is not modelled.
- StoredEntries.StoredEntryReads: the reading is stated for entries whose records and index
  fit 16-bit offsets.
- StoredEntries.CopyAndIncrement: the same, for an apex entry with its SOA first.
- Caches.Lru.Emplace: the map's key is a view of the text in the item; that the view dangles
  when an item is replaced is not modelled.
- `std::sort` is modelled by an insertion sort with the same comparison. The index of an
  entry, a `std::deque` that `finish` copies as if it were contiguous, is a sequence.
- Recursive removal of a zone, the sending of full transfers, CNAME chains, notifications, backups, JSON,
  roles and permissions, metrics.
