/** A primary and its followers as one step machine.
 *
 *  Every step is one section that the source runs under a lock, or one event
 *  delivered by the transport. A run is any finite list of steps; a step that
 *  is not enabled leaves the state alone, so every interleaving is covered.
 */
module Cluster {
  import opened Options
  import opened Transactions
  import opened Sessions

  /** A log scan in progress: what is left of its snapshot. `at` is history: how much
   *  of the log was before that when the snapshot was taken.
   */
  datatype Scan = NoScan | Scan(at: nat, rest: seq<Trx>)

  /** Length of the log that the snapshot covers. */
  function Upto(scan: Scan): nat
    requires scan.Scan?
  {
    scan.at + |scan.rest|
  }

  /** A follower: its ENTRY and TRXLOG families, the id it will acknowledge, an
   *  applied id not yet copied to `current`, and the messages read this session.
   */
  datatype Follower = Follower(
    store: Store,
    log: map<nat, Trx>,
    current: nat,
    unset: Option<nat>,
    rx: nat)

  const EMPTY_FOLLOWER := Follower(map[], map[], 0, None, 0)

  /** One follower and its session with the primary. `held` is history: how much
   *  of the primary's log the follower had when the session began. `cut` marks a
   *  session whose follower has opened another stream: the primary may not know yet,
   *  and the follower's part is what it was then.
   */
  datatype Peer = Peer(
    agent: Agent,
    client: Client,
    scan: Scan,
    follower: Follower,
    acks: seq<nat>,
    canWrite: bool,
    held: nat,
    cut: bool)

  /** `open` has the transactions that have an id but are not committed: commits run
   *  on several threads, with no lock from the one to the other. `uncalled` has the
   *  committed ones whose callback is still to run. `base` is history: the length of
   *  the log when the primary last started.
   */
  datatype System = System(
    maxQueue: nat,
    entries: Store,
    log: seq<Trx>,
    nextId: nat,
    open: map<nat, seq<Part>>,
    uncalled: seq<Trx>,
    base: nat,
    lastTrx: nat,
    published: nat,
    peers: map<int, Peer>)

  datatype PeerStep =
    | RunTask            // the strand runs a task posted by syncLater
    | ScanOne            // the scan visits one log entry, or ends
    | WriteDone          // SyncClient::OnWriteDone
    | ReadFails          // SyncClient::OnReadDone(false)
    | StreamDone         // Agent::onDone
    | Receive            // the follower reads and commits one update
    | Advance            // the follower records the id it committed
    | SendAck            // SyncFromServer::writeIf
    | AckWritten         // SyncFromServer::OnWriteDone
    | GotAck             // SyncClient::OnReadDone(true)

  datatype Step =
    | Issue(parts: seq<Part>)    // Transaction::handleTrxLog takes an id
    | Land(id: nat)              // the storage engine commits
    | Abort(id: nat)             // the commit fails: the id is used up
    | Callback(n: nat)           // the callback of the n-th waiting commit
    | RestartPrimary
    | Connect(uuid: int, restarted: bool, old_: int)
    | At(uuid: int, step: PeerStep)

  // ---------------------------------------------------------------- steps

  function Max(a: nat, b: nat): nat { if a < b then b else a }

  /** Distinct log entries the follower has applied in this session. */
  function Applied(p: Peer): nat {
    |Collapse(p.client.accepted[..if p.follower.rx <= |p.client.accepted| then p.follower.rx else |p.client.accepted|])|
  }

  /** Log entries the follower holds, from this session or from earlier ones. */
  function High(p: Peer): nat {
    Max(p.held, Applied(p))
  }

  /** RocksDbResource::getLastCommittedTransactionId: the last key of TRXLOG. */
  ghost predicate IsLastId(log: map<nat, Trx>, id: nat) {
    if log == map[] then id == 0 else id in log && forall i :: i in log ==> i <= id
  }

  ghost function LastId(log: map<nat, Trx>): nat {
    if exists id: nat :: IsLastId(log, id) then var id: nat :| IsLastId(log, id); id else 0
  }

  /** A follower opens a stream: its first request creates the agent and reports
   *  the follower's current id. The agent starts from id 0 whatever that is.
   */
  ghost function NewSession(f: Follower, restarted: bool, held: nat): Peer {
    var current :=
      if restarted then LastId(f.log) else if f.unset.Some? then f.unset.value else f.current;
    Peer(OnTrxId(NEW_AGENT, current), NEW_CLIENT, NoScan,
         f.(current := current, unset := None, rx := 0), [], false, held, false)
  }

  function ScanNext(p: Peer, maxQueue: nat): Peer {
    match p.scan
    case NoScan => p
    case Scan(at, rest) =>
      if rest == [] then p.(scan := NoScan, agent := SetState(p.agent, Streaming))
      else if p.agent.mode == Done then p.(scan := NoScan)
      else
        var (a, c, more) := Feed(p.agent, p.client, rest[0], maxQueue);
        p.(agent := a, client := c, scan := if more then Scan(at + 1, rest[1..]) else NoScan)
  }

  /** The scan that iterateDb starts: what the log has after the given id. */
  function ScanAfter(log: seq<Trx>, id: nat): Scan {
    Scan(FirstAfter(log, id), log[FirstAfter(log, id)..])
  }

  function ReceiveNext(f: Follower, t: Trx): Follower {
    f.(store := ApplyParts(f.store, t.parts), log := f.log[t.id := t],
       unset := Some(t.id), rx := f.rx + 1)
  }

  function NextPeer(p: Peer, log: seq<Trx>, maxQueue: nat, e: PeerStep): Peer {
    var a, c, f := p.agent, p.client, p.follower;
    match e
    case RunTask =>
      if a.posts == 0 || p.scan != NoScan then p
      else
        p.(agent := a.(posts := a.posts - 1),
           scan := if a.mode == IteratingDb then ScanAfter(log, a.enqueued) else NoScan)
    case ScanOne => ScanNext(p, maxQueue)
    case WriteDone =>
      if c.current.None? then p
      else
        var (c', notify) := Sessions.WriteDone(c);
        p.(client := c', agent := Posted(a, notify))
    case ReadFails => p.(client := c.(done := true))
    case StreamDone => if c.done then p.(agent := SetState(a, Done)) else p
    case Receive =>
      if !p.cut && f.rx < |Sent(c)| && f.unset.None? then p.(follower := ReceiveNext(f, Sent(c)[f.rx])) else p
    case Advance =>
      if f.unset.Some? then p.(follower := f.(current := f.unset.value, unset := None)) else p
    case SendAck => if p.canWrite && !p.cut then p.(acks := p.acks + [f.current], canWrite := false) else p
    case AckWritten => p.(canWrite := true)
    case GotAck =>
      if p.acks == [] || c.done then p
      else p.(agent := OnTrxId(a, p.acks[0]), acks := p.acks[1..])
  }

  ghost predicate Streams(s: System, u: int) {
    u in s.peers && s.peers[u].agent.mode == Streaming
  }

  /** The smallest id confirmed by the streaming agents. */
  ghost predicate IsLowest(s: System, v: nat) {
    && (exists u :: Streams(s, u) && s.peers[u].agent.confirmed == v)
    && (forall u :: Streams(s, u) ==> v <= s.peers[u].agent.confirmed)
  }

  /** PrimaryReplication::checkAgents. */
  ghost function CheckAgents(s: System): System {
    if exists v :: IsLowest(s, v) && s.published < v then
      var v :| IsLowest(s, v) && s.published < v;
      s.(published := v)
    else s
  }

  /** PrimaryReplication::onTransaction for the n-th waiting commit. */
  function Announce(s: System, n: nat): System
    requires n < |s.uncalled|
  {
    var t, rest := s.uncalled[n], s.uncalled[..n] + s.uncalled[n + 1..];
    if t.id <= s.lastTrx then s.(uncalled := rest)
    else
      s.(uncalled := rest, lastTrx := t.id,
         peers := map u | u in s.peers :: Pushed(s.peers[u], s.lastTrx, t, s.maxQueue))
  }

  function Pushed(p: Peer, prev: nat, t: Trx, maxQueue: nat): Peer {
    var (a, c) := Push(p.agent, p.client, prev, t, maxQueue);
    p.(agent := a, client := c)
  }

  function Dropped(p: Peer): Peer {
    p.(agent := SetState(p.agent, Done), client := p.client.(done := true), scan := NoScan, acks := [])
  }

  /** The storage engine's write locks: no key is written by two open transactions. */
  ghost predicate Unlocked(s: System, parts: seq<Part>) {
    forall i :: i in s.open ==> Apart(s.open[i], parts)
  }

  ghost function Next(s: System, e: Step): System {
    match e
    case Issue(parts) =>
      if parts == [] || !Unlocked(s, parts) then s
      else s.(nextId := s.nextId + 1, open := s.open[s.nextId + 1 := parts])
    case Land(id) =>
      if id !in s.open then s
      else
        var t := Trx(id, s.open[id]);
        s.(log := Insert(s.log, t), entries := ApplyParts(s.entries, t.parts),
           open := s.open - {id}, uncalled := s.uncalled + [t])
    case Abort(id) => s.(open := s.open - {id})
    case Callback(n) => if n < |s.uncalled| then Announce(s, n) else s
    case RestartPrimary =>
      s.(nextId := LastId(LogMap(s.log)), open := map[], uncalled := [], base := |s.log|, lastTrx := 0,
         published := 0, peers := map u | u in s.peers :: Dropped(s.peers[u]))
    case Connect(u, restarted, old_) =>
      if u !in s.peers then CheckAgents(s.(peers := s.peers[u := NewSession(EMPTY_FOLLOWER, restarted, 0)]))
      else
        var p := s.peers[u];
        var p' := NewSession(p.follower, restarted, High(p));
        if p.cut then s
        else if p.agent.mode == Done then CheckAgents(s.(peers := s.peers[u := p']))
        else if old_ in s.peers then s
        else CheckAgents(s.(peers := s.peers[old_ := p.(cut := true)][u := p']))
    case At(u, step) =>
      if u !in s.peers then s
      else
        var s' := s.(peers := s.peers[u := NextPeer(s.peers[u], s.log, s.maxQueue, step)]);
        if step == GotAck then CheckAgents(s') else s'
  }

  /** A primary that starts over the given log, with no follower connected. */
  ghost function Start(log: seq<Trx>, maxQueue: nat): System {
    System(maxQueue, Replay(map[], log), log, LastId(LogMap(log)), map[], [], |log|, 0, 0, map[])
  }

  ghost function Run(s: System, steps: seq<Step>): System {
    if steps == [] then s else Next(Run(s, steps[..|steps| - 1]), steps[|steps| - 1])
  }

  // ------------------------------------------------------------ invariant

  /** Every update accepted by the client, adjacent repeats collapsed, is the
   *  log up to some point: nothing skipped, nothing out of order.
   */
  ghost predicate AcceptedIsPrefix(log: seq<Trx>, accepted: seq<Trx>) {
    var k := |Collapse(accepted)|;
    k <= |log| && Collapse(accepted) == log[..k]
  }

  /** How the agent of a live client relates to the k log entries that the client
   *  has accepted; `busy` says that a write is in flight.
   */
  ghost predicate AgentInv(log: seq<Trx>, base: nat, a: Agent, busy: bool, scan: Scan, k: nat)
    requires k <= |log|
  {
    && a.mode != Done
    && (a.enqueued == IdAt(log, k) || (0 < k && a.enqueued == IdAt(log, k - 1) && a.mode == IteratingDb))
    && (a.mode == Streaming ==> scan == NoScan && base <= k)
    && (scan.Scan? ==>
          && Upto(scan) <= |log| && scan.rest == log[scan.at..Upto(scan)]
          && base <= Upto(scan)
          && k <= Upto(scan)
          && a.enqueued == IdAt(log, scan.at)
          && (k == scan.at || k == scan.at + 1))
    && (a.mode == IteratingDb && scan == NoScan ==> a.posts > 0 || busy)
  }

  ghost predicate SenderInv(log: seq<Trx>, base: nat, a: Agent, c: Client, scan: Scan) {
    && ClientInv(c)
    && AcceptedIsPrefix(log, c.accepted)
    && (!c.done ==> AgentInv(log, base, a, c.current.Some?, scan, |Collapse(c.accepted)|))
  }

  /** The follower's TRXLOG is a prefix of the primary's; every key named by the
   *  transactions applied in this session has the value they give it; and the
   *  store holds no key that the logged transactions do not name.
   */
  ghost predicate MirrorInv(log: seq<Trx>, f: Follower, j: nat, h: nat) {
    && j <= h <= |log|
    && f.log == LogMap(log[..h])
    && (forall k :: LastInLog(log[..j], k).Some? ==> Get(f.store, k) == Get(Replay(map[], log[..j]), k))
    && (forall k :: k in f.store ==> LastInLog(log[..h], k).Some?)
  }

  /** Nothing is acknowledged beyond what the follower has committed. */
  ghost predicate AckInv(p: Peer, limit: nat) {
    && p.follower.current <= limit
    && (p.follower.unset.Some? ==> p.follower.unset.value <= limit)
    && (forall i :: 0 <= i < |p.acks| ==> p.acks[i] <= limit)
    && p.agent.confirmed <= limit
  }

  ghost predicate ReceiverInv(log: seq<Trx>, p: Peer) {
    && p.follower.rx <= |Sent(p.client)|
    && MirrorInv(log, p.follower, Applied(p), High(p))
    && AckInv(p, IdAt(log, High(p)))
  }

  ghost predicate PeerInv(log: seq<Trx>, base: nat, p: Peer) {
    SenderInv(log, base, p.agent, p.client, p.scan) && ReceiverInv(log, p)
  }

  /** An open transaction has an id of its own, and shares no key with another open
   *  one, nor with a committed one of a larger id.
   */
  ghost predicate OpenInv(s: System) {
    && (forall i :: i in s.open ==> 0 < i <= s.nextId)
    && (forall i, j :: i in s.open && j in s.open && i != j ==> Apart(s.open[i], s.open[j]))
    && (forall i, t :: i in s.open && t in s.log ==> t.id != i && (i < t.id ==> Apart(s.open[i], t.parts)))
  }

  /** What every run keeps of the log, in whatever order commits land. */
  ghost predicate LogInv(s: System) {
    && Ascending(s.log)
    && IdAt(s.log, |s.log|) <= s.nextId
    && s.entries == Replay(map[], s.log)
    && OpenInv(s)
  }

  /** How much of the log has been announced, when commits land in order. */
  function Called(s: System): nat {
    if |s.uncalled| <= |s.log| then |s.log| - |s.uncalled| else 0
  }

  /** The callbacks that are still to run are those of the end of the log. */
  ghost predicate CalledInv(s: System) {
    && s.base <= Called(s) <= |s.log|
    && s.uncalled == s.log[Called(s)..]
    && s.lastTrx == (if Called(s) == s.base then 0 else IdAt(s.log, Called(s)))
  }

  /** What a run keeps as long as its commits land, and are announced, in order. */
  ghost predicate Inv(s: System) {
    LogInv(s) && CalledInv(s) && PeersInv(s.log, s.base, s.peers)
  }

  ghost predicate PeersInv(log: seq<Trx>, base: nat, peers: map<int, Peer>) {
    forall u :: u in peers ==> PeerInv(log, base, peers[u])
  }

  /** A commit that lands has the largest id so far; a callback is that of the
   *  smallest waiting id.
   */
  ghost predicate InOrder(s: System, e: Step) {
    match e
    case Land(id) => forall t :: t in s.log ==> t.id < id
    case Callback(n) => n < |s.uncalled| ==> forall t :: t in s.uncalled ==> s.uncalled[n].id <= t.id
    case _ => true
  }

  lemma {:induction false} PeerHasInv(s: System, u: int)
    requires Inv(s) && u in s.peers
    ensures LogInv(s) && CalledInv(s) && PeerInv(s.log, s.base, s.peers[u])
  {
  }

  // --------------------------------------------------- the sending side

  lemma {:induction false} LastIdOfLog(ts: seq<Trx>)
    requires Ascending(ts)
    ensures IsLastId(LogMap(ts), IdAt(ts, |ts|))
    ensures LastId(LogMap(ts)) == IdAt(ts, |ts|)
  {
    forall i | i in LogMap(ts) ensures i <= IdAt(ts, |ts|) { LogMapHolds(ts, i); }
    if ts != [] {
      LogMapHolds(ts, ts[|ts| - 1].id);
      assert ts[|ts| - 1].id in LogMap(ts);
    }
    assert IsLastId(LogMap(ts), IdAt(ts, |ts|));
  }

  /** Accepting the next log entry, or the last accepted one once more. */
  lemma {:induction false} AcceptNext(log: seq<Trx>, accepted: seq<Trx>, i: nat)
    requires Ascending(log) && i < |log|
    requires AcceptedIsPrefix(log, accepted)
    requires i == |Collapse(accepted)| || i + 1 == |Collapse(accepted)|
    ensures AcceptedIsPrefix(log, accepted + [log[i]])
    ensures |Collapse(accepted + [log[i]])| == i + 1
  {
    var seen := Collapse(accepted);
    CollapseAppend(accepted, log[i]);
    if accepted == [] {
      assert i == 0;
    } else {
      var last := accepted[|accepted| - 1];
      assert last == seen[|seen| - 1] == log[|seen| - 1];
      assert last.id < log[i].id || last == log[i];
    }
    assert log[..i + 1] == log[..i] + [log[i]];
  }

  lemma {:induction false} TaskAgent(log: seq<Trx>, base: nat, a: Agent, a': Agent, busy: bool, k: nat)
    requires Ascending(log) && base <= |log| && k <= |log| && AgentInv(log, base, a, busy, NoScan, k)
    requires a.mode == IteratingDb && a'.mode == a.mode && a'.enqueued == a.enqueued
    ensures AgentInv(log, base, a', busy, ScanAfter(log, a.enqueued), k)
  {
    FirstAfterIdAt(log, k);
    if 0 < k { FirstAfterIdAt(log, k - 1); }
  }

  lemma {:induction false} TaskStep(log: seq<Trx>, base: nat, a: Agent, c: Client)
    requires Ascending(log) && base <= |log| && SenderInv(log, base, a, c, NoScan)
    requires 0 < a.posts
    ensures SenderInv(log, base, a.(posts := a.posts - 1), c,
                      if a.mode == IteratingDb then ScanAfter(log, a.enqueued) else NoScan)
  {
    if !c.done && a.mode == IteratingDb {
      TaskAgent(log, base, a, a.(posts := a.posts - 1), c.current.Some?, |Collapse(c.accepted)|);
    }
  }

  /** A live client accepts log entry i, the next one or the last one once more. */
  lemma {:induction false} AcceptEntry(log: seq<Trx>, c: Client, i: nat, maxQueue: nat)
    requires Ascending(log) && ClientInv(c) && AcceptedIsPrefix(log, c.accepted) && !c.done && i < |log|
    requires i == |Collapse(c.accepted)| || i + 1 == |Collapse(c.accepted)|
    ensures var c' := Enqueue(c, log[i], maxQueue).client;
            && ClientInv(c') && AcceptedIsPrefix(log, c'.accepted)
            && |Collapse(c'.accepted)| == i + 1 && !c'.done && c'.current.Some?
  {
    EnqueueInv(c, log[i], maxQueue);
    AcceptNext(log, c.accepted, i);
  }

  lemma {:induction false} FedAgent(log: seq<Trx>, base: nat, a: Agent, a': Agent, busy: bool,
                                    scan: Scan, k: nat, ok: bool)
    requires k <= |log| && AgentInv(log, base, a, busy, scan, k)
    requires scan.Scan? && scan.rest != [] && a'.mode == a.mode
    requires a'.enqueued == if ok then scan.rest[0].id else a.enqueued
    ensures scan.at < |log| && scan.rest[0] == log[scan.at] && (scan.at == k || scan.at + 1 == k)
    ensures AgentInv(log, base, a', true, if ok then Scan(scan.at + 1, scan.rest[1..]) else NoScan, scan.at + 1)
  {
  }

  lemma {:induction false} FeedStep(log: seq<Trx>, base: nat, a: Agent, c: Client, scan: Scan, maxQueue: nat)
    requires Ascending(log) && SenderInv(log, base, a, c, scan)
    requires scan.Scan? && scan.rest != [] && a.mode != Done
    ensures var (a', c', more) := Feed(a, c, scan.rest[0], maxQueue);
            SenderInv(log, base, a', c', if more then Scan(scan.at + 1, scan.rest[1..]) else NoScan)
  {
    if !c.done {
      var (a', c', more) := Feed(a, c, scan.rest[0], maxQueue);
      FeedIs(a, c, scan.rest[0], maxQueue, a', c', more);
      FeedLive(log, base, a, c, scan, maxQueue, a', c', more, |Collapse(c.accepted)|);
    }
  }

  lemma {:induction false} FeedIs(a: Agent, c: Client, t: Trx, maxQueue: nat, a': Agent, c': Client, more: bool)
    requires (a', c', more) == Feed(a, c, t, maxQueue)
    ensures c' == Enqueue(c, t, maxQueue).client
    ensures a'.mode == a.mode && a'.enqueued == if more then t.id else a.enqueued
  {
  }

  lemma {:induction false} FeedLive(log: seq<Trx>, base: nat, a: Agent, c: Client, scan: Scan, maxQueue: nat,
                                    a': Agent, c': Client, more: bool, k: nat)
    requires Ascending(log) && ClientInv(c) && AcceptedIsPrefix(log, c.accepted) && !c.done
    requires k == |Collapse(c.accepted)| <= |log| && AgentInv(log, base, a, c.current.Some?, scan, k)
    requires scan.Scan? && scan.rest != [] && c' == Enqueue(c, scan.rest[0], maxQueue).client
    requires a'.mode == a.mode && a'.enqueued == if more then scan.rest[0].id else a.enqueued
    ensures SenderInv(log, base, a', c', if more then Scan(scan.at + 1, scan.rest[1..]) else NoScan)
  {
    FedAgent(log, base, a, a', c.current.Some?, scan, k, more);
    AcceptEntry(log, c, scan.at, maxQueue);
    SenderIs(log, base, a', c', if more then Scan(scan.at + 1, scan.rest[1..]) else NoScan, scan.at + 1);
  }

  lemma {:induction false} SenderIs(log: seq<Trx>, base: nat, a: Agent, c: Client, scan: Scan, k: nat)
    requires ClientInv(c) && AcceptedIsPrefix(log, c.accepted) && |Collapse(c.accepted)| == k && c.current.Some?
    requires AgentInv(log, base, a, true, scan, k)
    ensures SenderInv(log, base, a, c, scan)
  {
  }

  lemma {:induction false} DeliveredInv(log: seq<Trx>, base: nat, a: Agent, c: Client, k: nat)
    requires ClientInv(c) && AcceptedIsPrefix(log, c.accepted) && |Collapse(c.accepted)| == k + 1 <= |log|
    requires c.current.Some? && base <= k && a.mode != Done && a.enqueued == log[k].id
    ensures SenderInv(log, base, a, c, NoScan)
  {
  }

  lemma {:induction false} PushIs(a: Agent, c: Client, t: Trx, maxQueue: nat)
    requires a.mode == Streaming
    ensures var (a', c') := Push(a, c, a.enqueued, t, maxQueue);
            c' == Enqueue(c, t, maxQueue).client && a'.mode != Done && a'.enqueued == t.id
  {
  }

  lemma {:induction false} PushDelivers(log: seq<Trx>, base: nat, a: Agent, c: Client, k: nat, maxQueue: nat)
    requires Ascending(log) && ClientInv(c) && AcceptedIsPrefix(log, c.accepted)
    requires k == |Collapse(c.accepted)| < |log| && base <= k && !c.done && a.mode == Streaming
    ensures var (a', c') := Push(a, c, a.enqueued, log[k], maxQueue);
            SenderInv(log, base, a', c', NoScan)
  {
    AcceptEntry(log, c, k, maxQueue);
    PushIs(a, c, log[k], maxQueue);
    var pushed := Push(a, c, a.enqueued, log[k], maxQueue);
    DeliveredInv(log, base, pushed.0, pushed.1, k);
  }

  /** A commit callback: a push happens only when nothing lies between. */
  lemma {:induction false} PushStep(s: System, a: Agent, c: Client, scan: Scan)
    requires Ascending(s.log) && CalledInv(s) && s.uncalled != [] && SenderInv(s.log, s.base, a, c, scan)
    ensures var (a', c') := Push(a, c, s.lastTrx, s.uncalled[0], s.maxQueue);
            SenderInv(s.log, s.base, a', c', scan)
  {
    if !c.done && a.mode == Streaming && s.lastTrx == a.enqueued {
      var k := |Collapse(c.accepted)|;
      PushIsNext(s, k);
      PushDelivers(s.log, s.base, a, c, k, s.maxQueue);
    }
  }

  lemma {:induction false} PushFrame(a: Agent, c: Client, prev: nat, t: Trx, maxQueue: nat)
    requires ClientInv(c)
    ensures var (a', c') := Push(a, c, prev, t, maxQueue);
            ClientInv(c') && a'.confirmed == a.confirmed && c.accepted <= c'.accepted && Sent(c) <= Sent(c')
  {
    EnqueueInv(c, t, maxQueue);
  }

  /** An agent at the previous callback's id has everything before the new one. */
  lemma {:induction false} PushIsNext(s: System, k: nat)
    requires Ascending(s.log) && CalledInv(s) && s.uncalled != [] && s.base <= k <= |s.log|
    requires s.lastTrx == IdAt(s.log, k)
    ensures k == Called(s) < |s.log| && s.uncalled[0] == s.log[k]
  {
    IdAtOrder(s.log, k, Called(s));
    IdAtOrder(s.log, k, 0);
  }

  /** What was read earlier does not depend on what is accepted later. */
  lemma {:induction false} SenderChange(log: seq<Trx>, p: Peer, p': Peer)
    requires ReceiverInv(log, p) && ClientInv(p.client) && ClientInv(p'.client)
    requires p' == p.(agent := p'.agent, client := p'.client, scan := p'.scan)
    requires p'.agent.confirmed == p.agent.confirmed
    requires p.client.accepted <= p'.client.accepted && Sent(p.client) <= Sent(p'.client)
    ensures ReceiverInv(log, p')
  {
    var rx := p.follower.rx;
    assert p'.client.accepted[..rx] == p.client.accepted[..rx];
  }

  lemma {:induction false} RunTaskInv(log: seq<Trx>, base: nat, p: Peer, maxQueue: nat)
    requires Ascending(log) && base <= |log| && PeerInv(log, base, p)
    ensures PeerInv(log, base, NextPeer(p, log, maxQueue, RunTask))
  {
    if 0 < p.agent.posts && p.scan == NoScan {
      TaskStep(log, base, p.agent, p.client);
      SenderChange(log, p, NextPeer(p, log, maxQueue, RunTask));
    }
  }

  lemma {:induction false} ScanReceiver(log: seq<Trx>, p: Peer, maxQueue: nat)
    requires ClientInv(p.client) && ReceiverInv(log, p)
    requires p.scan.Scan? && p.scan.rest != [] && p.agent.mode != Done
    ensures ReceiverInv(log, ScanNext(p, maxQueue))
  {
    EnqueueInv(p.client, p.scan.rest[0], maxQueue);
    SenderChange(log, p, ScanNext(p, maxQueue));
  }

  lemma {:induction false} ScanSender(log: seq<Trx>, base: nat, p: Peer, p': Peer, maxQueue: nat)
    requires Ascending(log) && SenderInv(log, base, p.agent, p.client, p.scan)
    requires p.scan.Scan? && p.scan.rest != [] && p.agent.mode != Done && p' == ScanNext(p, maxQueue)
    ensures SenderInv(log, base, p'.agent, p'.client, p'.scan)
  {
    FeedStep(log, base, p.agent, p.client, p.scan, maxQueue);
  }

  lemma {:induction false} ScanFeedsInv(log: seq<Trx>, base: nat, p: Peer, maxQueue: nat)
    requires Ascending(log) && PeerInv(log, base, p)
    requires p.scan.Scan? && p.scan.rest != [] && p.agent.mode != Done
    ensures PeerInv(log, base, ScanNext(p, maxQueue))
  {
    ScanSender(log, base, p, ScanNext(p, maxQueue), maxQueue);
    ScanReceiver(log, p, maxQueue);
  }

  lemma {:induction false} ScanEndsInv(log: seq<Trx>, base: nat, p: Peer, p': Peer)
    requires PeerInv(log, base, p) && p.scan.Scan?
    requires p.agent.mode == Done || p.scan.rest == []
    requires p' == p.(scan := NoScan, agent := SetState(p.agent, Streaming))
    ensures PeerInv(log, base, p')
  {
    SenderChange(log, p, p');
  }

  lemma {:induction false} ScanInv(log: seq<Trx>, base: nat, p: Peer, maxQueue: nat)
    requires Ascending(log) && PeerInv(log, base, p) && p.scan.Scan?
    ensures PeerInv(log, base, ScanNext(p, maxQueue))
  {
    if p.scan.rest != [] && p.agent.mode != Done {
      ScanFeedsInv(log, base, p, maxQueue);
    } else {
      ScanEndsInv(log, base, p, ScanNext(p, maxQueue));
    }
  }

  lemma {:induction false} DrainInv(log: seq<Trx>, base: nat, p: Peer, maxQueue: nat)
    requires PeerInv(log, base, p) && p.client.current.Some?
    ensures PeerInv(log, base, NextPeer(p, log, maxQueue, WriteDone))
  {
    WriteDoneInv(p.client);
    SenderChange(log, p, NextPeer(p, log, maxQueue, WriteDone));
  }

  lemma {:induction false} StreamEndInv(log: seq<Trx>, base: nat, p: Peer, maxQueue: nat, e: PeerStep)
    requires PeerInv(log, base, p) && e in {ReadFails, StreamDone}
    ensures PeerInv(log, base, NextPeer(p, log, maxQueue, e))
  {
    SenderChange(log, p, NextPeer(p, log, maxQueue, e));
  }

  // ---- follower

  /** Applying log entry i to a follower that has applied entries up to i, or
   *  up to i + 1 already.
   */
  lemma {:induction false} MirrorApply(log: seq<Trx>, f: Follower, j: nat, h: nat, i: nat)
    requires Ascending(log) && MirrorInv(log, f, j, h) && i < |log|
    requires i == j || i + 1 == j
    ensures MirrorInv(log, ReceiveNext(f, log[i]), i + 1, Max(h, i + 1))
  {
    var t, h', f' := log[i], Max(h, i + 1), ReceiveNext(f, log[i]);
    assert log[..i + 1] == log[..i] + [t];
    if i < h {
      assert log[..h][i] == t;
      LogMapRewrite(log[..h], i);
    } else {
      assert log[..i + 1][..i] == log[..i];
    }
    forall k | LastInLog(log[..i + 1], k).Some?
      ensures Get(f'.store, k) == Get(Replay(map[], log[..i + 1]), k)
    {
      MirroredKey(log, f, j, h, i, k);
    }
    forall k | k in f'.store ensures LastInLog(log[..h'], k).Some? {
      ApplyPartsLastWins(f.store, t.parts, k);
      LastInLogAppend(log[..i], t, k);
      if LastPart(t.parts, k).Some? {
        NamedInLongerLog(log, i + 1, h', k);
      } else {
        assert Get(f'.store, k) == Get(f.store, k);
        NamedInLongerLog(log, h, h', k);
      }
    }
  }

  lemma {:induction false} MirroredKey(log: seq<Trx>, f: Follower, j: nat, h: nat, i: nat, k: string)
    requires MirrorInv(log, f, j, h) && i < |log| && (i == j || i + 1 == j)
    requires LastInLog(log[..i + 1], k).Some?
    ensures Get(ReceiveNext(f, log[i]).store, k) == Get(Replay(map[], log[..i + 1]), k)
  {
    var t := log[i];
    assert log[..i + 1] == log[..i] + [t];
    ApplyPartsLastWins(f.store, t.parts, k);
    ReplayLastWins(map[], log[..i + 1], k);
    ReplayLastWins(map[], log[..i], k);
    LastInLogAppend(log[..i], t, k);
    if LastPart(t.parts, k).None? && j == i + 1 {
      ReplayLastWins(map[], log[..j], k);
    }
  }

  /** The message read next is the next log entry or the one just applied. */
  lemma {:induction false} NextMessage(log: seq<Trx>, accepted: seq<Trx>, rx: nat)
    requires AcceptedIsPrefix(log, accepted) && rx < |accepted|
    ensures var j, j' := |Collapse(accepted[..rx])|, |Collapse(accepted[..rx + 1])|;
            && 0 < j' <= |log|
            && (j' == j || j' == j + 1)
            && accepted[rx] == log[j' - 1]
  {
    CollapseNext(accepted, rx);
    CollapsePrefix(accepted, rx + 1);
    var all, j' := Collapse(accepted), |Collapse(accepted[..rx + 1])|;
    assert all[..j'][j' - 1] == all[j' - 1] == log[..|all|][j' - 1];
  }

  lemma {:induction false} ReceiveAcks(log: seq<Trx>, p: Peer, p': Peer, t: Trx, h: nat, h': nat)
    requires h <= h' <= |log| && Ascending(log) && AckInv(p, IdAt(log, h)) && t.id <= IdAt(log, h')
    requires p' == p.(follower := ReceiveNext(p.follower, t))
    ensures AckInv(p', IdAt(log, h'))
  {
    IdAtOrder(log, h, h');
  }

  lemma {:induction false} ReceiveMirror(log: seq<Trx>, p: Peer, p': Peer, t: Trx)
    requires Ascending(log) && AcceptedIsPrefix(log, p.client.accepted) && p.follower.rx < |p.client.accepted|
    requires MirrorInv(log, p.follower, Applied(p), High(p))
    requires t == p.client.accepted[p.follower.rx] && p' == p.(follower := ReceiveNext(p.follower, t))
    ensures MirrorInv(log, p'.follower, Applied(p'), High(p'))
    ensures High(p) <= High(p') && t.id <= IdAt(log, High(p'))
  {
    var j' := Applied(p');
    NextMessage(log, p.client.accepted, p.follower.rx);
    MirrorApply(log, p.follower, Applied(p), High(p), j' - 1);
    assert Max(High(p), j') == High(p');
    IdAtOrder(log, j', High(p'));
  }

  lemma {:induction false} ReceiveStep(log: seq<Trx>, p: Peer, p': Peer)
    requires Ascending(log) && ClientInv(p.client) && AcceptedIsPrefix(log, p.client.accepted)
    requires ReceiverInv(log, p) && p.follower.rx < |Sent(p.client)|
    requires p' == p.(follower := ReceiveNext(p.follower, Sent(p.client)[p.follower.rx]))
    ensures ReceiverInv(log, p')
  {
    var t := Sent(p.client)[p.follower.rx];
    assert t == p.client.accepted[p.follower.rx];
    ReceiveMirror(log, p, p', t);
    ReceiveAcks(log, p, p', t, High(p), High(p'));
  }

  lemma {:induction false} PeerStepInv(log: seq<Trx>, base: nat, p: Peer, maxQueue: nat, e: PeerStep)
    requires Ascending(log) && base <= |log| && PeerInv(log, base, p)
    ensures PeerInv(log, base, NextPeer(p, log, maxQueue, e))
  {
    match e
    case RunTask => RunTaskInv(log, base, p, maxQueue);
    case ScanOne => if p.scan.Scan? { ScanInv(log, base, p, maxQueue); }
    case WriteDone => if p.client.current.Some? { DrainInv(log, base, p, maxQueue); }
    case ReadFails => StreamEndInv(log, base, p, maxQueue, e);
    case StreamDone => StreamEndInv(log, base, p, maxQueue, e);
    case Receive =>
      if !p.cut && p.follower.rx < |Sent(p.client)| && p.follower.unset.None? {
        ReceiveStep(log, p, NextPeer(p, log, maxQueue, e));
      }
    case _ => AckStep(log, base, p, maxQueue, e);
  }

  lemma {:induction false} AckReceiver(log: seq<Trx>, p: Peer, p': Peer)
    requires ReceiverInv(log, p) && p'.client == p.client && p'.held == p.held
    requires p'.follower == p.follower.(current := p'.follower.current, unset := p'.follower.unset)
    requires AckInv(p', IdAt(log, High(p)))
    ensures ReceiverInv(log, p')
  {
    assert Applied(p') == Applied(p);
  }

  lemma {:induction false} AckBound(p: Peer, log: seq<Trx>, maxQueue: nat, e: PeerStep, limit: nat)
    requires AckInv(p, limit) && e in {Advance, SendAck, AckWritten, GotAck}
    ensures AckInv(NextPeer(p, log, maxQueue, e), limit)
  {
  }

  lemma {:induction false} AckStep(log: seq<Trx>, base: nat, p: Peer, maxQueue: nat, e: PeerStep)
    requires PeerInv(log, base, p) && e in {Advance, SendAck, AckWritten, GotAck}
    ensures PeerInv(log, base, NextPeer(p, log, maxQueue, e))
  {
    var p' := NextPeer(p, log, maxQueue, e);
    AckBound(p, log, maxQueue, e, IdAt(log, High(p)));
    AckReceiver(log, p, p');
  }

  lemma {:induction false} LogGrowsSender(log: seq<Trx>, t: Trx, base: nat, a: Agent, c: Client, scan: Scan)
    requires SenderInv(log, base, a, c, scan)
    ensures SenderInv(log + [t], base, a, c, scan)
  {
    var k := |Collapse(c.accepted)|;
    assert (log + [t])[..k] == log[..k];
    if !c.done { LogGrowsAgent(log, t, base, a, c.current.Some?, scan, k); }
  }

  lemma {:induction false} LogGrowsAgent(log: seq<Trx>, t: Trx, base: nat, a: Agent, busy: bool, scan: Scan, k: nat)
    requires k <= |log| && AgentInv(log, base, a, busy, scan, k)
    ensures AgentInv(log + [t], base, a, busy, scan, k)
  {
    if scan.Scan? { assert (log + [t])[scan.at..Upto(scan)] == log[scan.at..Upto(scan)]; }
  }

  lemma {:induction false} LogGrowsReceiver(log: seq<Trx>, t: Trx, p: Peer)
    requires ReceiverInv(log, p)
    ensures ReceiverInv(log + [t], p)
  {
    assert (log + [t])[..Applied(p)] == log[..Applied(p)];
    assert (log + [t])[..High(p)] == log[..High(p)];
  }

  /** Appending to the log disturbs no session. */
  lemma {:induction false} LogGrows(log: seq<Trx>, t: Trx, base: nat, p: Peer)
    requires PeerInv(log, base, p)
    ensures PeerInv(log + [t], base, p)
  {
    LogGrowsSender(log, t, base, p.agent, p.client, p.scan);
    LogGrowsReceiver(log, t, p);
  }

  lemma {:induction false} SessionStarts(log: seq<Trx>, base: nat, f: Follower, restarted: bool, j: nat, h: nat)
    requires Ascending(log) && MirrorInv(log, f, j, h)
    requires f.current <= IdAt(log, h) && (f.unset.Some? ==> f.unset.value <= IdAt(log, h))
    ensures PeerInv(log, base, NewSession(f, restarted, h))
  {
    var p := NewSession(f, restarted, h);
    LastIdOfLog(log[..h]);
    assert IdAt(log[..h], h) == IdAt(log, h);
    assert p.client.accepted[..0] == [];
    assert Applied(p) == 0;
    assert log[..0] == [];
  }

  lemma {:induction false} SessionRestarts(s: System, p: Peer, restarted: bool)
    requires Ascending(s.log) && ReceiverInv(s.log, p)
    ensures PeerInv(s.log, s.base, NewSession(p.follower, restarted, High(p)))
  {
    SessionStarts(s.log, s.base, p.follower, restarted, Applied(p), High(p));
  }

  lemma {:induction false} DropInv(log: seq<Trx>, base: nat, base': nat, p: Peer)
    requires PeerInv(log, base, p)
    ensures PeerInv(log, base', Dropped(p))
  {
    assert Applied(Dropped(p)) == Applied(p);
  }

  // -------------------------------------------------------- the log itself

  lemma {:induction false} LastIsLargest(log: seq<Trx>, t: Trx)
    requires Ascending(log) && t in log
    ensures t.id <= IdAt(log, |log|)
  {
    var i :| 0 <= i < |log| && log[i] == t;
    IdAtOrder(log, i + 1, |log|);
  }

  lemma {:induction false} IssueLog(s: System, parts: seq<Part>)
    requires LogInv(s)
    ensures LogInv(Next(s, Issue(parts)))
  {
    forall t | t in s.log ensures t.id <= s.nextId { LastIsLargest(s.log, t); }
  }

  lemma {:induction false} LandEntries(s: System, id: nat)
    requires LogInv(s) && id in s.open
    ensures Replay(map[], Insert(s.log, Trx(id, s.open[id]))) == ApplyParts(s.entries, s.open[id])
    ensures Ascending(Insert(s.log, Trx(id, s.open[id])))
  {
    var t := Trx(id, s.open[id]);
    InsertAscending(s.log, t);
    InsertReplay(s.log, t);
  }

  lemma {:induction false} LandOpen(s: System, id: nat, s': System)
    requires LogInv(s) && id in s.open && s' == Next(s, Land(id))
    ensures OpenInv(s')
  {
  }

  lemma {:induction false} LandLog(s: System, id: nat)
    requires LogInv(s)
    ensures LogInv(Next(s, Land(id)))
  {
    if id in s.open {
      var s' := Next(s, Land(id));
      LandEntries(s, id);
      LandOpen(s, id, s');
      forall t | t in s.log ensures t.id <= s.nextId { LastIsLargest(s.log, t); }
      assert s'.log[|s'.log| - 1] in s'.log;
    }
  }

  lemma {:induction false} LogFrame(s: System, s': System)
    requires LogInv(s)
    requires s'.log == s.log && s'.entries == s.entries && s'.open == s.open && s'.nextId == s.nextId
    ensures LogInv(s')
  {
  }

  lemma {:induction false} AbortLog(s: System, id: nat)
    requires LogInv(s)
    ensures LogInv(Next(s, Abort(id)))
  {
  }

  lemma {:induction false} RestartLog(s: System)
    requires LogInv(s)
    ensures LogInv(Next(s, RestartPrimary))
  {
    LastIdOfLog(s.log);
  }

  lemma {:induction false} AtShape(s: System, u: int, step: PeerStep)
    ensures var s' := Next(s, At(u, step));
            s' == s.(peers := s'.peers, published := s'.published)
  {
    if u in s.peers { CheckAgentsRaises(s.(peers := s.peers[u := NextPeer(s.peers[u], s.log, s.maxQueue, step)])); }
  }

  /** Every step keeps the log, in whatever order commits land: ids ascend, open ids
   *  are apart from them, and the entries are the replay of the log.
   */
  lemma {:induction false} StepLog(s: System, e: Step)
    requires LogInv(s)
    ensures LogInv(Next(s, e))
  {
    match e
    case Issue(parts) => IssueLog(s, parts);
    case Land(id) => LandLog(s, id);
    case Abort(id) => AbortLog(s, id);
    case RestartPrimary => RestartLog(s);
    case Callback(n) => LogFrame(s, Next(s, e));
    case Connect(u, restarted, old_) =>
      ConnectShape(s, u, restarted, old_);
      LogFrame(s, Next(s, e));
    case At(u, step) =>
      AtShape(s, u, step);
      LogFrame(s, Next(s, e));
  }

  /** A new stream changes the sessions, and perhaps the published id. */
  lemma {:induction false} ConnectShape(s: System, u: int, restarted: bool, old_: int)
    ensures var s' := Next(s, Connect(u, restarted, old_));
            s' == s.(peers := s'.peers, published := s'.published)
  {
    if u !in s.peers {
      CheckAgentsRaises(s.(peers := s.peers[u := NewSession(EMPTY_FOLLOWER, restarted, 0)]));
    } else {
      var p := s.peers[u];
      var p' := NewSession(p.follower, restarted, High(p));
      CheckAgentsRaises(s.(peers := s.peers[u := p']));
      CheckAgentsRaises(s.(peers := s.peers[old_ := p.(cut := true)][u := p']));
    }
  }

  // ------------------------------------------------- in the order of the ids

  lemma {:induction false} LandAppends(s: System, id: nat, s': System)
    requires LogInv(s) && id in s.open && InOrder(s, Land(id)) && s' == Next(s, Land(id))
    ensures s'.log == s.log + [Trx(id, s.open[id])]
    ensures s' == s.(log := s'.log, entries := s'.entries, open := s'.open, uncalled := s.uncalled + [Trx(id, s.open[id])])
  {
    InsertLast(s.log, Trx(id, s.open[id]));
  }

  lemma {:induction false} LandInv(s: System, id: nat)
    requires Inv(s) && InOrder(s, Land(id))
    ensures Inv(Next(s, Land(id)))
  {
    LandLog(s, id);
    if id in s.open {
      var s', t := Next(s, Land(id)), Trx(id, s.open[id]);
      LandAppends(s, id, s');
      LandCalled(s, t, s');
      forall u | u in s'.peers ensures PeerInv(s'.log, s'.base, s'.peers[u]) {
        LogGrows(s.log, t, s.base, s.peers[u]);
      }
    }
  }

  lemma {:induction false} LandCalled(s: System, t: Trx, s': System)
    requires CalledInv(s) && s'.log == s.log + [t] && s'.uncalled == s.uncalled + [t]
    requires s'.base == s.base && s'.lastTrx == s.lastTrx
    ensures CalledInv(s')
  {
    assert Called(s') == Called(s);
    assert s'.log[Called(s)..] == s.log[Called(s)..] + [t];
  }

  /** In order, the next callback is that of the oldest commit. */
  lemma {:induction false} OldestIsFirst(s: System, n: nat)
    requires Ascending(s.log) && CalledInv(s) && n < |s.uncalled| && InOrder(s, Callback(n))
    ensures n == 0
  {
    assert s.uncalled[0] in s.uncalled;
    assert s.uncalled[0] == s.log[Called(s)] && s.uncalled[n] == s.log[Called(s) + n];
  }

  lemma {:induction false} CallbackCalled(s: System, s': System)
    requires Ascending(s.log) && CalledInv(s) && s.uncalled != [] && s' == Next(s, Callback(0))
    ensures CalledInv(s') && Called(s') == Called(s) + 1 && s.uncalled[0] == s.log[Called(s)]
  {
    IdAtOrder(s.log, Called(s), Called(s) + 1);
    assert s'.uncalled == s.uncalled[1..];
  }

  lemma {:induction false} PushedReceiver(s: System, p: Peer, p': Peer)
    requires s.uncalled != [] && ClientInv(p.client) && ReceiverInv(s.log, p)
    requires p' == Pushed(p, s.lastTrx, s.uncalled[0], s.maxQueue)
    ensures ReceiverInv(s.log, p')
  {
    PushFrame(p.agent, p.client, s.lastTrx, s.uncalled[0], s.maxQueue);
    SenderChange(s.log, p, p');
  }

  lemma {:induction false} PushedPeer(s: System, p: Peer, p': Peer)
    requires Ascending(s.log) && CalledInv(s) && s.uncalled != [] && PeerInv(s.log, s.base, p)
    requires p' == Pushed(p, s.lastTrx, s.uncalled[0], s.maxQueue)
    ensures PeerInv(s.log, s.base, p')
  {
    PushStep(s, p.agent, p.client, p.scan);
    PushedReceiver(s, p, p');
  }

  /** Every commit is announced with a new id, so every agent is told. */
  lemma {:induction false} AnnouncePeers(s: System, s': System, u: int)
    requires Ascending(s.log) && CalledInv(s) && s.uncalled != [] && s' == Next(s, Callback(0)) && u in s.peers
    ensures u in s'.peers && s'.log == s.log && s'.base == s.base
    ensures s'.peers[u] == Pushed(s.peers[u], s.lastTrx, s.uncalled[0], s.maxQueue)
  {
    IdAtOrder(s.log, Called(s), Called(s) + 1);
  }

  lemma {:induction false} CallbackInv(s: System, n: nat)
    requires Inv(s) && InOrder(s, Callback(n))
    ensures Inv(Next(s, Callback(n)))
  {
    if n < |s.uncalled| {
      var s' := Next(s, Callback(0));
      OldestIsFirst(s, n);
      CallbackCalled(s, s');
      StepLog(s, Callback(0));
      assert s'.peers.Keys <= s.peers.Keys;
      forall u | u in s'.peers ensures PeerInv(s'.log, s'.base, s'.peers[u]) {
        AnnouncePeers(s, s', u);
        PushedPeer(s, s.peers[u], s'.peers[u]);
      }
    }
  }

  lemma {:induction false} OpenChanges(s: System, s': System)
    requires Inv(s) && LogInv(s') && s' == s.(open := s'.open, nextId := s'.nextId)
    ensures Inv(s')
  {
    forall u | u in s'.peers ensures PeerInv(s'.log, s'.base, s'.peers[u]) {
      PeerHasInv(s, u);
    }
  }

  lemma {:induction false} RestartInv(s: System)
    requires Inv(s)
    ensures Inv(Next(s, RestartPrimary))
  {
    LastIdOfLog(s.log);
    forall u | u in s.peers ensures PeerInv(s.log, |s.log|, Dropped(s.peers[u])) {
      DropInv(s.log, s.base, |s.log|, s.peers[u]);
    }
  }

  /** checkAgents changes nothing but the published id, which never decreases;
   *  a raised id is confirmed by every streaming agent.
   */
  lemma {:induction false} CheckAgentsRaises(s: System)
    ensures var s' := CheckAgents(s);
            && s' == s.(published := s'.published)
            && s.published <= s'.published
            && (s.published < s'.published ==>
                  && IsLowest(s, s'.published)
                  && forall u :: Streams(s, u) ==> s'.published <= s.peers[u].agent.confirmed)
  {
  }

  lemma {:induction false} ReplacePeer(s: System, u: int, p: Peer)
    requires Inv(s) && PeerInv(s.log, s.base, p)
    ensures Inv(s.(peers := s.peers[u := p]))
  {
    var s1 := s.(peers := s.peers[u := p]);
    LogFrame(s, s1);
    CalledFrame(s, s1);
    PeersReplaced(s.log, s.base, s.peers, u, p);
  }

  lemma {:induction false} CalledFrame(s: System, s': System)
    requires CalledInv(s)
    requires s'.log == s.log && s'.uncalled == s.uncalled && s'.base == s.base && s'.lastTrx == s.lastTrx
    ensures CalledInv(s')
  {
  }

  lemma {:induction false} PeersReplaced(log: seq<Trx>, base: nat, peers: map<int, Peer>, u: int, p: Peer)
    requires PeersInv(log, base, peers) && PeerInv(log, base, p)
    ensures PeersInv(log, base, peers[u := p])
  {
    var peers' := peers[u := p];
    forall v | v in peers' ensures PeerInv(log, base, peers'[v]) {
      if v != u { assert v in peers; }
    }
  }

  lemma {:induction false} ReplaceAndCheck(s: System, u: int, p: Peer)
    requires Inv(s) && PeerInv(s.log, s.base, p)
    ensures Inv(CheckAgents(s.(peers := s.peers[u := p])))
  {
    var s1 := s.(peers := s.peers[u := p]);
    ReplacePeer(s, u, p);
    CheckAgentsRaises(s1);
    PublishInv(s1, CheckAgents(s1).published);
  }

  lemma {:induction false} PublishInv(s: System, v: nat)
    requires Inv(s)
    ensures Inv(s.(published := v))
  {
  }

  lemma {:induction false} FirstSession(log: seq<Trx>, base: nat, restarted: bool)
    requires Ascending(log)
    ensures PeerInv(log, base, NewSession(EMPTY_FOLLOWER, restarted, 0))
  {
    assert log[..0] == [];
    SessionStarts(log, base, EMPTY_FOLLOWER, restarted, 0, 0);
  }

  lemma {:induction false} ParkInv(log: seq<Trx>, base: nat, p: Peer)
    requires PeerInv(log, base, p)
    ensures PeerInv(log, base, p.(cut := true))
  {
    assert Applied(p.(cut := true)) == Applied(p);
  }

  lemma {:induction false} ConnectAgain(s: System, u: int, restarted: bool)
    requires Inv(s) && u in s.peers
    ensures Inv(CheckAgents(s.(peers := s.peers[u := NewSession(s.peers[u].follower, restarted, High(s.peers[u]))])))
  {
    PeerHasInv(s, u);
    SessionRestarts(s, s.peers[u], restarted);
    ReplaceAndCheck(s, u, NewSession(s.peers[u].follower, restarted, High(s.peers[u])));
  }

  /** A follower opens a new stream; the session it leaves may go on without it. */
  lemma {:induction false} ConnectBeside(s: System, u: int, restarted: bool, old_: int)
    requires Inv(s) && u in s.peers && old_ != u
    ensures var p := s.peers[u];
            Inv(CheckAgents(s.(peers := s.peers[old_ := p.(cut := true)][u := NewSession(p.follower, restarted, High(p))])))
  {
    var p := s.peers[u];
    PeerHasInv(s, u);
    ParkInv(s.log, s.base, p);
    ReplacePeer(s, old_, p.(cut := true));
    ConnectAgain(s.(peers := s.peers[old_ := p.(cut := true)]), u, restarted);
  }

  lemma {:induction false} ConnectFirst(s: System, u: int, restarted: bool)
    requires Inv(s)
    ensures Inv(CheckAgents(s.(peers := s.peers[u := NewSession(EMPTY_FOLLOWER, restarted, 0)])))
  {
    FirstSession(s.log, s.base, restarted);
    ReplaceAndCheck(s, u, NewSession(EMPTY_FOLLOWER, restarted, 0));
  }

  lemma {:induction false} ConnectInv(s: System, u: int, restarted: bool, old_: int)
    requires Inv(s)
    ensures Inv(Next(s, Connect(u, restarted, old_)))
  {
    if u !in s.peers {
      ConnectFirst(s, u, restarted);
    } else if s.peers[u].cut {
    } else if s.peers[u].agent.mode == Done {
      ConnectAgain(s, u, restarted);
    } else if old_ !in s.peers {
      ConnectBeside(s, u, restarted, old_);
    }
  }

  lemma {:induction false} AtInv(s: System, u: int, step: PeerStep)
    requires Inv(s)
    ensures Inv(Next(s, At(u, step)))
  {
    if u in s.peers {
      PeerStepInv(s.log, s.base, s.peers[u], s.maxQueue, step);
      if step == GotAck {
        ReplaceAndCheck(s, u, NextPeer(s.peers[u], s.log, s.maxQueue, step));
      } else {
        ReplacePeer(s, u, NextPeer(s.peers[u], s.log, s.maxQueue, step));
      }
    }
  }

  /** Every step in order keeps the whole invariant. */
  lemma {:induction false} StepInv(s: System, e: Step)
    requires Inv(s) && InOrder(s, e)
    ensures Inv(Next(s, e))
  {
    StepLog(s, e);
    match e
    case Issue(_) => OpenChanges(s, Next(s, e));
    case Land(id) => LandInv(s, id);
    case Abort(_) => OpenChanges(s, Next(s, e));
    case Callback(n) => CallbackInv(s, n);
    case RestartPrimary => RestartInv(s);
    case Connect(u, restarted, old_) => ConnectInv(s, u, restarted, old_);
    case At(u, step) => AtInv(s, u, step);
  }

  lemma {:induction false} StartInv(log: seq<Trx>, maxQueue: nat)
    requires Ascending(log)
    ensures Inv(Start(log, maxQueue))
  {
    LastIdOfLog(log);
  }

  /** Every step of the run is taken in order. */
  ghost predicate Orderly(s: System, steps: seq<Step>) {
    forall n :: 0 <= n < |steps| ==> InOrder(Run(s, steps[..n]), steps[n])
  }

  /** Every state that a primary started over an ascending log can reach. */
  ghost predicate Possible(s: System) {
    exists log, maxQueue: nat, steps :: Ascending(log) && s == Run(Start(log, maxQueue), steps)
  }

  /** Those that it reaches while commits land, and are announced, in order. */
  ghost predicate Reachable(s: System) {
    exists log, maxQueue: nat, steps ::
      Ascending(log) && Orderly(Start(log, maxQueue), steps) && s == Run(Start(log, maxQueue), steps)
  }

  lemma {:induction false} OrderlyFront(s: System, steps: seq<Step>)
    requires Orderly(s, steps) && steps != []
    ensures Orderly(s, steps[..|steps| - 1])
    ensures InOrder(Run(s, steps[..|steps| - 1]), steps[|steps| - 1])
  {
    var front := steps[..|steps| - 1];
    forall n | 0 <= n < |front| ensures InOrder(Run(s, front[..n]), front[n]) {
      assert front[..n] == steps[..n];
    }
  }

  lemma {:induction false} RunInv(s: System, steps: seq<Step>)
    requires Inv(s) && Orderly(s, steps)
    ensures Inv(Run(s, steps))
  {
    if steps == [] {
    } else {
      OrderlyFront(s, steps);
      RunInv(s, steps[..|steps| - 1]);
      StepInv(Run(s, steps[..|steps| - 1]), steps[|steps| - 1]);
    }
  }
}
