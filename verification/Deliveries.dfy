/** What sessions deliver in every run of the cluster, in whatever order commits land
 *  and are announced: exactly when it is a gap-free prefix of the log, and what is
 *  lost when it is not.
 */
module Deliveries {
  import opened Options
  import opened Transactions
  import opened Sessions
  import opened Cluster
  import opened Landings

  // ------------------------------------------------------ one session's step

  /** What step e makes of the session of u. */
  ghost function PeerNext(s: System, u: int, e: Step): Peer
    requires u in s.peers
  {
    var p := s.peers[u];
    match e
    case Callback(n) =>
      if n < |s.uncalled| && s.lastTrx < s.uncalled[n].id
      then Pushed(p, s.lastTrx, s.uncalled[n], s.maxQueue) else p
    case RestartPrimary => Dropped(p)
    case Connect(v, restarted, old_) =>
      if v != u || p.cut || (p.agent.mode != Done && old_ in s.peers) then p
      else NewSession(p.follower, restarted, High(p))
    case At(v, step) => if v == u then NextPeer(p, s.log, s.maxQueue, step) else p
    case _ => p
  }

  lemma {:induction false} PeerNextIs(s: System, u: int, e: Step)
    requires u in s.peers
    ensures u in Next(s, e).peers && Next(s, e).peers[u] == PeerNext(s, u, e)
  {
    match e
    case Connect(v, restarted, old_) => ConnectPeers(s, v, restarted, old_);
    case At(v, step) =>
      if v in s.peers {
        CheckAgentsRaises(s.(peers := s.peers[v := NextPeer(s.peers[v], s.log, s.maxQueue, step)]));
      }
    case _ =>
  }

  /** Connecting changes the sessions of v and of its parked predecessor only. */
  lemma {:induction false} ConnectPeers(s: System, v: int, restarted: bool, old_: int)
    ensures Next(s, Connect(v, restarted, old_)).peers ==
            if v !in s.peers then s.peers[v := NewSession(EMPTY_FOLLOWER, restarted, 0)]
            else
              var p := s.peers[v];
              var p' := NewSession(p.follower, restarted, High(p));
              if p.cut then s.peers
              else if p.agent.mode == Done then s.peers[v := p']
              else if old_ in s.peers then s.peers
              else s.peers[old_ := p.(cut := true)][v := p']
  {
    if v !in s.peers {
      CheckAgentsRaises(s.(peers := s.peers[v := NewSession(EMPTY_FOLLOWER, restarted, 0)]));
    } else {
      var p := s.peers[v];
      var p' := NewSession(p.follower, restarted, High(p));
      CheckAgentsRaises(s.(peers := s.peers[v := p']));
      CheckAgentsRaises(s.(peers := s.peers[old_ := p.(cut := true)][v := p']));
    }
  }

  /** Steps of sessions change neither the log nor the waiting commits. */
  lemma {:induction false} SessionFrame(s: System, e: Step)
    requires e.Connect? || e.At?
    ensures var s' := Next(s, e); s'.log == s.log && s'.uncalled == s.uncalled
  {
    if e.At? {
      if e.uuid in s.peers {
        CheckAgentsRaises(s.(peers := s.peers[e.uuid := NextPeer(s.peers[e.uuid], s.log, s.maxQueue, e.step)]));
      }
    } else if e.uuid !in s.peers {
      CheckAgentsRaises(s.(peers := s.peers[e.uuid := NewSession(EMPTY_FOLLOWER, e.restarted, 0)]));
    } else {
      var p := s.peers[e.uuid];
      var p' := NewSession(p.follower, e.restarted, High(p));
      CheckAgentsRaises(s.(peers := s.peers[e.uuid := p']));
      CheckAgentsRaises(s.(peers := s.peers[e.old_ := p.(cut := true)][e.uuid := p']));
    }
  }

  /** The log grows, and only by landing. */
  lemma {:induction false} LogNext(s: System, e: Step)
    ensures Next(s, e).log == if e.Land? && e.id in s.open then Insert(s.log, Trx(e.id, s.open[e.id])) else s.log
  {
    if e.Connect? || e.At? { SessionFrame(s, e); }
  }

  // ------------------------------------------------------- what every run keeps

  ghost predicate AllIn(ts: seq<Trx>, log: seq<Trx>) {
    forall t :: t in ts ==> t in log
  }

  /** Log entries in ascending order, above the given id. */
  ghost predicate Above(ts: seq<Trx>, id: nat) {
    && (forall i :: 0 <= i < |ts| ==> id < ts[i].id)
    && (forall i, j :: 0 <= i < j < |ts| ==> ts[i].id < ts[j].id)
  }

  /** What is accepted, and what a scan has still to visit, is in the log. A scan goes on
   *  above the agent's position, and visits again whatever was accepted from there.
   */
  ghost predicate FeedInv(log: seq<Trx>, a: Agent, c: Client, scan: Scan) {
    && AllIn(c.accepted, log)
    && (scan.Scan? ==>
          && a.mode != Streaming
          && AllIn(scan.rest, log) && Above(scan.rest, a.enqueued)
          && (forall t :: t in c.accepted ==> t.id <= a.enqueued || t in scan.rest))
    && (!c.done ==> a.enqueued == 0 || exists t :: t in c.accepted && t.id == a.enqueued)
  }

  /** The updates that the follower has read in this session. */
  function ReadBy(p: Peer): seq<Trx> {
    p.client.accepted[..if p.follower.rx <= |p.client.accepted| then p.follower.rx else |p.client.accepted|]
  }

  ghost predicate KeyOf(log: map<nat, Trx>, k: string) {
    exists i :: i in log && k in Named(log[i].parts)
  }

  /** The follower's TRXLOG has log entries only, all those read in this session, and in a
   *  first session no others; each key named by those read has the value that the last of
   *  them gives it; and no key is stored that the TRXLOG does not name.
   */
  ghost predicate CopyInv(log: seq<Trx>, f: Follower, read: seq<Trx>, held: nat) {
    && (forall i :: i in f.log ==> f.log[i].id == i && f.log[i] in log)
    && (forall t :: t in read ==> t.id in f.log)
    && (held == 0 ==> forall i :: i in f.log ==> f.log[i] in read)
    && (forall k :: LastInLog(read, k).Some? ==> Get(f.store, k) == Effect(LastInLog(read, k), None))
    && (forall k :: k in f.store ==> KeyOf(f.log, k))
  }

  ghost predicate DeliveryInv(log: seq<Trx>, p: Peer) {
    && FeedInv(log, p.agent, p.client, p.scan)
    && p.follower.rx <= |Sent(p.client)|
    && CopyInv(log, p.follower, ReadBy(p), p.held)
  }

  ghost predicate AllDelivered(log: seq<Trx>, peers: map<int, Peer>) {
    forall u :: u in peers ==> DeliveryInv(log, peers[u])
  }

  ghost predicate LoggedInv(s: System) {
    AllIn(s.uncalled, s.log) && AllDelivered(s.log, s.peers)
  }

  lemma {:induction false} LongerLog(log: seq<Trx>, log': seq<Trx>, p: Peer)
    requires DeliveryInv(log, p) && AllIn(log, log')
    ensures DeliveryInv(log', p)
  {
  }

  /** The log is split where the ids get larger. */
  lemma {:induction false} FirstAfterSplits(log: seq<Trx>, id: nat)
    requires Ascending(log)
    ensures forall i :: 0 <= i < |log| ==> (log[i].id <= id <==> i < FirstAfter(log, id))
  {
    if log == [] {
    } else if log[|log| - 1].id <= id {
    } else {
      var front := log[..|log| - 1];
      FirstAfterSplits(front, id);
      assert forall i :: 0 <= i < |front| ==> front[i] == log[i];
    }
  }

  /** What the log has after an id is above it, and is all that is. */
  lemma {:induction false} AfterIsAbove(log: seq<Trx>, id: nat)
    requires Ascending(log)
    ensures Above(log[FirstAfter(log, id)..], id) && AllIn(log[FirstAfter(log, id)..], log)
    ensures forall t :: t in log ==> t.id <= id || t in log[FirstAfter(log, id)..]
  {
    var k := FirstAfter(log, id);
    FirstAfterSplits(log, id);
    forall t | t in log ensures t.id <= id || t in log[k..] {
      var i :| 0 <= i < |log| && log[i] == t;
      if k <= i { assert log[k..][i - k] == t; }
    }
  }

  lemma {:induction false} TaskFeeds(log: seq<Trx>, a: Agent, c: Client)
    requires Ascending(log) && FeedInv(log, a, c, NoScan) && 0 < a.posts && a.mode == IteratingDb
    ensures FeedInv(log, a.(posts := a.posts - 1), c, ScanAfter(log, a.enqueued))
  {
    AfterIsAbove(log, a.enqueued);
  }

  lemma {:induction false} AboveRest(ts: seq<Trx>, id: nat)
    requires Above(ts, id) && ts != []
    ensures Above(ts[1..], ts[0].id)
  {
  }

  lemma {:induction false} VisitFeeds(log: seq<Trx>, a: Agent, c: Client, scan: Scan, maxQueue: nat)
    requires FeedInv(log, a, c, scan) && scan.Scan? && scan.rest != []
    ensures var (a', c', more) := Feed(a, c, scan.rest[0], maxQueue);
            FeedInv(log, a', c', if more then Scan(scan.at + 1, scan.rest[1..]) else NoScan)
  {
    var (a', c', more) := Feed(a, c, scan.rest[0], maxQueue);
    assert scan.rest[0] in scan.rest && scan.rest == [scan.rest[0]] + scan.rest[1..];
    AboveRest(scan.rest, a.enqueued);
    assert c'.accepted == if c.done then c.accepted else c.accepted + [scan.rest[0]];
    if !c.done {
      assert scan.rest[0] in c'.accepted;
    }
  }

  lemma {:induction false} PushFeeds(log: seq<Trx>, a: Agent, c: Client, scan: Scan, prev: nat, t: Trx, maxQueue: nat)
    requires FeedInv(log, a, c, scan) && t in log
    ensures var (a', c') := Push(a, c, prev, t, maxQueue); FeedInv(log, a', c', scan)
  {
    var (a', c') := Push(a, c, prev, t, maxQueue);
    if a.mode == Streaming && prev == a.enqueued && !c.done {
      assert c'.accepted == c.accepted + [t];
      assert t in c'.accepted;
    }
  }

  lemma {:induction false} StepFeeds(log: seq<Trx>, p: Peer, maxQueue: nat, e: PeerStep)
    requires Ascending(log) && FeedInv(log, p.agent, p.client, p.scan)
    ensures var p' := NextPeer(p, log, maxQueue, e); FeedInv(log, p'.agent, p'.client, p'.scan)
  {
    match e
    case RunTask => if 0 < p.agent.posts && p.scan == NoScan && p.agent.mode == IteratingDb {
      TaskFeeds(log, p.agent, p.client);
    }
    case ScanOne => if p.scan.Scan? && p.scan.rest != [] && p.agent.mode != Done {
      VisitFeeds(log, p.agent, p.client, p.scan, maxQueue);
    }
    case _ =>
  }

  // ---------------------------------------------------------- the follower's copy

  lemma {:induction false} ReadMore(log: seq<Trx>, f: Follower, read: seq<Trx>, held: nat, t: Trx)
    requires Ascending(log) && CopyInv(log, f, read, held) && t in log
    ensures CopyInv(log, ReceiveNext(f, t), read + [t], held)
  {
    var f' := ReceiveNext(f, t);
    forall k | LastInLog(read + [t], k).Some?
      ensures Get(f'.store, k) == Effect(LastInLog(read + [t], k), None)
    {
      LastInLogAppend(read, t, k);
      ApplyPartsLastWins(f.store, t.parts, k);
    }
    forall k | k in f'.store ensures KeyOf(f'.log, k) {
      StoredKey(log, f, t, k);
    }
    forall i | i in f.log && i == t.id ensures f.log[i] == t {
      SameId(log, f.log[i], t);
    }
  }

  lemma {:induction false} SameId(log: seq<Trx>, a: Trx, b: Trx)
    requires Ascending(log) && a in log && b in log && a.id == b.id
    ensures a == b
  {
    var i, j :| 0 <= i < |log| && 0 <= j < |log| && log[i] == a && log[j] == b;
    IdAtOrder(log, i + 1, j + 1);
  }

  lemma {:induction false} StoredKey(log: seq<Trx>, f: Follower, t: Trx, k: string)
    requires Ascending(log) && t in log && k in ApplyParts(f.store, t.parts)
    requires forall i :: i in f.log ==> f.log[i].id == i && f.log[i] in log
    requires forall x :: x in f.store ==> KeyOf(f.log, x)
    ensures KeyOf(f.log[t.id := t], k)
  {
    var log' := f.log[t.id := t];
    ApplyPartsLastWins(f.store, t.parts, k);
    LastPartNamed(t.parts, k);
    if k in Named(t.parts) {
      assert t.id in log' && k in Named(log'[t.id].parts);
    } else {
      assert Get(f.store, k).Some?;
      var i :| i in f.log && k in Named(f.log[i].parts);
      if i == t.id { SameId(log, f.log[i], t); }
      assert i in log' && k in Named(log'[i].parts);
    }
  }

  /** More accepted updates change nothing about those read. */
  lemma {:induction false} SameRead(p: Peer, p': Peer)
    requires ClientInv(p.client) && p.follower.rx <= |Sent(p.client)|
    requires p'.follower.rx == p.follower.rx && p.client.accepted <= p'.client.accepted
    ensures ReadBy(p') == ReadBy(p)
  {
    assert |Sent(p.client)| <= |p.client.accepted|;
  }

  lemma {:induction false} ReadsNext(p: Peer)
    requires ClientInv(p.client) && p.follower.rx < |Sent(p.client)|
    ensures var t := Sent(p.client)[p.follower.rx];
            && t in p.client.accepted
            && ReadBy(p.(follower := ReceiveNext(p.follower, t))) == ReadBy(p) + [t]
  {
    var c, rx := p.client, p.follower.rx;
    assert c.accepted == Sent(c) + c.pending;
    assert c.accepted[rx] == Sent(c)[rx];
    assert c.accepted[..rx + 1] == c.accepted[..rx] + [c.accepted[rx]];
  }

  predicate SameCopy(p: Peer, p': Peer) {
    && p'.follower.rx == p.follower.rx && p'.follower.log == p.follower.log
    && p'.follower.store == p.follower.store && p'.held == p.held
  }

  /** The client goes on; the follower's part is what it was. */
  lemma {:induction false} SenderMoves(log: seq<Trx>, p: Peer, p': Peer)
    requires DeliveryInv(log, p) && ClientInv(p.client)
    requires SameCopy(p, p') && p.client.accepted <= p'.client.accepted && |Sent(p.client)| <= |Sent(p'.client)|
    requires FeedInv(log, p'.agent, p'.client, p'.scan)
    ensures DeliveryInv(log, p')
  {
    SameRead(p, p');
  }

  lemma {:induction false} SendsMore(p: Peer, log: seq<Trx>, maxQueue: nat, e: PeerStep)
    requires ClientInv(p.client) && (e == Receive ==> NextPeer(p, log, maxQueue, e) == p)
    ensures var p' := NextPeer(p, log, maxQueue, e);
            && p.client.accepted <= p'.client.accepted && |Sent(p.client)| <= |Sent(p'.client)|
            && SameCopy(p, p')
  {
    match e
    case ScanOne => if p.scan.Scan? && p.scan.rest != [] { EnqueueInv(p.client, p.scan.rest[0], maxQueue); }
    case WriteDone => if p.client.current.Some? { WriteDoneInv(p.client); }
    case _ =>
  }

  lemma {:induction false} ReceiveDelivers(log: seq<Trx>, p: Peer)
    requires Ascending(log) && DeliveryInv(log, p) && ClientInv(p.client) && p.follower.rx < |Sent(p.client)|
    ensures DeliveryInv(log, p.(follower := ReceiveNext(p.follower, Sent(p.client)[p.follower.rx])))
  {
    ReadsNext(p);
    ReadMore(log, p.follower, ReadBy(p), p.held, Sent(p.client)[p.follower.rx]);
  }

  lemma {:induction false} StepDelivers(log: seq<Trx>, p: Peer, maxQueue: nat, e: PeerStep)
    requires Ascending(log) && DeliveryInv(log, p) && ClientInv(p.client)
    ensures DeliveryInv(log, NextPeer(p, log, maxQueue, e))
  {
    var p' := NextPeer(p, log, maxQueue, e);
    if e == Receive && p' != p {
      ReceiveDelivers(log, p);
    } else {
      OtherDelivers(log, p, maxQueue, e, p');
    }
  }

  lemma {:induction false} OtherDelivers(log: seq<Trx>, p: Peer, maxQueue: nat, e: PeerStep, p': Peer)
    requires Ascending(log) && DeliveryInv(log, p) && ClientInv(p.client)
    requires p' == NextPeer(p, log, maxQueue, e) && (e == Receive ==> p' == p)
    ensures DeliveryInv(log, p')
  {
    StepFeeds(log, p, maxQueue, e);
    SendsMore(p, log, maxQueue, e);
    SenderMoves(log, p, p');
  }

  lemma {:induction false} PushDelivers(log: seq<Trx>, p: Peer, prev: nat, t: Trx, maxQueue: nat)
    requires DeliveryInv(log, p) && ClientInv(p.client) && t in log
    ensures DeliveryInv(log, Pushed(p, prev, t, maxQueue))
  {
    PushFeeds(log, p.agent, p.client, p.scan, prev, t, maxQueue);
    EnqueueInv(p.client, t, maxQueue);
    SenderMoves(log, p, Pushed(p, prev, t, maxQueue));
  }

  lemma {:induction false} DropDelivers(log: seq<Trx>, p: Peer)
    requires DeliveryInv(log, p) && ClientInv(p.client)
    ensures DeliveryInv(log, Dropped(p))
  {
    SenderMoves(log, p, Dropped(p));
  }

  /** A follower that has nothing has never read anything. */
  lemma {:induction false} NewDelivers(log: seq<Trx>, p: Peer, restarted: bool)
    requires DeliveryInv(log, p)
    ensures DeliveryInv(log, NewSession(p.follower, restarted, High(p)))
  {
    if High(p) == 0 {
      assert ReadBy(p) == [];
      assert p.follower.log == map[];
    }
  }

  lemma {:induction false} FirstDelivers(log: seq<Trx>, restarted: bool)
    ensures DeliveryInv(log, NewSession(EMPTY_FOLLOWER, restarted, 0))
  {
  }

  lemma {:induction false} ConnectDelivers(s: System, v: int, restarted: bool, old_: int)
    requires AllDelivered(s.log, s.peers)
    ensures AllDelivered(s.log, Next(s, Connect(v, restarted, old_)).peers)
  {
    ConnectPeers(s, v, restarted, old_);
    FirstDelivers(s.log, restarted);
    if v in s.peers {
      NewDelivers(s.log, s.peers[v], restarted);
      assert DeliveryInv(s.log, s.peers[v].(cut := true));
    }
  }

  lemma {:induction false} PeerDelivers(s: System, u: int, e: Step)
    requires LogInv(s) && LoggedInv(s) && u in s.peers && ClientInv(s.peers[u].client)
    ensures DeliveryInv(s.log, PeerNext(s, u, e))
  {
    var p := s.peers[u];
    assert DeliveryInv(s.log, p);
    match e
    case Callback(n) =>
      if n < |s.uncalled| {
        assert s.uncalled[n] in s.uncalled;
        PushDelivers(s.log, p, s.lastTrx, s.uncalled[n], s.maxQueue);
      }
    case RestartPrimary => DropDelivers(s.log, p);
    case Connect(v, restarted, old_) => NewDelivers(s.log, p, restarted);
    case At(v, step) => StepDelivers(s.log, p, s.maxQueue, step);
    case _ =>
  }

  lemma {:induction false} PeersDeliver(s: System, e: Step)
    requires SafeInv(s) && LoggedInv(s)
    ensures AllDelivered(s.log, Next(s, e).peers)
  {
    if e.Connect? {
      ConnectDelivers(s, e.uuid, e.restarted, e.old_);
    } else {
      forall u | u in s.peers ensures DeliveryInv(s.log, PeerNext(s, u, e)) {
        assert LiveInv(s.peers[u]);
        PeerDelivers(s, u, e);
      }
      SamePeers(s, e);
    }
  }

  lemma {:induction false} SamePeers(s: System, e: Step)
    requires !e.Connect?
    ensures Next(s, e).peers.Keys == s.peers.Keys
    ensures forall u :: u in s.peers ==> Next(s, e).peers[u] == PeerNext(s, u, e)
  {
    forall u | u in s.peers ensures u in Next(s, e).peers && Next(s, e).peers[u] == PeerNext(s, u, e) {
      PeerNextIs(s, u, e);
    }
    if e.At? && e.uuid in s.peers {
      CheckAgentsRaises(s.(peers := s.peers[e.uuid := NextPeer(s.peers[e.uuid], s.log, s.maxQueue, e.step)]));
    }
  }

  /** Waiting commits are in the log. */
  lemma {:induction false} WaitingNext(s: System, e: Step)
    requires AllIn(s.uncalled, s.log)
    ensures AllIn(Next(s, e).uncalled, Next(s, e).log) && AllIn(s.log, Next(s, e).log)
  {
    LogNext(s, e);
    if e.Connect? || e.At? { SessionFrame(s, e); }
  }

  lemma {:induction false} StepLogged(s: System, e: Step)
    requires SafeInv(s) && LoggedInv(s)
    ensures LoggedInv(Next(s, e))
  {
    WaitingNext(s, e);
    PeersDeliver(s, e);
    var s' := Next(s, e);
    forall u | u in s'.peers ensures DeliveryInv(s'.log, s'.peers[u]) {
      LongerLog(s.log, s'.log, s'.peers[u]);
    }
  }

  lemma {:induction false} RunLogged(s: System, steps: seq<Step>)
    requires SafeInv(s) && LoggedInv(s)
    ensures LoggedInv(Run(s, steps))
  {
    if steps == [] {
    } else {
      RunLogged(s, steps[..|steps| - 1]);
      RunSafe(s, steps[..|steps| - 1]);
      StepLogged(Run(s, steps[..|steps| - 1]), steps[|steps| - 1]);
    }
  }

  lemma {:induction false} PossibleLogged(s: System)
    requires Possible(s)
    ensures LoggedInv(s)
  {
    var log, maxQueue: nat, steps :| Ascending(log) && s == Run(Start(log, maxQueue), steps);
    StartInv(log, maxQueue);
    RunLogged(Start(log, maxQueue), steps);
  }

  /** In every run: the log, and what is known of u's session. */
  lemma {:induction false} PossiblePeer(s: System, u: int)
    requires Possible(s) && u in s.peers
    ensures Ascending(s.log) && AllIn(s.uncalled, s.log)
    ensures DeliveryInv(s.log, s.peers[u]) && ClientInv(s.peers[u].client)
  {
    PossibleInv(s);
    PossibleLogged(s);
    assert LiveInv(s.peers[u]);
  }

  // ------------------------------------------------- exactly when there is no gap

  /** What u's client has accepted, repeats collapsed, is the log up to some point. */
  ghost predicate GapFree(s: System, u: int)
    requires u in s.peers
  {
    Collapse(s.peers[u].client.accepted) <= s.log
  }

  /** The transaction that step e hands to u's client, if any. */
  ghost function Delivered(s: System, u: int, e: Step): Option<Trx>
    requires u in s.peers
  {
    var p := s.peers[u];
    match e
    case Callback(n) =>
      if n < |s.uncalled| && s.lastTrx < s.uncalled[n].id && p.agent.mode == Streaming &&
         p.agent.enqueued == s.lastTrx && !p.client.done
      then Some(s.uncalled[n]) else None
    case At(v, step) =>
      if v == u && step == ScanOne && p.scan.Scan? && p.scan.rest != [] && p.agent.mode != Done && !p.client.done
      then Some(p.scan.rest[0]) else None
    case _ => None
  }

  /** The step opens a new session for u. */
  predicate Starts(u: int, e: Step) {
    e.Connect? && e.uuid == u
  }

  lemma {:induction false} PushAccepts(p: Peer, prev: nat, t: Trx, maxQueue: nat)
    ensures Pushed(p, prev, t, maxQueue).client.accepted ==
            p.client.accepted + if p.agent.mode == Streaming && p.agent.enqueued == prev && !p.client.done then [t] else []
  {
  }

  lemma {:induction false} VisitAccepts(p: Peer, maxQueue: nat)
    requires p.scan.Scan? && p.scan.rest != [] && p.agent.mode != Done && !p.client.done
    ensures ScanNext(p, maxQueue).client.accepted == p.client.accepted + [p.scan.rest[0]]
  {
  }

  /** A step accepts what it delivers, and nothing else. */
  lemma {:induction false} AcceptsDelivered(s: System, u: int, e: Step)
    requires u in s.peers && !Starts(u, e)
    ensures PeerNext(s, u, e).client.accepted ==
            s.peers[u].client.accepted + if Delivered(s, u, e).Some? then [Delivered(s, u, e).value] else []
  {
    var p := s.peers[u];
    match e
    case Callback(n) => if n < |s.uncalled| { PushAccepts(p, s.lastTrx, s.uncalled[n], s.maxQueue); }
    case At(v, step) => if Delivered(s, u, e).Some? { VisitAccepts(p, s.maxQueue); }
    case _ =>
  }

  /** It is the last accepted transaction again, or the next one of the log. */
  ghost predicate Follows(log: seq<Trx>, last: nat, t: Trx) {
    last <= t.id && forall x :: x in log ==> !(last < x.id < t.id)
  }

  lemma {:induction false} PrefixFollowsIff(log: seq<Trx>, c: Client, t: Trx)
    requires Ascending(log) && Collapse(c.accepted) <= log && t in log
    ensures Collapse(c.accepted + [t]) <= log <==> Follows(log, LastAccepted(c), t)
  {
    var i :| 0 <= i < |log| && log[i] == t;
    var k := |Collapse(c.accepted)|;
    assert Collapse(c.accepted) == log[..k];
    AcceptsIff(log, c.accepted, k, i);
    assert LastAccepted(c) == IdAt(log, k);
    FollowsIff(log, k, i);
  }

  lemma {:induction false} AcceptsIff(log: seq<Trx>, accepted: seq<Trx>, k: nat, i: nat)
    requires Ascending(log) && k <= |log| && Collapse(accepted) == log[..k] && i < |log|
    ensures Collapse(accepted + [log[i]]) <= log <==> i == k || i + 1 == k
  {
    CollapseAppend(accepted, log[i]);
    LongerPrefixIff(log, k, i);
    if accepted != [] {
      assert accepted[|accepted| - 1] == log[..k][k - 1] == log[k - 1];
      IdAtOrder(log, k, i + 1);
    }
  }

  lemma {:induction false} LongerPrefixIff(log: seq<Trx>, k: nat, i: nat)
    requires Ascending(log) && k <= |log| && i < |log|
    ensures log[..k] + [log[i]] <= log <==> i == k
  {
    if i == k {
      assert log[..k] + [log[i]] == log[..k + 1];
    } else {
      assert (log[..k] + [log[i]])[k] == log[i];
    }
  }

  lemma {:induction false} FollowsIff(log: seq<Trx>, k: nat, i: nat)
    requires Ascending(log) && k <= |log| && i < |log|
    ensures Follows(log, IdAt(log, k), log[i]) <==> i == k || i + 1 == k
  {
    IdAtOrder(log, k, i + 1);
    if i == k || i + 1 == k {
      forall x | x in log ensures !(IdAt(log, k) < x.id < log[i].id) {
        var j :| 0 <= j < |log| && log[j] == x;
        IdAtOrder(log, j + 1, k);
        IdAtOrder(log, j + 1, i + 1);
      }
    } else if k < i {
      IdAtOrder(log, k, k + 1);
      assert log[k] in log;
    }
  }

  /** The condition on step e: what lands has a larger id than anything that u's client
   *  has accepted, and what is delivered to it comes next in the log.
   */
  ghost predicate KeepsPrefix(s: System, u: int, e: Step)
    requires u in s.peers
  {
    && (e.Land? && e.id in s.open ==> LastAccepted(s.peers[u].client) < e.id)
    && (Delivered(s, u, e).Some? ==> Follows(s.log, LastAccepted(s.peers[u].client), Delivered(s, u, e).value))
  }

  /** In every run: a step leaves what u's client accepted a prefix of the log if and only
   *  if it meets the condition. A new session starts with nothing accepted.
   */
  lemma {:induction false} StepKeepsPrefixIff(s: System, u: int, e: Step)
    requires Possible(s) && u in s.peers && GapFree(s, u)
    ensures u in Next(s, e).peers
    ensures GapFree(Next(s, e), u) <==> KeepsPrefix(s, u, e)
  {
    PeerNextIs(s, u, e);
    if e.Land? && e.id in s.open {
      LandingKeepsPrefixIff(s, u, e.id);
    } else {
      LogNext(s, e);
      DeliveryKeepsPrefixIff(s, u, e);
    }
  }

  lemma {:induction false} DeliveryKeepsPrefixIff(s: System, u: int, e: Step)
    requires Possible(s) && u in s.peers && GapFree(s, u)
    ensures Collapse(PeerNext(s, u, e).client.accepted) <= s.log <==>
            Delivered(s, u, e).Some? ==> Follows(s.log, LastAccepted(s.peers[u].client), Delivered(s, u, e).value)
  {
    if Starts(u, e) {
    } else {
      AcceptsDelivered(s, u, e);
      if Delivered(s, u, e).Some? {
        DeliveredIsLogged(s, u, e);
        PrefixFollowsIff(s.log, s.peers[u].client, Delivered(s, u, e).value);
      } else {
        assert PeerNext(s, u, e).client.accepted == s.peers[u].client.accepted;
      }
    }
  }

  lemma {:induction false} DeliveredIsLogged(s: System, u: int, e: Step)
    requires Possible(s) && u in s.peers && Delivered(s, u, e).Some?
    ensures Ascending(s.log) && Delivered(s, u, e).value in s.log
    ensures s.peers[u].agent.enqueued < Delivered(s, u, e).value.id
  {
    PossiblePeer(s, u);
    if e.Callback? {
      assert s.uncalled[e.n] in s.uncalled;
    } else {
      assert s.peers[u].scan.rest[0] in s.peers[u].scan.rest;
    }
  }

  /** A gap never closes within a session. */
  lemma {:induction false} GapStays(s: System, u: int, e: Step)
    requires Possible(s) && u in s.peers && !GapFree(s, u) && !Starts(u, e)
    ensures u in Next(s, e).peers && !GapFree(Next(s, e), u)
  {
    PossiblePeer(s, u);
    PeerNextIs(s, u, e);
    LogNext(s, e);
    AcceptsDelivered(s, u, e);
    var accepted, accepted' := s.peers[u].client.accepted, PeerNext(s, u, e).client.accepted;
    if e.Land? && e.id in s.open {
      PossibleLog(s);
      LandingKeepsGap(s.log, Trx(e.id, s.open[e.id]), accepted);
    } else {
      assert accepted'[..|accepted|] == accepted;
      CollapsePrefix(accepted', |accepted|);
    }
  }

  lemma {:induction false} CollapseMembers<T>(s: seq<T>, x: T)
    ensures x in Collapse(s) <==> x in s
  {
    if |s| <= 1 {
    } else {
      CollapseMembers(s[..|s| - 1], x);
      assert s == s[..|s| - 1] + [s[|s| - 1]];
    }
  }

  lemma {:induction false} LandingKeepsGap(log: seq<Trx>, t: Trx, accepted: seq<Trx>)
    requires AllIn(accepted, log) && t !in log
    ensures Collapse(accepted) <= Insert(log, t) ==> Collapse(accepted) <= log
  {
    var c, log' := Collapse(accepted), Insert(log, t);
    var i := InsertAt(log, t);
    CollapseMembers(accepted, t);
    assert log'[i] == t;
    if c <= log' {
      assert |c| <= i;
      assert c == log[..|c|];
    }
  }

  /** The place of t in the log. */
  lemma {:induction false} InsertAt(log: seq<Trx>, t: Trx) returns (i: nat)
    ensures i <= |log| && Insert(log, t) == log[..i] + [t] + log[i..]
  {
    if log == [] || log[|log| - 1].id < t.id {
      i := |log|;
    } else {
      var n := |log| - 1;
      i := InsertAt(log[..n], t);
      assert log[..n][..i] == log[..i] && log[..n][i..] + [log[n]] == log[i..];
    }
  }

  /** No step of the list opens a new session for u. */
  ghost predicate SameSession(u: int, steps: seq<Step>) {
    forall e :: e in steps ==> !Starts(u, e)
  }

  /** Every step meets the condition in the state in which it is taken. */
  ghost predicate AllKeep(s: System, u: int, steps: seq<Step>) {
    forall n :: 0 <= n < |steps| ==>
      var mid := Run(s, steps[..n]); u in mid.peers && KeepsPrefix(mid, u, steps[n])
  }

  lemma {:induction false} AllKeepLast(s: System, u: int, front: seq<Step>, e: Step)
    ensures AllKeep(s, u, front + [e]) <==>
            AllKeep(s, u, front) && u in Run(s, front).peers && KeepsPrefix(Run(s, front), u, e)
  {
    var steps := front + [e];
    assert steps[..|front|] == front && steps[|front|] == e;
    assert forall n :: 0 <= n < |front| ==> steps[..n] == front[..n] && steps[n] == front[n];
    if AllKeep(s, u, steps) {
      forall n | 0 <= n < |front|
        ensures var mid := Run(s, front[..n]); u in mid.peers && KeepsPrefix(mid, u, front[n])
      {
        assert steps[..n] == front[..n];
      }
    }
  }

  /** Exactly when a session stays gap-free: if and only if every step meets the condition. */
  lemma {:induction false} RunKeepsPrefixIff(s: System, u: int, steps: seq<Step>)
    requires Possible(s) && u in s.peers && GapFree(s, u) && SameSession(u, steps)
    ensures u in Run(s, steps).peers
    ensures GapFree(Run(s, steps), u) <==> AllKeep(s, u, steps)
  {
    if steps == [] {
    } else {
      var front, last := steps[..|steps| - 1], steps[|steps| - 1];
      assert SameSession(u, front);
      assert last in steps;
      RunKeepsPrefixIff(s, u, front);
      PossibleRun(s, front);
      LastKeepsIff(Run(s, front), u, last);
      AllKeepLast(s, u, front, last);
      assert steps == front + [last];
    }
  }

  lemma {:induction false} LastKeepsIff(s: System, u: int, e: Step)
    requires Possible(s) && u in s.peers && !Starts(u, e)
    ensures u in Next(s, e).peers
    ensures GapFree(Next(s, e), u) <==> GapFree(s, u) && KeepsPrefix(s, u, e)
  {
    if GapFree(s, u) {
      StepKeepsPrefixIff(s, u, e);
    } else {
      GapStays(s, u, e);
    }
  }

  lemma {:induction false} PossibleRun(s: System, steps: seq<Step>)
    requires Possible(s)
    ensures Possible(Run(s, steps))
  {
    if steps == [] {
    } else {
      PossibleRun(s, steps[..|steps| - 1]);
      PossibleNext(Run(s, steps[..|steps| - 1]), steps[|steps| - 1]);
    }
  }

  // ----------------------------------------------------------- lost for good

  /** Not accepted, and the agent's position is past it. */
  ghost predicate Missed(p: Peer, t: Trx) {
    t !in p.client.accepted && t.id <= p.agent.enqueued
  }

  /** In every run, what a session has missed it never gets. */
  lemma {:induction false} StaysMissed(s: System, u: int, e: Step, t: Trx)
    requires Possible(s) && u in s.peers && Missed(s.peers[u], t) && !Starts(u, e)
    ensures u in Next(s, e).peers && Missed(Next(s, e).peers[u], t)
  {
    PeerNextIs(s, u, e);
    AcceptsDelivered(s, u, e);
    if Delivered(s, u, e).Some? { DeliveredIsLogged(s, u, e); }
    PossiblePeer(s, u);
    PositionRises(s, u, e);
  }

  lemma {:induction false} PositionRises(s: System, u: int, e: Step)
    requires u in s.peers && !Starts(u, e) && DeliveryInv(s.log, s.peers[u])
    ensures s.peers[u].agent.enqueued <= PeerNext(s, u, e).agent.enqueued
  {
    var p := s.peers[u];
    match e
    case Callback(n) =>
    case At(v, step) => if step == ScanOne && p.scan.Scan? && p.scan.rest != [] { assert p.agent.enqueued < p.scan.rest[0].id; }
    case _ =>
  }

  lemma {:induction false} RunStaysMissed(s: System, u: int, steps: seq<Step>, t: Trx)
    requires Possible(s) && u in s.peers && Missed(s.peers[u], t) && SameSession(u, steps)
    ensures u in Run(s, steps).peers && Missed(Run(s, steps).peers[u], t)
  {
    if steps == [] {
    } else {
      var front := steps[..|steps| - 1];
      assert SameSession(u, front);
      assert steps[|steps| - 1] in steps;
      RunStaysMissed(s, u, front, t);
      PossibleRun(s, front);
      StaysMissed(Run(s, front), u, steps[|steps| - 1], t);
    }
  }

  /** A commit that lands when u's agent is at its id or past it is lost to the session:
   *  whatever lands, is announced or happens afterwards, u's client does not accept it.
   */
  lemma {:induction false} LateLandingIsMissed(s: System, u: int, id: nat, steps: seq<Step>)
    requires Possible(s) && u in s.peers && id in s.open && id <= s.peers[u].agent.enqueued && SameSession(u, steps)
    ensures var t, s' := Trx(id, s.open[id]), Run(Next(s, Land(id)), steps);
            u in s'.peers && t in Next(s, Land(id)).log && t !in s'.peers[u].client.accepted
  {
    var t, s1 := Trx(id, s.open[id]), Next(s, Land(id));
    PossiblePeer(s, u);
    PossibleLog(s);
    PossibleNext(s, Land(id));
    RunStaysMissed(s1, u, steps, t);
  }
}
