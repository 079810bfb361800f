/** What holds in every run of the cluster, in whatever order commits land and are
 *  announced, and what the order is needed for.
 */
module Landings {
  import opened Options
  import opened Transactions
  import opened Sessions
  import opened Cluster

  /** No transaction, or one that the follower has committed. */
  predicate Known(f: Follower, id: nat) {
    id == 0 || id in f.log
  }

  /** What is acknowledged, and what is confirmed, the follower has committed. */
  ghost predicate KnownInv(p: Peer) {
    && Known(p.follower, p.follower.current)
    && (p.follower.unset.Some? ==> Known(p.follower, p.follower.unset.value))
    && (forall i :: 0 <= i < |p.acks| ==> Known(p.follower, p.acks[i]))
    && Known(p.follower, p.agent.confirmed)
  }

  /** The id of the update that the follower committed last. */
  function LatestId(f: Follower): nat {
    if f.unset.Some? then f.unset.value else f.current
  }

  /** The follower reads what was sent, and will confirm the last update that it read. */
  ghost predicate LatestIsRead(p: Peer) {
    && p.follower.rx <= |Sent(p.client)|
    && (0 < p.follower.rx ==> LatestId(p.follower) == Sent(p.client)[p.follower.rx - 1].id)
  }

  /** A session conserves its queue, a live one is never forgotten, and nothing is
   *  confirmed that the follower has not committed.
   */
  ghost predicate LiveInv(p: Peer) {
    && KnownInv(p)
    && ClientInv(p.client)
    && LatestIsRead(p)
    && (!p.client.done ==>
          && p.agent.mode != Done
          && (p.agent.mode == IteratingDb && p.scan == NoScan ==> 0 < p.agent.posts || p.client.current.Some?))
  }

  ghost predicate SafeInv(s: System) {
    LogInv(s) && forall u :: u in s.peers ==> LiveInv(s.peers[u])
  }

  lemma {:induction false} FeedLive(p: Peer, maxQueue: nat)
    requires LiveInv(p) && p.scan.Scan? && p.scan.rest != [] && p.agent.mode != Done
    ensures LiveInv(ScanNext(p, maxQueue))
  {
    EnqueueInv(p.client, p.scan.rest[0], maxQueue);
  }

  lemma {:induction false} PushLive(p: Peer, prev: nat, t: Trx, maxQueue: nat)
    requires LiveInv(p)
    ensures LiveInv(Pushed(p, prev, t, maxQueue))
  {
    EnqueueInv(p.client, t, maxQueue);
  }

  lemma {:induction false} PeerLive(p: Peer, log: seq<Trx>, maxQueue: nat, e: PeerStep)
    requires LiveInv(p)
    ensures LiveInv(NextPeer(p, log, maxQueue, e))
  {
    match e
    case ScanOne => if p.scan.Scan? && p.scan.rest != [] && p.agent.mode != Done { FeedLive(p, maxQueue); }
    case WriteDone => if p.client.current.Some? { WriteDoneInv(p.client); }
    case _ =>
  }

  lemma {:induction false} NewIsLive(f: Follower, restarted: bool, held: nat)
    requires Known(f, f.current) && (f.unset.Some? ==> Known(f, f.unset.value))
    ensures LiveInv(NewSession(f, restarted, held))
  {
  }

  ghost predicate AllLive(peers: map<int, Peer>) {
    forall u :: u in peers ==> LiveInv(peers[u])
  }

  lemma {:induction false} ConnectLive(s: System, u: int, restarted: bool, old_: int)
    requires AllLive(s.peers)
    ensures AllLive(Next(s, Connect(u, restarted, old_)).peers)
  {
    if u !in s.peers {
      NewIsLive(EMPTY_FOLLOWER, restarted, 0);
      LiveReplaced(s, u, NewSession(EMPTY_FOLLOWER, restarted, 0));
    } else {
      var p := s.peers[u];
      NewIsLive(p.follower, restarted, High(p));
      LiveReplaced(s, u, NewSession(p.follower, restarted, High(p)));
      assert LiveInv(p.(cut := true));
      LiveReplaced(s, old_, p.(cut := true));
      LiveReplaced(s.(peers := s.peers[old_ := p.(cut := true)]), u, NewSession(p.follower, restarted, High(p)));
    }
  }

  lemma {:induction false} LiveReplaced(s: System, u: int, p: Peer)
    requires AllLive(s.peers) && LiveInv(p)
    ensures AllLive(s.peers[u := p])
    ensures CheckAgents(s.(peers := s.peers[u := p])).peers == s.peers[u := p]
  {
    CheckAgentsRaises(s.(peers := s.peers[u := p]));
  }

  lemma {:induction false} CallLive(s: System, n: nat)
    requires AllLive(s.peers) && n < |s.uncalled|
    ensures AllLive(Announce(s, n).peers)
  {
    forall u | u in s.peers ensures LiveInv(Pushed(s.peers[u], s.lastTrx, s.uncalled[n], s.maxQueue)) {
      PushLive(s.peers[u], s.lastTrx, s.uncalled[n], s.maxQueue);
    }
  }

  lemma {:induction false} StepLive(s: System, e: Step)
    requires AllLive(s.peers)
    ensures AllLive(Next(s, e).peers)
  {
    match e
    case Callback(n) => if n < |s.uncalled| { CallLive(s, n); }
    case Connect(u, restarted, old_) => ConnectLive(s, u, restarted, old_);
    case At(u, step) =>
      if u in s.peers {
        PeerLive(s.peers[u], s.log, s.maxQueue, step);
        LiveReplaced(s, u, NextPeer(s.peers[u], s.log, s.maxQueue, step));
      }
    case _ =>
  }

  lemma {:induction false} RunSafe(s: System, steps: seq<Step>)
    requires SafeInv(s)
    ensures SafeInv(Run(s, steps))
  {
    if steps == [] {
    } else {
      var s1 := Run(s, steps[..|steps| - 1]);
      RunSafe(s, steps[..|steps| - 1]);
      StepLog(s1, steps[|steps| - 1]);
      assert AllLive(s1.peers);
      StepLive(s1, steps[|steps| - 1]);
    }
  }

  /** In every run: the log, its queues and its sessions. */
  lemma {:induction false} PossibleInv(s: System)
    requires Possible(s)
    ensures SafeInv(s)
  {
    var log, maxQueue: nat, steps :| Ascending(log) && s == Run(Start(log, maxQueue), steps);
    StartInv(log, maxQueue);
    RunSafe(Start(log, maxQueue), steps);
  }

  // -------------------------------------------------- what the order is for

  /** The id of the last update that a client has accepted; 0 stands for none. */
  function LastAccepted(c: Client): nat {
    if c.accepted == [] then 0 else c.accepted[|c.accepted| - 1].id
  }

  lemma {:induction false} InsertPrefix(log: seq<Trx>, t: Trx, k: nat)
    requires Ascending(log) && 0 < t.id && k <= |log| && forall u :: u in log ==> u.id != t.id
    ensures log[..k] <= Insert(log, t) <==> IdAt(log, k) < t.id
  {
    if log == [] {
    } else if log[|log| - 1].id < t.id {
      IdAtOrder(log, k, |log|);
    } else {
      var n := |log| - 1;
      assert log[n] in log;
      if k <= n {
        InsertPrefix(log[..n], t, k);
        assert log[..n][..k] == log[..k];
        assert IdAt(log[..n], k) == IdAt(log, k);
        assert log[..k] <= Insert(log, t) <==> log[..k] <= Insert(log[..n], t);
      } else {
        LateIsBefore(log, t);
      }
    }
  }

  lemma {:induction false} LateIsBefore(log: seq<Trx>, t: Trx)
    requires Ascending(log) && log != [] && t.id < log[|log| - 1].id
    ensures !(log <= Insert(log, t))
  {
    var n := |log| - 1;
    var r := Insert(log, t);
    assert r[|r| - 1] == log[n];
  }

  /** A landing leaves what u's client accepted a prefix of the log if and only if its
   *  id is larger than the last one that the client accepted.
   */
  lemma {:induction false} LandingKeepsPrefixIff(s: System, u: int, id: nat)
    requires Possible(s) && u in s.peers && id in s.open
    requires Collapse(s.peers[u].client.accepted) <= s.log
    ensures var s' := Next(s, Land(id));
            && u in s'.peers
            && (Collapse(s'.peers[u].client.accepted) <= s'.log <==> LastAccepted(s.peers[u].client) < id)
  {
    PossibleLog(s);
    LandingPrefix(s.log, Trx(id, s.open[id]), s.peers[u].client);
  }

  lemma {:induction false} PossibleLog(s: System)
    requires Possible(s)
    ensures LogInv(s)
  {
    PossibleInv(s);
  }

  lemma {:induction false} LandingPrefix(log: seq<Trx>, t: Trx, c: Client)
    requires Ascending(log) && 0 < t.id && Collapse(c.accepted) <= log && forall u :: u in log ==> u.id != t.id
    ensures Collapse(c.accepted) <= Insert(log, t) <==> LastAccepted(c) < t.id
  {
    var k := |Collapse(c.accepted)|;
    assert log[..k] == Collapse(c.accepted);
    InsertPrefix(log, t, k);
    assert IdAt(log, k) == LastAccepted(c);
  }

  // -------------------------------------------------------- a late landing

  lemma {:induction false} PossibleNext(s: System, e: Step)
    requires Possible(s)
    ensures Possible(Next(s, e))
  {
    var log, maxQueue: nat, steps :| Ascending(log) && s == Run(Start(log, maxQueue), steps);
    assert (steps + [e])[..|steps|] == steps;
    assert Next(s, e) == Run(Start(log, maxQueue), steps + [e]);
  }

  /** The published id becomes the smallest confirmed one when that is larger. */
  lemma {:induction false} LowestIsPublished(s: System, v: nat)
    requires IsLowest(s, v) && s.published < v
    ensures CheckAgents(s) == s.(published := v)
  {
  }

  lemma {:induction false} IssuesOne(s: System, a: Part)
    requires forall i :: i in s.open ==> Apart(s.open[i], [a])
    ensures Next(s, Issue([a])) == s.(nextId := s.nextId + 1, open := s.open[s.nextId + 1 := [a]])
  {
  }

  lemma {:induction false} LandsLast(s: System, id: nat)
    requires id in s.open && forall t :: t in s.log ==> t.id < id
    ensures var t, s' := Trx(id, s.open[id]), Next(s, Land(id));
            && s'.log == s.log + [t] && s'.uncalled == s.uncalled + [t] && s'.open == s.open - {id}
            && SameSessions(s, s')
  {
    InsertLast(s.log, Trx(id, s.open[id]));
  }

  ghost predicate SameSessions(s: System, s': System) {
    && s'.lastTrx == s.lastTrx && s'.published == s.published && s'.peers == s.peers && s'.maxQueue == s.maxQueue
  }

  /** Two transactions without a common key are given ids, and the later one commits. */
  lemma {:induction false} OnlySecondLands(s: System, a: Part, b: Part) returns (s': System)
    requires Possible(s) && s.open == map[] && a.key != b.key && forall t :: t in s.log ==> t.id <= s.nextId
    ensures Possible(s') && SecondLanded(s, s', a, b)
  {
    var s2 := TwoIssued(s, a, b);
    s' := Next(s2, Land(s.nextId + 2));
    PossibleNext(s2, Land(s.nextId + 2));
    SecondOfTwoLands(s, s2, a, b);
  }

  ghost predicate SecondLanded(s: System, s': System, a: Part, b: Part) {
    var t := Trx(s.nextId + 2, [b]);
    && s'.log == s.log + [t] && s'.uncalled == s.uncalled + [t] && s'.open == map[s.nextId + 1 := [a]]
    && SameSessions(s, s')
  }

  lemma {:induction false} SecondOfTwoLands(s: System, s2: System, a: Part, b: Part)
    requires s2 == s.(nextId := s.nextId + 2, open := map[s.nextId + 1 := [a], s.nextId + 2 := [b]])
    requires forall t :: t in s.log ==> t.id <= s.nextId
    ensures SecondLanded(s, Next(s2, Land(s.nextId + 2)), a, b)
  {
    LandsLast(s2, s.nextId + 2);
    assert s2.open - {s.nextId + 2} == map[s.nextId + 1 := [a]];
  }

  lemma {:induction false} TwoIssued(s: System, a: Part, b: Part) returns (s': System)
    requires Possible(s) && s.open == map[] && a.key != b.key
    ensures Possible(s')
    ensures s' == s.(nextId := s.nextId + 2, open := map[s.nextId + 1 := [a], s.nextId + 2 := [b]])
  {
    PossibleNext(s, Issue([a]));
    IssuesOne(s, a);
    var s1 := Next(s, Issue([a]));
    assert s1.open == map[s.nextId + 1 := [a]] && Apart([a], [b]);
    PossibleNext(s1, Issue([b]));
    IssuesOne(s1, b);
    s' := Next(s1, Issue([b]));
  }

  lemma {:induction false} LaterLands(maxQueue: nat, a: Part, b: Part) returns (s: System)
    requires a.key != b.key
    ensures Possible(s) && s.maxQueue == maxQueue
    ensures s.log == s.uncalled == [Trx(2, [b])] && s.open == map[1 := [a]]
    ensures s.lastTrx == s.published == 0 && s.peers == map[]
  {
    StartIsPossible([], maxQueue);
    s := OnlySecondLands(Start([], maxQueue), a, b);
  }

  lemma {:induction false} StartIsPossible(log: seq<Trx>, maxQueue: nat)
    requires Ascending(log)
    ensures Possible(Start(log, maxQueue)) && Start(log, maxQueue).nextId == IdAt(log, |log|)
  {
    assert Run(Start(log, maxQueue), []) == Start(log, maxQueue);
    LastIdOfLog(log);
  }

  /** A step of the only session. */
  lemma {:induction false} OnlyStep(s: System, e: PeerStep, p: Peer)
    requires Possible(s) && s.peers == map[1 := p] && e != GotAck
    ensures Possible(Next(s, At(1, e)))
    ensures Next(s, At(1, e)) == s.(peers := map[1 := NextPeer(p, s.log, s.maxQueue, e)])
  {
    PossibleNext(s, At(1, e));
    assert s.peers[1 := NextPeer(p, s.log, s.maxQueue, e)] == map[1 := NextPeer(p, s.log, s.maxQueue, e)];
  }

  lemma {:induction false} AheadSteps(t: Trx, maxQueue: nat)
    requires 0 < t.id
    ensures var p1 := NextPeer(NewSession(EMPTY_FOLLOWER, false, 0), [t], maxQueue, RunTask);
            var p2 := NextPeer(p1, [t], maxQueue, ScanOne);
            NextPeer(p2, [t], maxQueue, ScanOne) == Ahead(t)
  {
    assert FirstAfter([t], 0) == 0 by { assert [t][..0] == []; }
    assert [t][0..] == [t] && [t][1..] == [];
  }

  /** The scan of a first follower finds it, and makes the agent stream. */
  lemma {:induction false} LaterIsAccepted(maxQueue: nat, a: Part, b: Part) returns (s: System)
    requires a.key != b.key
    ensures Possible(s) && s.maxQueue == maxQueue
    ensures s.log == s.uncalled == [Trx(2, [b])] && s.open == map[1 := [a]]
    ensures s.lastTrx == s.published == 0 && s.peers == map[1 := Ahead(Trx(2, [b]))]
  {
    var t := Trx(2, [b]);
    var s0 := LaterLands(maxQueue, a, b);
    NewPublishesNothing(s0);
    PossibleNext(s0, Connect(1, false, 1));
    var s1, p := Next(s0, Connect(1, false, 1)), NewSession(EMPTY_FOLLOWER, false, 0);
    OnlyStep(s1, RunTask, p);
    var s2, p1 := Next(s1, At(1, RunTask)), NextPeer(p, [t], maxQueue, RunTask);
    OnlyStep(s2, ScanOne, p1);
    var s3, p2 := Next(s2, At(1, ScanOne)), NextPeer(p1, [t], maxQueue, ScanOne);
    OnlyStep(s3, ScanOne, p2);
    s := Next(s3, At(1, ScanOne));
    AheadSteps(t, maxQueue);
  }

  /** The session of a first follower after its scan has found only t. */
  ghost function Ahead(t: Trx): Peer {
    Peer(Agent(Streaming, t.id, 0, 0), Client(false, true, Some(t), [], [t], []), NoScan,
         EMPTY_FOLLOWER, [], false, 0, false)
  }

  lemma {:induction false} NewPublishesNothing(s: System)
    requires s.peers == map[] && s.published == 0
    ensures Next(s, Connect(1, false, 1)) == s.(peers := map[1 := NewSession(EMPTY_FOLLOWER, false, 0)])
  {
    var s1 := s.(peers := s.peers[1 := NewSession(EMPTY_FOLLOWER, false, 0)]);
    CheckAgentsRaises(s1);
    assert forall u :: !Streams(s1, u);
  }

  /** Then the earlier one commits, and both are announced in the order of their ids. */
  lemma {:induction false} EarlierIsAnnounced(maxQueue: nat, a: Part, b: Part) returns (s: System)
    requires a.key != b.key
    ensures Possible(s) && s.maxQueue == maxQueue
    ensures s.log == [Trx(1, [a]), Trx(2, [b])] && s.uncalled == [] && s.open == map[]
    ensures s.published == 0
    ensures var p := Ahead(Trx(2, [b])); s.peers == map[1 := p.(agent := p.agent.(mode := IteratingDb, posts := 1))]
  {
    var s0 := LaterIsAccepted(maxQueue, a, b);
    PossibleNext(s0, Land(1));
    var s1 := Next(s0, Land(1));
    PossibleNext(s1, Callback(1));
    var s2 := Next(s1, Callback(1));
    PossibleNext(s2, Callback(0));
    s := Next(s2, Callback(0));
    EarlierLands(s0, a, b);
    BothCalled(s1, Trx(1, [a]), Trx(2, [b]));
  }

  lemma {:induction false} EarlierLands(s: System, a: Part, b: Part)
    requires s.log == s.uncalled == [Trx(2, [b])] && s.open == map[1 := [a]]
    ensures var s', t1, t2 := Next(s, Land(1)), Trx(1, [a]), Trx(2, [b]);
            && s'.log == [t1, t2] && s'.uncalled == [t2, t1] && s'.open == map[]
            && s'.peers == s.peers && s'.lastTrx == s.lastTrx && s'.published == s.published && s'.maxQueue == s.maxQueue
  {
    var t1, t2 := Trx(1, [a]), Trx(2, [b]);
    assert [t2][..0] == [] && Insert([], t1) == [t1];
    assert Next(s, Land(1)).open == map[];
  }

  lemma {:induction false} BothCalled(s: System, t1: Trx, t2: Trx)
    requires t1.id == 1 && t2.id == 2 && s.uncalled == [t2, t1] && s.lastTrx == 0 && s.peers == map[1 := Ahead(t2)]
    ensures var p, s' := Ahead(t2), Next(Next(s, Callback(1)), Callback(0));
            && s'.peers == map[1 := p.(agent := p.agent.(mode := IteratingDb, posts := 1))]
            && s' == s.(uncalled := [], lastTrx := 2, peers := s'.peers)
  {
    var p, s1 := Ahead(t2), Next(s, Callback(1));
    assert s1.uncalled == [t2] && s1.lastTrx == 1;
    assert s1.peers == map[1 := p.(agent := p.agent.(mode := IteratingDb, posts := 1))];
    var s' := Next(s1, Callback(0));
    assert s'.uncalled == [];
    assert s'.peers == s1.peers;
  }

  /** The session in the end: streaming, with only t accepted, committed and confirmed. */
  ghost function Passed(t: Trx): Peer {
    Peer(Agent(Streaming, t.id, t.id, 1), Client(false, true, Some(t), [], [t], []), NoScan,
         Follower(ApplyParts(map[], t.parts), map[t.id := t], t.id, None, 1), [], false, 0, false)
  }

  lemma {:induction false} EmptyScan(log: seq<Trx>, t: Trx, maxQueue: nat)
    requires log != [] && log[|log| - 1] == t
    ensures var p := Ahead(t);
            var p0 := p.(agent := p.agent.(mode := IteratingDb, posts := 1));
            var p1 := NextPeer(p0, log, maxQueue, RunTask);
            NextPeer(p1, log, maxQueue, ScanOne) == p
  {
  }

  lemma {:induction false} OnlyConfirmed(t: Trx, log: seq<Trx>, maxQueue: nat)
    ensures var p1 := NextPeer(Ahead(t), log, maxQueue, Receive);
            var p2 := NextPeer(p1, log, maxQueue, Advance);
            var p3 := NextPeer(p2, log, maxQueue, AckWritten);
            var p4 := NextPeer(p3, log, maxQueue, SendAck);
            NextPeer(p4, log, maxQueue, GotAck) == Passed(t)
  {
  }

  /** A late landing is lost: a transaction that commits after a follower has accepted
   *  one with a larger id is not accepted, although both are announced in the order of
   *  their ids; and the larger id is published.
   */
  lemma {:induction false} LateLandingIsLost(maxQueue: nat, a: Part, b: Part) returns (s: System)
    requires a.key != b.key
    ensures Possible(s) && s.log == [Trx(1, [a]), Trx(2, [b])] && s.uncalled == [] && s.open == map[]
    ensures s.published == 2 && s.peers == map[1 := Passed(Trx(2, [b]))]
    ensures !(Collapse(s.peers[1].client.accepted) <= s.log) && 1 !in s.peers[1].follower.log
  {
    var t := Trx(2, [b]);
    var s0 := EarlierIsAnnounced(maxQueue, a, b);
    var log := s0.log;
    EmptyScan(log, t, maxQueue);
    var s1, p1 := OnlyNext(s0, RunTask), NextPeer(s0.peers[1], log, maxQueue, RunTask);
    OnlyStep(s0, RunTask, s0.peers[1]);
    OnlyStep(s1, ScanOne, p1);
    s := Confirmed(OnlyNext(s1, ScanOne), t);
    assert Collapse([t]) == [t];
  }

  ghost function OnlyNext(s: System, e: PeerStep): System {
    Next(s, At(1, e))
  }

  lemma {:induction false} OnlyTwo(s: System, e: PeerStep, f: PeerStep, p: Peer)
    requires Possible(s) && s.peers == map[1 := p] && e != GotAck && f != GotAck
    ensures var s' := OnlyNext(OnlyNext(s, e), f);
            && Possible(s')
            && s' == s.(peers := map[1 := NextPeer(NextPeer(p, s.log, s.maxQueue, e), s.log, s.maxQueue, f)])
  {
    OnlyStep(s, e, p);
    OnlyStep(OnlyNext(s, e), f, NextPeer(p, s.log, s.maxQueue, e));
  }

  lemma {:induction false} OnlyAck(s: System, p: Peer, p': Peer, v: nat)
    requires Possible(s) && s.peers == map[1 := p] && p' == NextPeer(p, s.log, s.maxQueue, GotAck)
    requires p'.agent.mode == Streaming && p'.agent.confirmed == v && s.published < v
    ensures Possible(OnlyNext(s, GotAck)) && OnlyNext(s, GotAck) == s.(published := v, peers := map[1 := p'])
  {
    PossibleNext(s, At(1, GotAck));
    var s1 := s.(peers := s.peers[1 := p']);
    assert s1.peers == map[1 := p'];
    assert Streams(s1, 1);
    LowestIsPublished(s1, v);
  }

  lemma {:induction false} Confirmed(s: System, t: Trx) returns (s': System)
    requires Possible(s) && s.peers == map[1 := Ahead(t)] && s.published < t.id
    ensures Possible(s') && s' == s.(published := t.id, peers := map[1 := Passed(t)])
  {
    var log, q := s.log, s.maxQueue;
    OnlyConfirmed(t, log, q);
    var p2 := NextPeer(NextPeer(Ahead(t), log, q, Receive), log, q, Advance);
    var p4 := NextPeer(NextPeer(p2, log, q, AckWritten), log, q, SendAck);
    OnlyTwo(s, Receive, Advance, Ahead(t));
    var s2 := OnlyNext(OnlyNext(s, Receive), Advance);
    OnlyTwo(s2, AckWritten, SendAck, p2);
    var s4 := OnlyNext(OnlyNext(s2, AckWritten), SendAck);
    OnlyAck(s4, p4, Passed(t), t.id);
    s' := OnlyNext(s4, GotAck);
  }

  /** A first follower streams from an empty log. */
  lemma {:induction false} StreamsEmpty(maxQueue: nat) returns (s: System)
    ensures Possible(s) && s.maxQueue == maxQueue && s.log == s.uncalled == [] && s.open == map[]
    ensures s.nextId == s.lastTrx == 0
    ensures s.peers == map[1 := FreshlyStreaming()]
  {
    var s0 := Start([], maxQueue);
    StartIsPossible([], maxQueue);
    NewPublishesNothing(s0);
    PossibleNext(s0, Connect(1, false, 1));
    var s1, p := Next(s0, Connect(1, false, 1)), NewSession(EMPTY_FOLLOWER, false, 0);
    OnlyTwo(s1, RunTask, ScanOne, p);
    s := OnlyNext(OnlyNext(s1, RunTask), ScanOne);
  }

  /** A scan over an old snapshot leaves a gap: the later transaction is committed, a
   *  follower's scan takes its snapshot, then the earlier one is committed. Nothing was
   *  accepted before, and nothing is announced.
   */
  lemma {:induction false} OldSnapshotIsAGap(maxQueue: nat, a: Part, b: Part) returns (s: System)
    requires a.key != b.key
    ensures Possible(s) && s.log == [Trx(1, [a]), Trx(2, [b])] && s.lastTrx == 0 && 1 in s.peers
    ensures s.peers[1].client.accepted == [Trx(2, [b])] && !(Collapse(s.peers[1].client.accepted) <= s.log)
  {
    var t := Trx(2, [b]);
    var s0 := LaterLands(maxQueue, a, b);
    NewPublishesNothing(s0);
    PossibleNext(s0, Connect(1, false, 1));
    var s1, p := Next(s0, Connect(1, false, 1)), NewSession(EMPTY_FOLLOWER, false, 0);
    OnlyStep(s1, RunTask, p);
    var s2, p1 := OnlyNext(s1, RunTask), NextPeer(p, [t], maxQueue, RunTask);
    PossibleNext(s2, Land(1));
    EarlierLands(s2, a, b);
    var s3 := Next(s2, Land(1));
    OnlyStep(s3, ScanOne, p1);
    s := OnlyNext(s3, ScanOne);
    SnapshotOfOne(t, maxQueue);
    assert Collapse([t]) == [t];
  }

  lemma {:induction false} SnapshotOfOne(t: Trx, maxQueue: nat)
    requires 0 < t.id
    ensures var p1 := NextPeer(NewSession(EMPTY_FOLLOWER, false, 0), [t], maxQueue, RunTask);
            p1.scan == Scan(0, [t]) && ScanNext(p1, maxQueue).client.accepted == [t]
  {
    assert FirstAfter([t], 0) == 0 by { assert [t][..0] == []; }
    assert [t][0..] == [t];
  }

  /** The session of a follower with a queue limit of 0 after its scan was stopped at t3. */
  ghost function Stopped(t1: Trx, t3: Trx): Peer {
    Peer(Agent(IteratingDb, t1.id, 0, 1), Client(false, false, Some(t1), [t3], [t1, t3], []), NoScan,
         EMPTY_FOLLOWER, [], false, 0, false)
  }

  lemma {:induction false} StopsAtThird(t1: Trx, t3: Trx)
    requires 0 < t1.id < t3.id
    ensures var p1 := NextPeer(NewSession(EMPTY_FOLLOWER, false, 0), [t1, t3], 0, RunTask);
            var p2 := NextPeer(p1, [t1, t3], 0, ScanOne);
            NextPeer(p2, [t1, t3], 0, ScanOne) == Stopped(t1, t3)
  {
    var log := [t1, t3];
    assert FirstAfter(log, 0) == 0 by { assert log[..1] == [t1] && [t1][..0] == []; }
    assert log[0..] == log && log[1..] == [t3];
  }

  lemma {:induction false} RepeatsSecond(t1: Trx, t2: Trx, t3: Trx)
    requires t1.id < t2.id < t3.id
    ensures var log := [t1, t2, t3];
            var p1 := NextPeer(Stopped(t1, t3), log, 0, PeerStep.WriteDone);
            var p2 := NextPeer(p1, log, 0, PeerStep.WriteDone);
            var p3 := NextPeer(p2, log, 0, RunTask);
            NextPeer(p3, log, 0, ScanOne).client.accepted == [t1, t3, t2]
  {
    var log := [t1, t2, t3];
    assert FirstAfter(log, t1.id) == 1 by {
      assert FirstAfter([t1], t1.id) == 1;
      assert [t1, t2][..1] == [t1];
      assert FirstAfter([t1, t2], t1.id) == 1;
      assert log[..2] == [t1, t2];
    }
    assert log[1..] == [t2, t3];
    var p1 := NextPeer(Stopped(t1, t3), log, 0, PeerStep.WriteDone);
    assert p1.client.current == Some(t3) && p1.client.pending == [];
    var p2 := NextPeer(p1, log, 0, PeerStep.WriteDone);
    assert p2.client.current.None? && p2.client.accepted == [t1, t3];
    var p3 := NextPeer(p2, log, 0, RunTask);
    assert p3.scan == Scan(1, [t2, t3]);
  }

  /** Over a log with one transaction, two more are given ids, and the later one commits. */
  lemma {:induction false} ThirdLands(a: Part, b: Part, c: Part) returns (s: System)
    requires b.key != c.key
    ensures Possible(s) && s.maxQueue == 0
    ensures s.log == [Trx(1, [a]), Trx(3, [c])] && s.open == map[2 := [b]]
    ensures s.published == 0 && s.peers == map[]
  {
    var log := [Trx(1, [a])];
    var s0 := Start(log, 0);
    StartIsPossible(log, 0);
    assert s0.log == log && s0.nextId == 1 && s0.open == map[] && s0.peers == map[];
    s := OnlySecondLands(s0, b, c);
  }

  /** A transaction that lands below the last accepted id is not always lost: here the
   *  agent's position is below it, and the repeated scan brings it, out of order.
   */
  lemma {:induction false} LateIsStillDelivered(a: Part, b: Part, c: Part) returns (s: System, s': System)
    requires b.key != c.key
    ensures Possible(s) && s.open == map[2 := [b]] && 1 in s.peers
    ensures LastAccepted(s.peers[1].client) == 3 && s.peers[1].agent.enqueued == 1
    ensures s' == OnlyNext(OnlyNext(OnlyNext(OnlyNext(Next(s, Land(2)), PeerStep.WriteDone), PeerStep.WriteDone), RunTask), ScanOne)
    ensures Possible(s') && 1 in s'.peers
    ensures s'.peers[1].client.accepted == [Trx(1, [a]), Trx(3, [c]), Trx(2, [b])]
  {
    var t1, t2, t3 := Trx(1, [a]), Trx(2, [b]), Trx(3, [c]);
    s := ThirdIsRefused(a, b, c);
    PossibleNext(s, Land(2));
    var s1, log := Next(s, Land(2)), [t1, t2, t3];
    SecondLands(s, t1, t2, t3);
    OnlyTwo(s1, PeerStep.WriteDone, PeerStep.WriteDone, Stopped(t1, t3));
    var p2 := NextPeer(NextPeer(Stopped(t1, t3), log, 0, PeerStep.WriteDone), log, 0, PeerStep.WriteDone);
    var s2 := OnlyNext(OnlyNext(s1, PeerStep.WriteDone), PeerStep.WriteDone);
    OnlyTwo(s2, RunTask, ScanOne, p2);
    s' := OnlyNext(OnlyNext(s2, RunTask), ScanOne);
    RepeatsSecond(t1, t2, t3);
  }

  lemma {:induction false} SecondLands(s: System, t1: Trx, t2: Trx, t3: Trx)
    requires s.log == [t1, t3] && t1.id < t2.id < t3.id && s.open == map[t2.id := t2.parts]
    ensures var s' := Next(s, Land(t2.id));
            s'.log == [t1, t2, t3] && s'.peers == s.peers && s'.maxQueue == s.maxQueue
  {
    assert [t1, t3][..1] == [t1] && Insert([t1], t2) == [t1, t2];
  }

  lemma {:induction false} ThirdIsRefused(a: Part, b: Part, c: Part) returns (s: System)
    requires b.key != c.key
    ensures Possible(s) && s.maxQueue == 0
    ensures s.log == [Trx(1, [a]), Trx(3, [c])] && s.open == map[2 := [b]]
    ensures s.peers == map[1 := Stopped(Trx(1, [a]), Trx(3, [c]))]
  {
    var t1, t3 := Trx(1, [a]), Trx(3, [c]);
    var s0 := ThirdLands(a, b, c);
    NewPublishesNothing(s0);
    PossibleNext(s0, Connect(1, false, 1));
    var s1, p := Next(s0, Connect(1, false, 1)), NewSession(EMPTY_FOLLOWER, false, 0);
    OnlyTwo(s1, RunTask, ScanOne, p);
    var s2 := OnlyNext(OnlyNext(s1, RunTask), ScanOne);
    OnlyStep(s2, ScanOne, NextPeer(NextPeer(p, [t1, t3], 0, RunTask), [t1, t3], 0, ScanOne));
    s := OnlyNext(s2, ScanOne);
    StopsAtThird(t1, t3);
  }

  /** Two commits land in order, but the second is announced first: the first is lost. */
  lemma {:induction false} EarlyCallbackIsAGap(maxQueue: nat, a: Part, b: Part) returns (s: System)
    ensures Possible(s) && s.log == [Trx(1, [a]), Trx(2, [b])] && 1 in s.peers
    ensures s.peers[1].client.accepted == [Trx(2, [b])] && !(Collapse(s.peers[1].client.accepted) <= s.log)
  {
    var s0 := TwoLanded(maxQueue, a, b);
    PossibleNext(s0, Callback(1));
    s := Next(s0, Callback(1));
    CallsSecond(s0, Trx(2, [b]));
    assert Collapse([Trx(2, [b])]) == [Trx(2, [b])];
  }

  ghost function FreshlyStreaming(): Peer {
    Peer(Agent(Streaming, 0, 0, 0), NEW_CLIENT, NoScan, EMPTY_FOLLOWER, [], false, 0, false)
  }

  lemma {:induction false} TwoLanded(maxQueue: nat, a: Part, b: Part) returns (s: System)
    ensures Possible(s) && s.log == s.uncalled == [Trx(1, [a]), Trx(2, [b])] && s.lastTrx == 0
    ensures s.peers == map[1 := FreshlyStreaming()]
  {
    var s0 := StreamsEmpty(maxQueue);
    s := LandsTwice(s0, a, b);
  }

  lemma {:induction false} LandsTwice(s0: System, a: Part, b: Part) returns (s: System)
    requires Possible(s0) && s0.open == map[] && s0.log == s0.uncalled == [] && s0.nextId == s0.lastTrx == 0
    ensures Possible(s) && s.log == s.uncalled == [Trx(1, [a]), Trx(2, [b])]
    ensures s.lastTrx == 0 && s.peers == s0.peers
  {
    var s1 := LandsNext(s0, a);
    assert s1.log == [Trx(1, [a])];
    s := LandsNext(s1, b);
  }

  lemma {:induction false} CallsSecond(s: System, t: Trx)
    requires |s.uncalled| == 2 && s.uncalled[1] == t && s.lastTrx == 0 < t.id
    requires s.peers == map[1 := FreshlyStreaming()]
    ensures var s' := Next(s, Callback(1)); s'.log == s.log && 1 in s'.peers && s'.peers[1].client.accepted == [t]
  {
  }

  lemma {:induction false} LandsNext(s: System, a: Part) returns (s': System)
    requires Possible(s) && s.open == map[] && forall t :: t in s.log ==> t.id <= s.nextId
    ensures Possible(s') && LandedNext(s, s', Trx(s.nextId + 1, [a]))
  {
    PossibleNext(s, Issue([a]));
    PossibleNext(Next(s, Issue([a])), Land(s.nextId + 1));
    s' := Next(Next(s, Issue([a])), Land(s.nextId + 1));
    IssuedAndLanded(s, a);
  }

  ghost predicate LandedNext(s: System, s': System, t: Trx) {
    && s'.log == s.log + [t] && s'.uncalled == s.uncalled + [t] && s'.open == map[]
    && s'.nextId == t.id && s'.peers == s.peers && s'.lastTrx == s.lastTrx && s'.maxQueue == s.maxQueue
  }

  lemma {:induction false} IssuedAndLanded(s: System, a: Part)
    requires s.open == map[] && forall t :: t in s.log ==> t.id <= s.nextId
    ensures LandedNext(s, Next(Next(s, Issue([a])), Land(s.nextId + 1)), Trx(s.nextId + 1, [a]))
  {
    var id := s.nextId + 1;
    IssuesOne(s, a);
    LandsLast(Next(s, Issue([a])), id);
  }
}
