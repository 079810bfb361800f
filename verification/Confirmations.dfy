/** The way back: what a follower has committed is confirmed and published. */
module Confirmations {
  import opened Options
  import opened Transactions
  import opened Sessions
  import opened Cluster
  import opened Landings
  import opened ClusterTheorems
  import opened Deliveries
  import opened CatchUp

  /** In every run, a follower that has read something in its session, and has recorded it,
   *  is at the id of the last update that it read.
   */
  lemma {:induction false} CurrentIsLastRead(s: System, u: int)
    requires Possible(s) && u in s.peers && 0 < s.peers[u].follower.rx && s.peers[u].follower.unset.None?
    ensures var p := s.peers[u];
            p.follower.rx <= |Sent(p.client)| && p.follower.current == Sent(p.client)[p.follower.rx - 1].id
  {
    PossibleLive(s, u);
  }

  lemma {:induction false} LastIdExists(log: map<nat, Trx>)
    ensures IsLastId(log, LastId(log))
    decreases |log|
  {
    if log == map[] {
      assert IsLastId(log, 0);
    } else {
      var k :| k in log;
      var rest := log - {k};
      assert rest.Keys == log.Keys - {k};
      LastIdExists(rest);
      var last := if rest == map[] then k else Max(k, LastId(rest));
      forall i | i in log ensures i <= last {
        if i != k { assert i in rest; }
      }
      assert IsLastId(log, last);
    }
  }

  /** What a follower opens a stream with. */
  ghost function FollowerOf(s: System, u: int): Follower {
    if u in s.peers then s.peers[u].follower else EMPTY_FOLLOWER
  }

  /** A new session confirms at once what the follower has: the last id that it recorded, or
   *  after a restart the largest id of its TRXLOG. It scans the log from the beginning.
   */
  lemma {:induction false} ConnectReports(s: System, u: int, restarted: bool, old_: int)
    requires u in s.peers ==> !s.peers[u].cut && (s.peers[u].agent.mode == Done || old_ !in s.peers)
    ensures var s', f := Next(s, Connect(u, restarted, old_)), FollowerOf(s, u);
            && u in s'.peers
            && var p := s'.peers[u];
               && (if restarted then IsLastId(f.log, p.agent.confirmed) else p.agent.confirmed == LatestId(f))
               && p.agent == Agent(IteratingDb, 0, p.agent.confirmed, 1)
               && p.client == NEW_CLIENT && p.scan == NoScan && p.acks == []
               && p.follower == Follower(f.store, f.log, p.agent.confirmed, None, 0)
  {
    LastIdExists(FollowerOf(s, u).log);
    if u in s.peers {
      var p := s.peers[u];
      var p' := NewSession(p.follower, restarted, High(p));
      CheckAgentsRaises(s.(peers := s.peers[u := p']));
      CheckAgentsRaises(s.(peers := s.peers[old_ := p.(cut := true)][u := p']));
    } else {
      CheckAgentsRaises(s.(peers := s.peers[u := NewSession(EMPTY_FOLLOWER, restarted, 0)]));
    }
  }

  predicate Confirming(steps: seq<PeerStep>) {
    forall e :: e in steps ==> e in {AckWritten, SendAck, GotAck}
  }

  /** What the session becomes when all acknowledgements, and one more, have arrived. */
  function AllConfirmed(p: Peer): Peer {
    p.(agent := p.agent.(confirmed := p.follower.current, posts := p.agent.posts + |p.acks| + 1),
       acks := [], canWrite := false)
  }

  lemma {:induction false} ConfirmThen(p: Peer, log: seq<Trx>, maxQueue: nat, e: PeerStep, rest: seq<PeerStep>)
    requires Confirming([e]) && Confirming(rest)
    ensures Confirming([e] + rest)
    ensures PeerRun(p, log, maxQueue, [e] + rest) == PeerRun(NextPeer(p, log, maxQueue, e), log, maxQueue, rest)
  {
    PeerRunAppend(p, log, maxQueue, [e], rest);
    PeerRunOne(p, log, maxQueue, e);
  }

  /** The acknowledgements on their way arrive in order: the last one is confirmed. */
  lemma {:induction false} AcksArrive(p: Peer, log: seq<Trx>, maxQueue: nat) returns (steps: seq<PeerStep>)
    requires !p.client.done && p.acks != []
    ensures Confirming(steps) && steps != [] && steps[|steps| - 1] == GotAck
    ensures PeerRun(p, log, maxQueue, steps) ==
            p.(agent := p.agent.(confirmed := p.acks[|p.acks| - 1], posts := p.agent.posts + |p.acks|), acks := [])
    decreases |p.acks|
  {
    PeerRunOne(p, log, maxQueue, GotAck);
    if |p.acks| == 1 {
      steps := [GotAck];
    } else {
      var rest := AcksArrive(NextPeer(p, log, maxQueue, GotAck), log, maxQueue);
      ConfirmThen(p, log, maxQueue, GotAck, rest);
      steps := [GotAck] + rest;
    }
  }

  lemma {:induction false} PeerConfirms(p: Peer, log: seq<Trx>, maxQueue: nat) returns (steps: seq<PeerStep>)
    requires !p.client.done && !p.cut
    ensures Confirming(steps) && steps != [] && steps[|steps| - 1] == GotAck
    ensures PeerRun(p, log, maxQueue, steps) == AllConfirmed(p)
  {
    var p1 := NextPeer(p, log, maxQueue, AckWritten);
    var p2 := NextPeer(p1, log, maxQueue, SendAck);
    assert p2 == p.(acks := p.acks + [p.follower.current], canWrite := false);
    var rest := AcksArrive(p2, log, maxQueue);
    ConfirmThen(p1, log, maxQueue, SendAck, rest);
    ConfirmThen(p, log, maxQueue, AckWritten, [SendAck] + rest);
    steps := [AckWritten] + ([SendAck] + rest);
  }

  /** After an acknowledgement has arrived, nothing that all streaming agents have confirmed
   *  is left unpublished.
   */
  lemma {:induction false} AckPublishes(s: System, u: int, v: nat)
    requires u in s.peers && IsLowest(Next(s, At(u, GotAck)), v)
    ensures v <= Next(s, At(u, GotAck)).published
  {
    var s1 := s.(peers := s.peers[u := NextPeer(s.peers[u], s.log, s.maxQueue, GotAck)]);
    CheckAgentsRaises(s1);
    assert forall w :: Streams(s1, w) <==> Streams(Next(s, At(u, GotAck)), w);
    assert IsLowest(s1, v);
    if s1.published < v { LowestIsPublished(s1, v); }
  }

  /** From every state of every run, a live session confirms, by steps of its own that break
   *  nothing, what its follower has recorded; and everything that all streaming agents have
   *  confirmed is published then.
   */
  lemma {:induction false} ConfirmationArrives(s: System, u: int) returns (steps: seq<PeerStep>)
    requires u in s.peers && !s.peers[u].client.done && !s.peers[u].cut
    ensures Confirming(steps)
    ensures var s' := Run(s, AllAt(u, steps));
            && u in s'.peers && s'.log == s.log && s'.peers[u] == AllConfirmed(s.peers[u])
            && forall v: nat :: IsLowest(s', v) ==> v <= s'.published
  {
    steps := PeerConfirms(s.peers[u], s.log, s.maxQueue);
    SessionRun(s, u, steps);
    var n := |steps| - 1;
    SessionRun(s, u, steps[..n]);
    assert AllAt(u, steps)[..n] == AllAt(u, steps[..n]);
    var s1 := Run(s, AllAt(u, steps[..n]));
    assert Run(s, AllAt(u, steps)) == Next(s1, At(u, GotAck));
    forall v: nat | IsLowest(Next(s1, At(u, GotAck)), v) ensures v <= Next(s1, At(u, GotAck)).published {
      AckPublishes(s1, u, v);
    }
  }

  /** A follower that has committed the whole log in its session is at the last id. */
  lemma {:induction false} CaughtUpIsAtEnd(p: Peer, log: seq<Trx>)
    requires LiveInv(p) && CaughtUp(p, log) && log != []
    ensures p.follower.current == log[|log| - 1].id
  {
    var accepted, rx := p.client.accepted, p.follower.rx;
    SentIsAccepted(p.client);
    EndIsLast(accepted, rx, log);
    assert accepted[rx - 1] == Sent(p.client)[rx - 1];
  }

  lemma {:induction false} SentIsAccepted(c: Client)
    requires ClientInv(c)
    ensures Sent(c) <= c.accepted
  {
  }

  lemma {:induction false} EndIsLast(accepted: seq<Trx>, rx: nat, log: seq<Trx>)
    requires rx <= |accepted| && Collapse(accepted) == log != [] && |Collapse(accepted[..rx])| == |log|
    ensures 0 < rx && accepted[rx - 1] == log[|log| - 1]
  {
    CollapsePrefix(accepted, rx);
    assert log[..|log|] == log;
  }

  /** The follower has the whole log and the primary knows; and the whole log is published,
   *  unless another streaming agent has confirmed less.
   */
  ghost predicate Completed(s: System, u: int) {
    && u in s.peers && s.log != [] && CaughtUp(s.peers[u], s.log)
    && var last := s.log[|s.log| - 1].id;
       && s.peers[u].agent.confirmed == last
       && ((forall w :: Streams(s, w) ==> last <= s.peers[w].agent.confirmed) ==> last <= s.published)
  }

  /** No step of a session that ends it. */
  predicate Unbroken(steps: seq<PeerStep>) {
    ReadFails !in steps && StreamDone !in steps
  }

  /** From every state reached in order, a live session that is catching up, and is not stuck
   *  with an old snapshot, completes the replication by steps of its own that break nothing.
   */
  lemma {:induction false} ReplicationCompletes(s: System, u: int) returns (steps: seq<PeerStep>)
    requires Reachable(s) && u in s.peers && !s.peers[u].client.done && !s.peers[u].cut && s.log != []
    requires s.peers[u].agent.mode == IteratingDb && NotStuck(s.peers[u], s.log, s.maxQueue)
    ensures Unbroken(steps)
    ensures var s' := Run(s, AllAt(u, steps)); s'.log == s.log && Completed(s', u)
  {
    var a := SessionCatchesUp(s, u);
    EndsAlive(s, u, a);
    var b := ConfirmsAll(Run(s, AllAt(u, a)), u);
    AllAtRun(s, u, a, b);
    BothUnbroken(a, b);
    steps := a + b;
  }

  lemma {:induction false} BothUnbroken(a: seq<PeerStep>, b: seq<PeerStep>)
    requires Working(a) && Confirming(b)
    ensures Unbroken(a + b)
  {
  }

  lemma {:induction false} ConfirmsAll(s: System, u: int) returns (steps: seq<PeerStep>)
    requires u in s.peers && !s.peers[u].client.done && !s.peers[u].cut && LiveInv(s.peers[u])
    requires s.log != [] && CaughtUp(s.peers[u], s.log)
    ensures Confirming(steps)
    ensures var s' := Run(s, AllAt(u, steps)); s'.log == s.log && Completed(s', u)
  {
    CaughtUpIsAtEnd(s.peers[u], s.log);
    steps := ConfirmationArrives(s, u);
    AllAreLowest(Run(s, AllAt(u, steps)), u, s.log[|s.log| - 1].id);
  }

  lemma {:induction false} AllAtRun(s: System, u: int, a: seq<PeerStep>, b: seq<PeerStep>)
    ensures Run(s, AllAt(u, a + b)) == Run(Run(s, AllAt(u, a)), AllAt(u, b))
  {
    AllAtSum(u, a, b);
    RunAppend(s, AllAt(u, a), AllAt(u, b));
  }

  lemma {:induction false} AllAtSum(u: int, a: seq<PeerStep>, b: seq<PeerStep>)
    ensures AllAt(u, a + b) == AllAt(u, a) + AllAt(u, b)
  {
  }

  lemma {:induction false} AllAreLowest(s: System, u: int, v: nat)
    requires Streams(s, u) && s.peers[u].agent.confirmed == v
    ensures (forall w :: Streams(s, w) ==> v <= s.peers[w].agent.confirmed) ==> IsLowest(s, v)
  {
  }

  lemma {:induction false} EndsAlive(s: System, u: int, steps: seq<PeerStep>)
    requires Reachable(s) && u in s.peers && !s.peers[u].client.done && !s.peers[u].cut && Working(steps)
    ensures var s' := Run(s, AllAt(u, steps));
            u in s'.peers && LiveInv(s'.peers[u]) && !s'.peers[u].client.done && !s'.peers[u].cut
  {
    ReachablePeer(s, u);
    RunIsHealthy(s.log, s.base, s.peers[u], s.maxQueue, steps);
    SessionRun(s, u, steps);
    ReachableIsPossible(s);
    PossibleRun(s, AllAt(u, steps));
    PossibleLive(Run(s, AllAt(u, steps)), u);
  }
}
