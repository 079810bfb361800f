/** What holds in every run of the cluster, and what can always be reached. */
module ClusterTheorems {
  import opened Options
  import opened Transactions
  import opened Sessions
  import opened Cluster
  import opened Landings
  import opened Deliveries
  import opened Copies

  lemma {:induction false} ReachableInv(s: System)
    requires Reachable(s)
    ensures Inv(s)
  {
    var log, maxQueue: nat, steps :|
      Ascending(log) && Orderly(Start(log, maxQueue), steps) && s == Run(Start(log, maxQueue), steps);
    StartInv(log, maxQueue);
    RunInv(Start(log, maxQueue), steps);
  }

  lemma {:induction false} ReachableSender(s: System, u: int)
    requires Reachable(s) && u in s.peers
    ensures LogInv(s) && CalledInv(s)
    ensures SenderInv(s.log, s.base, s.peers[u].agent, s.peers[u].client, s.peers[u].scan)
  {
    ReachableInv(s);
    PeerHasInv(s, u);
  }

  lemma {:induction false} ReachableReceiver(s: System, u: int)
    requires Reachable(s) && u in s.peers
    ensures Ascending(s.log) && ReceiverInv(s.log, s.peers[u])
  {
    ReachableInv(s);
    PeerHasInv(s, u);
  }

  lemma {:induction false} ReachableIsPossible(s: System)
    requires Reachable(s)
    ensures Possible(s)
  {
  }

  /** What a client has accepted, with adjacent repeats collapsed, is a gap-free
   *  prefix of the log: in every interleaving, over every reconnect and restart, while
   *  commits land and are announced in order.
   */
  lemma {:induction false} AcceptedIsGapFree(s: System, u: int)
    requires Reachable(s) && u in s.peers
    ensures Collapse(s.peers[u].client.accepted) <= s.log
  {
    ReachableSender(s, u);
  }

  /** The queue neither loses, repeats nor reorders: what was written, then the
   *  one write in flight, then the queue, is what was accepted; and the queue is
   *  never left standing without a write in flight. In whatever order commits land.
   */
  lemma {:induction false} QueueConserves(s: System, u: int)
    requires Possible(s) && u in s.peers
    ensures var c := s.peers[u].client;
            && c.accepted == c.written + InFlight(c) + c.pending
            && (c.pending != [] ==> c.current.Some?)
  {
    PossibleLive(s, u);
  }

  lemma {:induction false} PossibleLive(s: System, u: int)
    requires Possible(s) && u in s.peers
    ensures LiveInv(s.peers[u])
  {
    PossibleInv(s);
  }

  /** In whatever order commits land, no id is confirmed that the follower has not
   *  committed.
   */
  lemma {:induction false} ConfirmedIsCommitted(s: System, u: int)
    requires Possible(s) && u in s.peers
    ensures s.peers[u].agent.confirmed == 0 || s.peers[u].agent.confirmed in s.peers[u].follower.log
  {
    PossibleLive(s, u);
  }

  /** A catching-up agent of a live client is never forgotten: a scan is running,
   *  a task is posted, or a write is in flight whose completion posts one.
   */
  lemma {:induction false} NoLostWakeup(s: System, u: int)
    requires Possible(s) && u in s.peers
    requires !s.peers[u].client.done && s.peers[u].agent.mode == IteratingDb && s.peers[u].scan == NoScan
    ensures 0 < s.peers[u].agent.posts || s.peers[u].client.current.Some?
    ensures s.peers[u].client.current.Some? && s.peers[u].client.pending == [] ==>
              0 < NextPeer(s.peers[u], s.log, s.maxQueue, PeerStep.WriteDone).agent.posts
  {
    PossibleLive(s, u);
    var p := s.peers[u];
    if p.client.current.Some? {
      WriteDoneInv(p.client);
    }
  }

  /** The ids of the log are distinct and ascending, an id that is still open is none of
   *  them, and the next id issued is larger than all, whatever commits failed, in
   *  whatever order they landed and however often the primary restarted. The ENTRY
   *  family is what the log says it is.
   */
  lemma {:induction false} IdsAreUnique(s: System, parts: seq<Part>)
    requires Possible(s)
    ensures forall i, j :: 0 <= i < j < |s.log| ==> s.log[i].id < s.log[j].id
    ensures forall t :: t in s.log ==> t.id !in s.open
    ensures s.entries == Replay(map[], s.log)
    ensures var s' := Next(s, Issue(parts));
            forall i :: i in s'.open && i !in s.open ==>
              (forall t :: t in s.log ==> t.id < i) && (forall j :: j in s.open ==> j < i)
  {
    PossibleLog(s);
    forall t | t in s.log ensures t.id <= s.nextId { LastIsLargest(s.log, t); }
  }

  /** In every run, as long as a session is gap-free: the follower's TRXLOG is the primary's
   *  log up to the last applied id if and only if it has nothing beyond that from an
   *  earlier session; then its ENTRY family is the primary's as of that id. A first
   *  session always has nothing beyond.
   */
  lemma {:induction false} FollowerMirrorsPrimary(s: System, u: int)
    requires Possible(s) && u in s.peers && GapFree(s, u)
    ensures var f, j := s.peers[u].follower, Applied(s.peers[u]);
            && j <= |s.log|
            && (f.log == LogMap(s.log[..j]) <==> NothingBeyond(s.log, f, j))
            && (NothingBeyond(s.log, f, j) ==> f.store == Replay(map[], s.log[..j]))
            && (s.peers[u].held == 0 ==> NothingBeyond(s.log, f, j))
  {
    PossiblePeer(s, u);
    ReadIsPrefix(s, u);
    var p := s.peers[u];
    CopiedLogIff(s.log, p.follower, ReadBy(p), p.held, Applied(p));
    if NothingBeyond(s.log, p.follower, Applied(p)) {
      CopiedStore(s.log, p.follower, ReadBy(p), p.held, Applied(p));
    }
    if p.held == 0 {
      FirstCopyIsWithin(s.log, p.follower, ReadBy(p), Applied(p));
    }
  }

  /** In order, that is so once a session has delivered as much as the follower held
   *  before it.
   */
  lemma {:induction false} CaughtUpMirrorsPrimary(s: System, u: int)
    requires Reachable(s) && u in s.peers && s.peers[u].held <= Applied(s.peers[u])
    ensures var f, j := s.peers[u].follower, Applied(s.peers[u]);
            && j <= |s.log|
            && f.store == Replay(map[], s.log[..j])
            && f.log == LogMap(s.log[..j])
  {
    ReachableReceiver(s, u);
    AcceptedIsGapFree(s, u);
    ReachableIsPossible(s);
    FollowerMirrorsPrimary(s, u);
  }

  /** In every run, as long as a session is gap-free: applied <= accepted, and in a
   *  follower's first session confirmed <= applied.
   */
  lemma {:induction false} AcksAreSafe(s: System, u: int)
    requires Possible(s) && u in s.peers && GapFree(s, u)
    ensures var p := s.peers[u];
            && Applied(p) <= |Collapse(p.client.accepted)| <= |s.log|
            && (p.agent.confirmed == 0 || p.agent.confirmed in p.follower.log)
            && (p.held == 0 ==>
                  p.agent.confirmed <= IdAt(s.log, Applied(p)) <= IdAt(s.log, |Collapse(p.client.accepted)|))
  {
    PossibleLog(s);
    ConfirmedIsCommitted(s, u);
    ReadIsPrefix(s, u);
    FollowerMirrorsPrimary(s, u);
    IdAtOrder(s.log, Applied(s.peers[u]), |Collapse(s.peers[u].client.accepted)|);
  }

  /** In order, a follower holds the log up to some point, over all its sessions, and no id
   *  beyond that is confirmed.
   */
  lemma {:induction false} HeldIsLogged(s: System, u: int)
    requires Reachable(s) && u in s.peers
    ensures var p := s.peers[u];
            && High(p) <= |s.log|
            && p.follower.log == LogMap(s.log[..High(p)])
            && p.agent.confirmed <= IdAt(s.log, High(p))
  {
    ReachableReceiver(s, u);
  }

  /** In every run the published id only falls when the primary restarts. At the step that
   *  raises it to v, every follower of a streaming agent whose copy has no gap has
   *  committed every logged transaction up to v to its own TRXLOG.
   */
  lemma {:induction false} PublishedIsDurable(s: System, e: Step, u: int, t: Trx)
    requires Possible(s)
    ensures e != RestartPrimary ==> s.published <= Next(s, e).published
    ensures var s' := Next(s, e);
            s.published < s'.published && Streams(s', u) && t in s'.log && t.id <= s'.published &&
            Gapless(s'.log, s'.peers[u].follower) ==>
              t.id in s'.peers[u].follower.log && s'.peers[u].follower.log[t.id] == t
  {
    var s' := Next(s, e);
    PublishedStep(s, e);
    if s.published < s'.published && Streams(s', u) && t in s'.log && t.id <= s'.published &&
       Gapless(s'.log, s'.peers[u].follower) {
      PossibleNext(s, e);
      PossiblePeer(s', u);
      ConfirmedIsCommitted(s', u);
      var p := s'.peers[u];
      ConfirmedIsCopied(s'.log, p.follower, ReadBy(p), p.held, p.agent.confirmed, t);
    }
  }

  /** In order, no follower's copy has a gap. */
  lemma {:induction false} OrderlyIsGapless(s: System, u: int)
    requires Reachable(s) && u in s.peers
    ensures Gapless(s.log, s.peers[u].follower)
  {
    HeldIsLogged(s, u);
    ReachableReceiver(s, u);
    PrefixIsGapless(s.log, s.peers[u].follower, High(s.peers[u]));
  }

  lemma {:induction false} PrefixIsGapless(log: seq<Trx>, f: Follower, h: nat)
    requires Ascending(log) && h <= |log| && f.log == LogMap(log[..h])
    ensures Gapless(log, f)
  {
    forall t, i | t in log && i in f.log && t.id <= i ensures t.id in f.log {
      LogMapHolds(log[..h], i);
      LogMapHolds(log[..h], t.id);
      var m, n :| 0 <= m < |log| && log[m] == t && 0 <= n < h && log[..h][n].id == i;
      IdAtOrder(log, m + 1, n + 1);
      assert log[..h][m].id == t.id;
    }
  }

  lemma {:induction false} OrderlyPublishing(s: System, e: Step, u: int, t: Trx)
    requires Reachable(s) && InOrder(s, e)
    ensures var s' := Next(s, e);
            s.published < s'.published && Streams(s', u) && t in s'.log && t.id <= s'.published ==>
              t.id in s'.peers[u].follower.log && s'.peers[u].follower.log[t.id] == t
  {
    ReachableIsPossible(s);
    PublishedIsDurable(s, e, u, t);
    ReachableNext(s, e);
    if u in Next(s, e).peers { OrderlyIsGapless(Next(s, e), u); }
  }

  lemma {:induction false} PublishedStep(s: System, e: Step)
    ensures var s' := Next(s, e);
            && (e != RestartPrimary ==> s.published <= s'.published)
            && (s.published < s'.published ==>
                  forall u :: Streams(s', u) ==> s'.published <= s'.peers[u].agent.confirmed)
  {
    match e
    case Connect(u, restarted, old_) =>
      if u !in s.peers {
        CheckAgentsRaises(s.(peers := s.peers[u := NewSession(EMPTY_FOLLOWER, restarted, 0)]));
      } else {
        var p := s.peers[u];
        var p' := NewSession(p.follower, restarted, High(p));
        CheckAgentsRaises(s.(peers := s.peers[u := p']));
        CheckAgentsRaises(s.(peers := s.peers[old_ := p.(cut := true)][u := p']));
      }
    case At(u, step) =>
      if u in s.peers {
        CheckAgentsRaises(s.(peers := s.peers[u := NextPeer(s.peers[u], s.log, s.maxQueue, step)]));
      }
    case _ =>
  }

  // ------------------------------------------- what can always be reached

  lemma {:induction false} RunAppend(s: System, a: seq<Step>, b: seq<Step>)
    ensures Run(s, a + b) == Run(Run(s, a), b)
    decreases |b|
  {
    if b == [] {
      assert a + b == a;
    } else {
      RunAppend(s, a, b[..|b| - 1]);
      assert (a + b)[..|a + b| - 1] == a + b[..|b| - 1];
    }
  }

  lemma {:induction false} OrderlyAppend(s: System, a: seq<Step>, b: seq<Step>)
    requires Orderly(s, a) && Orderly(Run(s, a), b)
    ensures Orderly(s, a + b)
  {
    forall n | 0 <= n < |a + b| ensures InOrder(Run(s, (a + b)[..n]), (a + b)[n]) {
      if n < |a| {
        assert (a + b)[..n] == a[..n];
      } else {
        assert (a + b)[..n] == a + b[..n - |a|];
        RunAppend(s, a, b[..n - |a|]);
      }
    }
  }

  lemma {:induction false} ReachableRun(s: System, more: seq<Step>)
    requires Reachable(s) && Orderly(s, more)
    ensures Reachable(Run(s, more))
  {
    var log, maxQueue: nat, steps :|
      Ascending(log) && Orderly(Start(log, maxQueue), steps) && s == Run(Start(log, maxQueue), steps);
    RunAppend(Start(log, maxQueue), steps, more);
    OrderlyAppend(Start(log, maxQueue), steps, more);
  }

  /** Between two rounds of an undisturbed catch-up: the first i log entries have
   *  been accepted, written and applied, and nothing is queued.
   */
  ghost predicate CaughtUpTo(p: Peer, log: seq<Trx>, i: nat) {
    && i <= |log|
    && !p.client.done && p.client.current.None? && p.client.pending == []
    && p.client.accepted == p.client.written == log[..i]
    && p.agent.mode == IteratingDb
    && p.scan == Scan(i, log[i..]) && !p.cut
    && p.follower.rx == i && p.follower.unset.None?
  }

  lemma {:induction false} CatchUpRound(p: Peer, log: seq<Trx>, maxQueue: nat, i: nat)
    requires CaughtUpTo(p, log, i) && i < |log|
    ensures var p1 := NextPeer(p, log, maxQueue, ScanOne);
            var p2 := NextPeer(p1, log, maxQueue, Receive);
            var p3 := NextPeer(p2, log, maxQueue, Advance);
            CaughtUpTo(NextPeer(p3, log, maxQueue, PeerStep.WriteDone), log, i + 1)
  {
    assert log[..i + 1] == log[..i] + [log[i]];
    var p1 := NextPeer(p, log, maxQueue, ScanOne);
    assert p1.client.current == Some(log[i]) && p1.client.pending == [];
    var p2 := NextPeer(p1, log, maxQueue, Receive);
    assert p2.follower.rx == i + 1;
  }

  /** The run of catch-up rounds for follower u. */
  function Rounds(u: int, n: nat): seq<Step> {
    if n == 0 then []
    else Rounds(u, n - 1) + [At(u, ScanOne), At(u, Receive), At(u, Advance), At(u, PeerStep.WriteDone)]
  }

  lemma {:induction false} RunOfFour(s: System, a: Step, b: Step, c: Step, d: Step)
    ensures Run(s, [a, b, c, d]) == Next(Next(Next(Next(s, a), b), c), d)
  {
    assert [a, b, c, d][..3] == [a, b, c];
    assert [a, b, c][..2] == [a, b];
    assert [a, b][..1] == [a];
    assert [a][..0] == [];
    assert Run(s, []) == s;
    assert Run(s, [a]) == Next(s, a);
    assert Run(s, [a, b]) == Next(Run(s, [a]), b);
    assert Run(s, [a, b, c]) == Next(Run(s, [a, b]), c);
  }

  lemma {:induction false} OneRound(s: System, u: int)
    requires u in s.peers
    ensures var log, q := s.log, s.maxQueue;
            var s' := Run(s, [At(u, ScanOne), At(u, Receive), At(u, Advance), At(u, PeerStep.WriteDone)]);
            var p3 := NextPeer(NextPeer(NextPeer(s.peers[u], log, q, ScanOne), log, q, Receive), log, q, Advance);
            && u in s'.peers && s'.log == log && s'.entries == s.entries && s'.maxQueue == q
            && s'.peers[u] == NextPeer(p3, log, q, PeerStep.WriteDone)
  {
    RunOfFour(s, At(u, ScanOne), At(u, Receive), At(u, Advance), At(u, PeerStep.WriteDone));
  }

  lemma {:induction false} RoundsCatchUp(s: System, u: int, n: nat)
    requires u in s.peers && n <= |s.log| && CaughtUpTo(s.peers[u], s.log, 0)
    ensures var s' := Run(s, Rounds(u, n));
            && u in s'.peers && s'.log == s.log && s'.entries == s.entries
            && s'.maxQueue == s.maxQueue
            && CaughtUpTo(s'.peers[u], s.log, n)
  {
    if n == 0 {
    } else {
      RoundsCatchUp(s, u, n - 1);
      var s0 := Run(s, Rounds(u, n - 1));
      RunAppend(s, Rounds(u, n - 1), [At(u, ScanOne), At(u, Receive), At(u, Advance), At(u, PeerStep.WriteDone)]);
      OneRound(s0, u);
      CatchUpRound(s0.peers[u], s.log, s.maxQueue, n - 1);
    }
  }

  /** A fresh session: end whatever session u has, connect, start the scan. */
  function Reconnect(u: int): seq<Step> {
    [At(u, ReadFails), At(u, StreamDone), Connect(u, false, u), At(u, RunTask)]
  }

  lemma {:induction false} FirstAfterZero(log: seq<Trx>)
    requires Ascending(log)
    ensures FirstAfter(log, 0) == 0
  {
    FirstAfterIdAt(log, 0);
  }

  lemma {:induction false} ReconnectStartsScan(s: System, u: int)
    requires Ascending(s.log) && (u in s.peers ==> !s.peers[u].cut)
    ensures var s' := Run(s, Reconnect(u));
            && u in s'.peers && s'.log == s.log && s'.entries == s.entries
            && CaughtUpTo(s'.peers[u], s.log, 0)
  {
    var s1 := Next(s, At(u, ReadFails));
    var s2 := Next(s1, At(u, StreamDone));
    var s3 := Next(s2, Connect(u, false, u));
    var s4 := Next(s3, At(u, RunTask));
    RunOfFour(s, At(u, ReadFails), At(u, StreamDone), Connect(u, false, u), At(u, RunTask));
    if u in s.peers {
      assert s2.peers[u].agent.mode == Done;
      CheckAgentsRaises(s2.(peers := s2.peers[u := NewSession(s2.peers[u].follower, false, High(s2.peers[u]))]));
    } else {
      CheckAgentsRaises(s2.(peers := s2.peers[u := NewSession(EMPTY_FOLLOWER, false, 0)]));
    }
    FirstAfterZero(s.log);
    assert s.log[..0] == [];
  }

  /** The steps that bring follower u up to date with a log of n entries. */
  function Recovery(u: int, n: nat): seq<Step> {
    Reconnect(u) + Rounds(u, n) + [At(u, ScanOne)]
  }

  lemma {:induction false} RecoveryRun(s: System, u: int)
    requires Ascending(s.log) && (u in s.peers ==> !s.peers[u].cut)
    ensures var s' := Run(s, Recovery(u, |s.log|));
            && u in s'.peers && s'.log == s.log && s'.entries == s.entries
            && s'.peers[u].client.accepted == s.log
            && s'.peers[u].follower.rx == |s.log|
            && s'.peers[u].agent.mode == Streaming
  {
    var n, s1 := |s.log|, Run(s, Reconnect(u));
    ReconnectStartsScan(s, u);
    RoundsCatchUp(s1, u, n);
    var front := Reconnect(u) + Rounds(u, n);
    RunAppend(s, Reconnect(u), Rounds(u, n));
    RunAppend(s, front, [At(u, ScanOne)]);
    var s2 := Run(s, front);
    assert [At(u, ScanOne)][..0] == [];
    assert Run(s2, [At(u, ScanOne)]) == Next(s2, At(u, ScanOne));
    assert s.log[..n] == s.log;
  }

  /** From every state of every run, in whatever order commits landed, every follower can be
   *  brought, without another commit, to exactly the primary's ENTRY family and TRXLOG, and
   *  to streaming: what a session has lost, the next one brings.
   */
  lemma {:induction false} CanAlwaysConverge(s: System, u: int)
    requires Possible(s) && (u in s.peers ==> !s.peers[u].cut)
    ensures forall e :: e in Recovery(u, |s.log|) ==> e.At? || e.Connect?
    ensures var s' := Run(s, Recovery(u, |s.log|));
            && s'.log == s.log && s'.entries == s.entries
            && u in s'.peers
            && s'.peers[u].follower.store == s.entries
            && s'.peers[u].follower.log == LogMap(s.log)
            && s'.peers[u].agent.mode == Streaming
  {
    PossibleLog(s);
    RoundsOnlyAt(u, |s.log|);
    RecoveryRun(s, u);
    PossibleRun(s, Recovery(u, |s.log|));
    ConvergedAt(Run(s, Recovery(u, |s.log|)), u);
  }

  lemma {:induction false} CollapseAscending(log: seq<Trx>)
    requires Ascending(log)
    ensures Collapse(log) == log
  {
    if |log| <= 1 {
    } else {
      CollapseAscending(log[..|log| - 1]);
    }
  }

  /** A session that has delivered the whole log leaves nothing else at the follower. */
  lemma {:induction false} ConvergedAt(s: System, u: int)
    requires Possible(s) && u in s.peers
    requires s.peers[u].client.accepted == s.log && s.peers[u].follower.rx == |s.log|
    ensures s.peers[u].follower.store == s.entries && s.peers[u].follower.log == LogMap(s.log)
  {
    PossibleLog(s);
    CollapseAscending(s.log);
    var f, n := s.peers[u].follower, |s.log|;
    assert s.log[..n] == s.log;
    WholeLogIsAll(s, u);
    FollowerMirrorsPrimary(s, u);
  }

  lemma {:induction false} WholeLogIsAll(s: System, u: int)
    requires Possible(s) && u in s.peers
    ensures NothingBeyond(s.log, s.peers[u].follower, |s.log|)
  {
    PossiblePeer(s, u);
    var f := s.peers[u].follower;
    forall i | i in f.log ensures i <= IdAt(s.log, |s.log|) {
      LastIsLargest(s.log, f.log[i]);
    }
  }

  lemma {:induction false} RoundsOnlyAt(u: int, n: nat)
    ensures forall e :: e in Rounds(u, n) ==> e.At?
  {
    if n == 0 {
    } else {
      RoundsOnlyAt(u, n - 1);
    }
  }

  // ------------------------------------- when streaming is not up to date

  /** A push that leaves the agent streaming has delivered the new transaction. */
  lemma {:induction false} PushSettles(s: System, a: Agent, c: Client, scan: Scan)
    requires Ascending(s.log) && CalledInv(s) && s.uncalled != [] && !c.done
    requires SenderInv(s.log, s.base, a, c, scan)
    ensures var (a', c') := Push(a, c, s.lastTrx, s.uncalled[0], s.maxQueue);
            a'.mode == Streaming ==> Collapse(c'.accepted) == s.log[..Called(s) + 1]
  {
    if a.mode == Streaming && s.lastTrx == a.enqueued {
      EnqueueInv(c, s.uncalled[0], s.maxQueue);
      PushIsNext(s, |Collapse(c.accepted)|);
      AcceptNext(s.log, c.accepted, Called(s));
    }
  }

  /** A gap-free client has accepted exactly what is logged up to its last update. */
  lemma {:induction false} PrefixHas(log: seq<Trx>, c: Client, t: Trx)
    requires Ascending(log) && Collapse(c.accepted) <= log && t in log
    ensures t in c.accepted <==> t.id <= LastAccepted(c)
  {
    var k := |Collapse(c.accepted)|;
    assert Collapse(c.accepted) == log[..k];
    CollapseMembers(c.accepted, t);
    assert LastAccepted(c) == IdAt(log, k);
    var i :| 0 <= i < |log| && log[i] == t;
    IdAtOrder(log, i + 1, k);
    if i < k { assert log[..k][i] == t; }
    if t in log[..k] {
      var j :| 0 <= j < k && log[..k][j] == t;
      IdAtOrder(log, j + 1, k);
    }
  }

  /** In every run, after the callback of a newer commit t, every live agent that streams has
   *  t as the last accepted update, and if it is gap-free it has exactly what is logged up
   *  to t; any other live agent is on its way.
   */
  lemma {:induction false} CallbackSettles(s: System, u: int, n: nat)
    requires Possible(s) && u in s.peers && !s.peers[u].client.done
    requires n < |s.uncalled| && s.lastTrx < s.uncalled[n].id
    ensures var t, s' := s.uncalled[n], Next(s, Callback(n));
            && s'.lastTrx == t.id && u in s'.peers
            && var p' := s'.peers[u];
               && (p'.agent.mode == Streaming ==>
                     && p'.agent.enqueued == LastAccepted(p'.client) == t.id
                     && (GapFree(s', u) ==> forall x :: x in s.log ==> (x in p'.client.accepted <==> x.id <= t.id)))
               && (p'.agent.mode != Streaming ==>
                     p'.scan.Scan? || 0 < p'.agent.posts || p'.client.current.Some?)
  {
    var t, s' := s.uncalled[n], Next(s, Callback(n));
    PossibleLive(s, u);
    PossibleLog(s);
    PeerNextIs(s, u, Callback(n));
    PushLive(s.peers[u], s.lastTrx, t, s.maxQueue);
    PushedLast(s.peers[u], s.lastTrx, t, s.maxQueue);
    if GapFree(s', u) {
      forall x | x in s.log ensures x in s'.peers[u].client.accepted <==> x.id <= LastAccepted(s'.peers[u].client) {
        PrefixHas(s.log, s'.peers[u].client, x);
      }
    }
  }

  lemma {:induction false} PushedLast(p: Peer, prev: nat, t: Trx, maxQueue: nat)
    requires !p.client.done
    ensures var p' := Pushed(p, prev, t, maxQueue);
            && p'.client.done == p.client.done
            && (p'.agent.mode == Streaming ==> p'.agent.enqueued == LastAccepted(p'.client) == t.id)
  {
  }

  /** In every run, what the callback of a newer commit t does to the session of u, with a
   *  stream that still lives. An agent that does not stream is left alone. One that streams
   *  and has everything up to the commit before t takes t, and goes back to the log if and
   *  only if more updates then wait than the queue's limit. Any other one goes back to the
   *  log at once, and takes nothing.
   */
  lemma {:induction false} CallbackFallsBackIff(s: System, u: int, n: nat)
    requires Possible(s) && u in s.peers && !s.peers[u].client.done
    requires n < |s.uncalled| && s.lastTrx < s.uncalled[n].id
    ensures u in Next(s, Callback(n)).peers
    ensures var p, p', t := s.peers[u], Next(s, Callback(n)).peers[u], s.uncalled[n];
            if p.agent.mode != Streaming then p' == p
            else if p.agent.enqueued != s.lastTrx then
              && p' == p.(agent := p'.agent) && p'.agent.mode == IteratingDb
              && p'.agent.enqueued == p.agent.enqueued && p'.agent.posts == p.agent.posts + 1
            else
              && p'.client.accepted == p.client.accepted + [t] && p'.agent.enqueued == t.id
              && Backlog(p'.client) == Backlog(p.client) + 1
              && (p'.agent.mode == IteratingDb <==> s.maxQueue < Backlog(p.client) + 1)
              && (p'.agent.mode == Streaming <==> Backlog(p.client) + 1 <= s.maxQueue)
              && (p'.agent.posts == p.agent.posts + 1 <==> p.client.current.Some? && p.client.hasWritten)
  {
    PeerNextIs(s, u, Callback(n));
    PossibleLive(s, u);
    var p := s.peers[u];
    assert p.client.current.None? ==> p.client.pending == [];
  }

  /** A finished client takes nothing, and its streaming agent goes back to the log. */
  lemma {:induction false} CallbackToFinished(s: System, u: int, n: nat)
    requires Possible(s) && u in s.peers && s.peers[u].client.done && s.peers[u].agent.mode == Streaming
    requires n < |s.uncalled| && s.lastTrx < s.uncalled[n].id
    ensures u in Next(s, Callback(n)).peers
    ensures var p, p' := s.peers[u], Next(s, Callback(n)).peers[u];
            p' == p.(agent := p'.agent) && p'.agent.mode == IteratingDb
  {
    PeerNextIs(s, u, Callback(n));
  }

  /** The callback of an older commit changes no session. */
  lemma {:induction false} OldCallbackIsIgnored(s: System, n: nat)
    requires n < |s.uncalled| && s.uncalled[n].id <= s.lastTrx
    ensures Next(s, Callback(n)) == s.(uncalled := s.uncalled[..n] + s.uncalled[n + 1..])
  {
  }

  /** In order, every live streaming agent has then accepted exactly the transactions
   *  announced so far.
   */
  lemma {:induction false} AnnouncedIsAccepted(s: System, u: int)
    requires Reachable(s) && u in s.peers && s.uncalled != [] && !s.peers[u].client.done
    ensures var s' := Next(s, Callback(0));
            && Called(s') == Called(s) + 1 <= |s.log|
            && u in s'.peers
            && (s'.peers[u].agent.mode == Streaming ==>
                  Collapse(s'.peers[u].client.accepted) == s.log[..Called(s')])
            && (s'.peers[u].agent.mode != Streaming ==>
                  s'.peers[u].scan.Scan? || 0 < s'.peers[u].agent.posts || s'.peers[u].client.current.Some?)
  {
    ReachableSender(s, u);
    CallbackCalled(s, Next(s, Callback(0)));
    AnnouncePeers(s, Next(s, Callback(0)), u);
    PushedSettles(s, s.peers[u], Next(s, Callback(0)).peers[u]);
  }

  lemma {:induction false} PushedSettles(s: System, p: Peer, p': Peer)
    requires Ascending(s.log) && CalledInv(s) && s.uncalled != [] && !p.client.done
    requires SenderInv(s.log, s.base, p.agent, p.client, p.scan)
    requires p' == Pushed(p, s.lastTrx, s.uncalled[0], s.maxQueue)
    ensures p'.agent.mode == Streaming ==> Collapse(p'.client.accepted) == s.log[..Called(s) + 1]
    ensures p'.agent.mode != Streaming ==> p'.scan.Scan? || 0 < p'.agent.posts || p'.client.current.Some?
  {
    PushSettles(s, p.agent, p.client, p.scan);
    EnqueueInv(p.client, s.uncalled[0], s.maxQueue);
  }

  /** In every run, a task that the strand runs is used up. It starts a scan, of exactly the
   *  logged transactions after the agent's position, in order, if and only if the agent is
   *  catching up.
   */
  lemma {:induction false} TaskScansTheRest(s: System, u: int)
    requires Possible(s) && u in s.peers && 0 < s.peers[u].agent.posts && s.peers[u].scan == NoScan
    ensures var p, s' := s.peers[u], Next(s, At(u, RunTask));
            && u in s'.peers && s'.peers[u].agent == p.agent.(posts := p.agent.posts - 1)
            && var scan := s'.peers[u].scan;
               && (scan.Scan? <==> p.agent.mode == IteratingDb)
               && (scan.Scan? ==>
                     && Ascending(scan.rest)
                     && forall t :: t in scan.rest <==> t in s.log && p.agent.enqueued < t.id)
  {
    PossibleLog(s);
    AfterIsAbove(s.log, s.peers[u].agent.enqueued);
    AscendingTail(s.log, FirstAfter(s.log, s.peers[u].agent.enqueued));
  }

  lemma {:induction false} AscendingTail(log: seq<Trx>, n: nat)
    requires Ascending(log) && n <= |log|
    ensures Ascending(log[n..])
  {
  }

  /** A primary that starts again has its log and its entries, and nothing else: no open
   *  transaction, no callback, no live session. Its next id is after the last logged one.
   */
  lemma {:induction false} RestartResumes(s: System)
    requires Possible(s)
    ensures var s' := Next(s, RestartPrimary);
            && s'.log == s.log && s'.entries == Replay(map[], s.log)
            && s'.nextId == IdAt(s.log, |s.log|) && s'.open == map[] && s'.uncalled == []
            && s'.lastTrx == s'.published == 0 && s'.peers.Keys == s.peers.Keys
            && forall u :: u in s'.peers ==>
                 && s'.peers[u].agent.mode == Done && s'.peers[u].client.done && s'.peers[u].scan == NoScan
                 && s'.peers[u].follower == s.peers[u].follower
  {
    PossibleLog(s);
    LastIdOfLog(s.log);
  }

  /** In every run, a scan that ends makes its live agent stream; if the session is
   *  gap-free, the client then has exactly what is logged up to the agent's position.
   */
  lemma {:induction false} ScanEndReaches(s: System, u: int)
    requires Possible(s) && u in s.peers && !s.peers[u].client.done
    requires s.peers[u].scan.Scan? && s.peers[u].scan.rest == []
    ensures var s' := Next(s, At(u, ScanOne));
            && u in s'.peers && s'.peers[u].agent.mode == Streaming
            && (GapFree(s', u) ==>
                  forall t :: t in s.log ==> (t in s'.peers[u].client.accepted <==> t.id <= s'.peers[u].agent.enqueued))
  {
    PossibleLive(s, u);
    PossiblePeer(s, u);
    AtStepOnly(s, u, ScanOne);
    var p, s' := s.peers[u], Next(s, At(u, ScanOne));
    if GapFree(s', u) {
      forall t | t in s.log ensures t in p.client.accepted <==> t.id <= LastAccepted(p.client) {
        PrefixHas(s.log, p.client, t);
      }
      PositionIsLast(s.log, p);
    }
  }

  lemma {:induction false} PositionIsLast(log: seq<Trx>, p: Peer)
    requires Ascending(log) && FeedInv(log, p.agent, p.client, p.scan) && !p.client.done
    requires p.scan.Scan? && p.scan.rest == []
    requires forall t :: t in log ==> (t in p.client.accepted <==> t.id <= LastAccepted(p.client))
    ensures p.agent.enqueued == LastAccepted(p.client)
  {
    var accepted := p.client.accepted;
    if accepted != [] {
      assert accepted[|accepted| - 1] in accepted;
    }
  }

  /** In order: the agent then has every announced transaction if and only if none was
   *  announced after the scan's snapshot.
   */
  lemma {:induction false} ScanEndIsCurrentIff(s: System, u: int)
    requires Reachable(s) && u in s.peers && !s.peers[u].client.done
    requires s.peers[u].scan.Scan? && s.peers[u].scan.rest == []
    ensures Called(s) <= |s.log|
    ensures var s' := Next(s, At(u, ScanOne));
            && u in s'.peers
            && s'.peers[u].agent.mode == Streaming
            && (s.log[..Called(s)] <= Collapse(s'.peers[u].client.accepted) <==> Called(s) <= Upto(s.peers[u].scan))
  {
    ReachableSender(s, u);
    var p := s.peers[u];
    AtStepOnly(s, u, ScanOne);
    ScanCompletes(s.log, s.base, p, s.maxQueue);
    PrefixIff(s.log, Called(s), Upto(p.scan));
  }

  lemma {:induction false} PrefixIff(log: seq<Trx>, a: nat, b: nat)
    requires a <= |log| && b <= |log|
    ensures log[..a] <= log[..b] <==> a <= b
  {
    if a <= b { assert log[..b][..a] == log[..a]; }
  }

  lemma {:induction false} ScanCompletes(log: seq<Trx>, base: nat, p: Peer, maxQueue: nat)
    requires SenderInv(log, base, p.agent, p.client, p.scan) && !p.client.done
    requires p.scan.Scan? && p.scan.rest == []
    ensures Upto(p.scan) <= |log|
    ensures ScanNext(p, maxQueue).agent.mode == Streaming
    ensures Collapse(ScanNext(p, maxQueue).client.accepted) == log[..Upto(p.scan)]
  {
  }

  ghost predicate Quiet(p: Peer, accepted: seq<Trx>) {
    p.agent.mode != IteratingDb && p.scan == NoScan && p.client.accepted == accepted
  }

  lemma {:induction false} QuietStep(p: Peer, log: seq<Trx>, maxQueue: nat, e: PeerStep)
    requires p.agent.mode != IteratingDb && p.scan == NoScan
    ensures Quiet(NextPeer(p, log, maxQueue, e), p.client.accepted)
  {
  }

  lemma {:induction false} AtStepOnly(s: System, u: int, e: PeerStep)
    requires u in s.peers
    ensures var s' := Next(s, At(u, e));
            s'.log == s.log && u in s'.peers && s'.peers[u] == NextPeer(s.peers[u], s.log, s.maxQueue, e)
  {
    CheckAgentsRaises(s.(peers := s.peers[u := NextPeer(s.peers[u], s.log, s.maxQueue, e)]));
  }

  /** A streaming agent accepts nothing by itself, whatever its own session does. */
  lemma {:induction false} StreamingIsQuiet(s: System, u: int, steps: seq<PeerStep>, accepted: seq<Trx>)
    requires u in s.peers && Quiet(s.peers[u], accepted)
    ensures var s' := Run(s, AllAt(u, steps));
            u in s'.peers && s'.log == s.log && Quiet(s'.peers[u], accepted)
  {
    if steps == [] {
    } else {
      var n := |steps| - 1;
      StreamingIsQuiet(s, u, steps[..n], accepted);
      assert AllAt(u, steps)[..n] == AllAt(u, steps[..n]);
      var s1 := Run(s, AllAt(u, steps[..n]));
      AtStepOnly(s1, u, steps[n]);
      QuietStep(s1.peers[u], s1.log, s1.maxQueue, steps[n]);
    }
  }

  function AllAt(u: int, steps: seq<PeerStep>): seq<Step> {
    seq(|steps|, i requires 0 <= i < |steps| => At(u, steps[i]))
  }

  lemma {:induction false} ReachableNext(s: System, e: Step)
    requires Reachable(s) && InOrder(s, e)
    ensures Reachable(Next(s, e))
  {
    assert [e][..0] == [];
    assert Run(s, [e]) == Next(Run(s, []), e);
    assert Orderly(s, []);
    ReachableRun(s, [e]);
  }

  /** A first follower is connected and its scan has taken an empty snapshot. */
  lemma {:induction false} EmptySnapshot(maxQueue: nat) returns (s: System)
    ensures Reachable(s) && s.log == s.uncalled == [] && s.open == map[] && s.peers.Keys == {1}
    ensures s.nextId == s.lastTrx == 0
    ensures var p := s.peers[1];
            p.agent.mode == IteratingDb && p.scan == Scan(0, []) && p.client == NEW_CLIENT
  {
    var s0 := Start([], maxQueue);
    LastIdOfLog([]);
    assert Run(s0, []) == s0;
    assert Ascending([]) && Orderly(s0, []);
    assert Reachable(s0);
    var s1 := Next(s0, Connect(1, false, 1));
    CheckAgentsRaises(s0.(peers := s0.peers[1 := NewSession(EMPTY_FOLLOWER, false, 0)]));
    ReachableNext(s0, Connect(1, false, 1));
    s := Next(s1, At(1, RunTask));
    ReachableNext(s1, At(1, RunTask));
    assert s.peers.Keys == {1};
  }

  /** "A streaming agent has, or will get, every announced transaction" is false
   *  until another commit: here one transaction is committed and announced
   *  between the snapshot and the end of a scan, and nothing that the session
   *  does by itself ever brings it to the client.
   */
  lemma {:induction false} StreamingCanBeBehind(maxQueue: nat, part: Part) returns (s: System)
    ensures Reachable(s) && 1 in s.peers
    ensures s.peers[1].agent.mode == Streaming && !s.peers[1].client.done
    ensures s.log == [Trx(1, [part])] && s.uncalled == []
    ensures forall steps: seq<PeerStep> ::
              var s' := Run(s, AllAt(1, steps)); 1 in s'.peers && Quiet(s'.peers[1], [])
  {
    var s2 := EmptySnapshot(maxQueue);
    var s3 := Committed(s2, part);
    var s4 := Next(s3, Callback(0));
    ReachableNext(s3, Callback(0));
    assert s4.peers[1].client == NEW_CLIENT;
    s := Next(s4, At(1, ScanOne));
    ReachableNext(s4, At(1, ScanOne));
    forall steps: seq<PeerStep>
      ensures var s' := Run(s, AllAt(1, steps)); 1 in s'.peers && Quiet(s'.peers[1], [])
    {
      StreamingIsQuiet(s, 1, steps, []);
    }
  }

  lemma {:induction false} Committed(s: System, part: Part) returns (s': System)
    requires Reachable(s) && s.log == s.uncalled == [] && s.open == map[] && s.nextId == 0
    ensures Reachable(s') && s'.log == s'.uncalled == [Trx(1, [part])] && s'.open == map[]
    ensures s'.peers == s.peers && s'.lastTrx == s.lastTrx
  {
    var s1 := Next(s, Issue([part]));
    ReachableNext(s, Issue([part]));
    assert s1.open == map[1 := [part]];
    s' := Next(s1, Land(1));
    ReachableNext(s1, Land(1));
    assert s'.open == map[];
  }

  /** What a late landing loses stays lost: until the follower reconnects, nothing that
   *  lands, is announced or happens brings it, and nothing that the session does by
   *  itself brings anything.
   */
  lemma {:induction false} LateLandingStaysLost(maxQueue: nat, a: Part, b: Part) returns (s: System)
    requires a.key != b.key
    ensures Possible(s) && s.log == [Trx(1, [a]), Trx(2, [b])] && s.uncalled == [] && s.open == map[]
    ensures s.published == 2
    ensures forall steps: seq<Step> :: SameSession(1, steps) ==>
              var s' := Run(s, steps); 1 in s'.peers && Trx(1, [a]) !in s'.peers[1].client.accepted
    ensures forall steps: seq<PeerStep> ::
              var s' := Run(s, AllAt(1, steps)); 1 in s'.peers && Quiet(s'.peers[1], [Trx(2, [b])])
  {
    s := LateLandingIsLost(maxQueue, a, b);
    forall steps: seq<Step> | SameSession(1, steps)
      ensures var s' := Run(s, steps); 1 in s'.peers && Trx(1, [a]) !in s'.peers[1].client.accepted
    {
      RunStaysMissed(s, 1, steps, Trx(1, [a]));
    }
    forall steps: seq<PeerStep>
      ensures var s' := Run(s, AllAt(1, steps)); 1 in s'.peers && Quiet(s'.peers[1], [Trx(2, [b])])
    {
      StreamingIsQuiet(s, 1, steps, [Trx(2, [b])]);
    }
  }
}
