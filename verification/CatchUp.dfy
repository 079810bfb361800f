/** A session catches up by its own steps: nothing needs to break for it. */
module CatchUp {
  import opened Options
  import opened Transactions
  import opened Sessions
  import opened Cluster
  import opened ClusterTheorems

  function PeerRun(p: Peer, log: seq<Trx>, maxQueue: nat, steps: seq<PeerStep>): Peer {
    if steps == [] then p
    else NextPeer(PeerRun(p, log, maxQueue, steps[..|steps| - 1]), log, maxQueue, steps[|steps| - 1])
  }

  lemma {:induction false} FrontOfSum<T>(a: seq<T>, b: seq<T>)
    requires b != []
    ensures (a + b)[..|a + b| - 1] == a + b[..|b| - 1] && (a + b)[|a + b| - 1] == b[|b| - 1]
  {
  }

  lemma {:induction false} PeerRunAppend(p: Peer, log: seq<Trx>, maxQueue: nat, a: seq<PeerStep>, b: seq<PeerStep>)
    ensures PeerRun(p, log, maxQueue, a + b) == PeerRun(PeerRun(p, log, maxQueue, a), log, maxQueue, b)
    decreases |b|
  {
    if b == [] {
      assert a + b == a;
    } else {
      PeerRunAppend(p, log, maxQueue, a, b[..|b| - 1]);
      FrontOfSum(a, b);
    }
  }

  lemma {:induction false} PeerRunOne(p: Peer, log: seq<Trx>, maxQueue: nat, e: PeerStep)
    ensures PeerRun(p, log, maxQueue, [e]) == NextPeer(p, log, maxQueue, e)
  {
    assert [e][..0] == [];
    assert PeerRun(p, log, maxQueue, []) == p;
  }

  /** Steps that neither break the stream nor bring acknowledgements. */
  predicate Working(steps: seq<PeerStep>) {
    forall e :: e in steps ==> e in {RunTask, ScanOne, PeerStep.WriteDone, Receive, Advance}
  }

  /** A live session that the follower still uses. */
  ghost predicate Healthy(log: seq<Trx>, base: nat, p: Peer) {
    Ascending(log) && base <= |log| && PeerInv(log, base, p) && !p.client.done && !p.cut
  }

  lemma {:induction false} StaysHealthy(log: seq<Trx>, base: nat, p: Peer, maxQueue: nat, e: PeerStep)
    requires Healthy(log, base, p) && e in {RunTask, ScanOne, PeerStep.WriteDone, Receive, Advance}
    ensures Healthy(log, base, NextPeer(p, log, maxQueue, e))
  {
    PeerStepInv(log, base, p, maxQueue, e);
    KeepsAlive(p, log, maxQueue, e);
  }

  lemma {:induction false} KeepsAlive(p: Peer, log: seq<Trx>, maxQueue: nat, e: PeerStep)
    requires !p.client.done && !p.cut && e in {RunTask, ScanOne, PeerStep.WriteDone, Receive, Advance}
    ensures var p' := NextPeer(p, log, maxQueue, e); !p'.client.done && !p'.cut
  {
  }

  lemma {:induction false} RunIsHealthy(log: seq<Trx>, base: nat, p: Peer, maxQueue: nat, steps: seq<PeerStep>)
    requires Healthy(log, base, p) && Working(steps)
    ensures Healthy(log, base, PeerRun(p, log, maxQueue, steps))
  {
    if steps == [] {
    } else {
      var n := |steps| - 1;
      assert forall e :: e in steps[..n] ==> e in steps;
      assert steps[n] in steps;
      RunIsHealthy(log, base, p, maxQueue, steps[..n]);
      StaysHealthy(log, base, PeerRun(p, log, maxQueue, steps[..n]), maxQueue, steps[n]);
    }
  }

  /** The step e, and then the given steps. */
  lemma {:induction false} StepThen(p: Peer, log: seq<Trx>, maxQueue: nat, e: PeerStep, rest: seq<PeerStep>)
    requires Working([e]) && Working(rest)
    ensures Working([e] + rest)
    ensures PeerRun(p, log, maxQueue, [e] + rest) == PeerRun(NextPeer(p, log, maxQueue, e), log, maxQueue, rest)
  {
    PeerRunAppend(p, log, maxQueue, [e], rest);
    PeerRunOne(p, log, maxQueue, e);
  }

  ghost predicate Idle(p: Peer) {
    p.client.current.None? && p.client.pending == []
  }

  /** Completed writes empty the queue; state and scan stay, and an empty queue posts a
   *  task.
   */
  lemma {:induction false} Drain(p: Peer, log: seq<Trx>, maxQueue: nat) returns (steps: seq<PeerStep>)
    requires ClientInv(p.client) && (p.client.current.Some? || 0 < p.agent.posts || p.scan.Scan?)
    ensures Working(steps)
    ensures var p' := PeerRun(p, log, maxQueue, steps);
            && Idle(p') && p'.scan == p.scan && p'.agent.mode == p.agent.mode
            && (0 < p'.agent.posts || p.scan.Scan?)
    decreases |p.client.pending|, p.client.current.Some?
  {
    if p.client.current.None? {
      steps := [];
    } else {
      var p1 := NextPeer(p, log, maxQueue, PeerStep.WriteDone);
      WriteDoneInv(p.client);
      var rest := Drain(p1, log, maxQueue);
      steps := [PeerStep.WriteDone] + rest;
      StepThen(p, log, maxQueue, PeerStep.WriteDone, rest);
    }
  }

  /** The id where a scan leaves its agent. */
  function EndId(p: Peer): nat
    requires p.scan.Scan?
  {
    if p.scan.rest == [] then p.agent.enqueued else p.scan.rest[|p.scan.rest| - 1].id
  }

  /** A scan to its end, its writes completed one by one. */
  lemma {:induction false} ScanAll(p: Peer, log: seq<Trx>, maxQueue: nat) returns (steps: seq<PeerStep>)
    requires !p.client.done && Idle(p) && p.scan.Scan? && p.agent.mode == IteratingDb
    ensures Working(steps)
    ensures var p' := PeerRun(p, log, maxQueue, steps);
            Idle(p') && p'.agent.mode == Streaming && p'.agent.enqueued == EndId(p)
    decreases |p.scan.rest|
  {
    var p1 := NextPeer(p, log, maxQueue, ScanOne);
    if p.scan.rest == [] {
      steps := [ScanOne];
      PeerRunOne(p, log, maxQueue, ScanOne);
    } else {
      FeedsIdle(p, log, maxQueue);
      var p2 := NextPeer(p1, log, maxQueue, PeerStep.WriteDone);
      var rest := ScanAll(p2, log, maxQueue);
      StepThen(p1, log, maxQueue, PeerStep.WriteDone, rest);
      StepThen(p, log, maxQueue, ScanOne, [PeerStep.WriteDone] + rest);
      steps := [ScanOne] + ([PeerStep.WriteDone] + rest);
    }
  }

  /** An idle client takes the next entry straight into a write, so the queue is not
   *  full, however small its limit is.
   */
  lemma {:induction false} FeedsIdle(p: Peer, log: seq<Trx>, maxQueue: nat)
    requires !p.client.done && Idle(p) && p.scan.Scan? && p.scan.rest != [] && p.agent.mode == IteratingDb
    ensures var p1 := NextPeer(p, log, maxQueue, ScanOne);
            var p2 := NextPeer(p1, log, maxQueue, PeerStep.WriteDone);
            && !p2.client.done && Idle(p2) && p2.agent.mode == IteratingDb
            && p2.scan == Scan(p.scan.at + 1, p.scan.rest[1..]) && p2.agent.enqueued == p.scan.rest[0].id
  {
  }

  /** The follower reads and commits all that was written. */
  lemma {:induction false} Deliver(p: Peer, log: seq<Trx>, maxQueue: nat) returns (steps: seq<PeerStep>)
    requires !p.cut && p.follower.rx <= |Sent(p.client)|
    ensures Working(steps)
    ensures var p' := PeerRun(p, log, maxQueue, steps);
            && p'.agent == p.agent && p'.client == p.client
            && p'.follower.rx == |Sent(p.client)| && p'.follower.unset.None?
    decreases |Sent(p.client)| - p.follower.rx, p.follower.unset.Some?
  {
    if p.follower.unset.Some? {
      var rest := Deliver(NextPeer(p, log, maxQueue, Advance), log, maxQueue);
      StepThen(p, log, maxQueue, Advance, rest);
      steps := [Advance] + rest;
    } else if p.follower.rx < |Sent(p.client)| {
      var rest := Deliver(NextPeer(p, log, maxQueue, Receive), log, maxQueue);
      StepThen(p, log, maxQueue, Receive, rest);
      steps := [Receive] + rest;
    } else {
      steps := [];
    }
  }

  /** Without completed writes, what is left of the scan is more than the queue takes. */
  predicate Overflows(p: Peer, maxQueue: nat) {
    p.scan.Scan? && p.scan.rest != [] && maxQueue < Backlog(p.client) + |p.scan.rest|
  }

  lemma {:induction false} FeedsBacklog(p: Peer, maxQueue: nat)
    requires ClientInv(p.client) && !p.client.done && p.scan.Scan? && p.scan.rest != [] && p.agent.mode == IteratingDb
    ensures var p' := ScanNext(p, maxQueue);
            && Backlog(p'.client) == Backlog(p.client) + 1 && p'.agent.mode == IteratingDb
            && p'.scan == if Backlog(p'.client) <= maxQueue then Scan(p.scan.at + 1, p.scan.rest[1..]) else NoScan
  {
  }

  /** A full queue stops the scan. */
  lemma {:induction false} ScanUntilFull(p: Peer, log: seq<Trx>, maxQueue: nat) returns (steps: seq<PeerStep>)
    requires ClientInv(p.client) && !p.client.done && p.agent.mode == IteratingDb && Overflows(p, maxQueue)
    ensures Working(steps)
    ensures var p' := PeerRun(p, log, maxQueue, steps); p'.scan == NoScan && p'.agent.mode == IteratingDb
    decreases if p.scan.Scan? then |p.scan.rest| else 0
  {
    var p1 := NextPeer(p, log, maxQueue, ScanOne);
    FeedsBacklog(p, maxQueue);
    if maxQueue < Backlog(p1.client) {
      steps := [ScanOne];
      PeerRunOne(p, log, maxQueue, ScanOne);
    } else {
      EnqueueInv(p.client, p.scan.rest[0], maxQueue);
      var rest := ScanUntilFull(p1, log, maxQueue);
      StepThen(p, log, maxQueue, ScanOne, rest);
      steps := [ScanOne] + rest;
    }
  }

  /** No scan over a snapshot that is older than the log, or one that a full queue stops. */
  predicate NotStuck(p: Peer, log: seq<Trx>, maxQueue: nat) {
    p.scan == NoScan || Upto(p.scan) == |log| || Overflows(p, maxQueue)
  }

  lemma {:induction false} LeavesOldScan(p: Peer, log: seq<Trx>, base: nat, maxQueue: nat)
    returns (steps: seq<PeerStep>)
    requires Healthy(log, base, p) && p.agent.mode == IteratingDb && NotStuck(p, log, maxQueue)
    ensures Working(steps)
    ensures var p' := PeerRun(p, log, maxQueue, steps);
            && Healthy(log, base, p') && p'.agent.mode == IteratingDb
            && (p'.scan == NoScan || Upto(p'.scan) == |log|)
  {
    if p.scan == NoScan || Upto(p.scan) == |log| {
      steps := [];
    } else {
      steps := ScanUntilFull(p, log, maxQueue);
    }
    RunIsHealthy(log, base, p, maxQueue, steps);
  }

  /** The scan that is running, or a new one, covers the whole log. */
  lemma {:induction false} StartScan(p: Peer, log: seq<Trx>, maxQueue: nat) returns (steps: seq<PeerStep>)
    requires Idle(p) && p.agent.mode == IteratingDb && (0 < p.agent.posts || p.scan.Scan?)
    requires p.scan == NoScan || Upto(p.scan) == |log|
    ensures Working(steps)
    ensures var p' := PeerRun(p, log, maxQueue, steps);
            Idle(p') && p'.agent.mode == IteratingDb && p'.scan.Scan? && Upto(p'.scan) == |log|
  {
    if p.scan == NoScan {
      PeerRunOne(p, log, maxQueue, RunTask);
      steps := [RunTask];
    } else {
      steps := [];
    }
  }

  lemma {:induction false} EndOfLog(log: seq<Trx>, base: nat, p: Peer)
    requires Healthy(log, base, p) && p.scan.Scan? && Upto(p.scan) == |log|
    ensures EndId(p) == IdAt(log, |log|)
  {
  }

  lemma {:induction false} EndIsReached(log: seq<Trx>, base: nat, p: Peer)
    requires Healthy(log, base, p) && p.agent.mode == Streaming && p.agent.enqueued == IdAt(log, |log|)
    ensures Collapse(p.client.accepted) == log && ClientInv(p.client) && p.follower.rx <= |Sent(p.client)|
  {
    IdAtOrder(log, |Collapse(p.client.accepted)|, |log|);
    assert log[..|log|] == log;
  }

  lemma {:induction false} PeerScans(p: Peer, log: seq<Trx>, base: nat, maxQueue: nat)
    returns (steps: seq<PeerStep>)
    requires Healthy(log, base, p) && p.agent.mode == IteratingDb
    requires p.scan == NoScan || Upto(p.scan) == |log|
    ensures Working(steps)
    ensures var p' := PeerRun(p, log, maxQueue, steps);
            Healthy(log, base, p') && Idle(p') && p'.agent.mode == Streaming && p'.agent.enqueued == IdAt(log, |log|)
  {
    var a := Drain(p, log, maxQueue);
    var b := StartScan(PeerRun(p, log, maxQueue, a), log, maxQueue);
    PeerRunAppend(p, log, maxQueue, a, b);
    var p2 := PeerRun(p, log, maxQueue, a + b);
    RunIsHealthy(log, base, p, maxQueue, a + b);
    EndOfLog(log, base, p2);
    var c := ScanAll(p2, log, maxQueue);
    PeerRunAppend(p, log, maxQueue, a + b, c);
    steps := a + b + c;
    RunIsHealthy(log, base, p, maxQueue, steps);
  }

  lemma {:induction false} PeerCatchesUp(p: Peer, log: seq<Trx>, base: nat, maxQueue: nat)
    returns (steps: seq<PeerStep>)
    requires Healthy(log, base, p) && p.agent.mode == IteratingDb && NotStuck(p, log, maxQueue)
    ensures Working(steps)
    ensures CaughtUp(PeerRun(p, log, maxQueue, steps), log)
  {
    var a := GetsToEnd(p, log, base, maxQueue);
    var b := Finishes(PeerRun(p, log, maxQueue, a), log, base, maxQueue);
    PeerRunAppend(p, log, maxQueue, a, b);
    steps := a + b;
  }

  lemma {:induction false} GetsToEnd(p: Peer, log: seq<Trx>, base: nat, maxQueue: nat) returns (steps: seq<PeerStep>)
    requires Healthy(log, base, p) && p.agent.mode == IteratingDb && NotStuck(p, log, maxQueue)
    ensures Working(steps)
    ensures var p' := PeerRun(p, log, maxQueue, steps);
            Healthy(log, base, p') && Idle(p') && p'.agent.mode == Streaming && p'.agent.enqueued == IdAt(log, |log|)
  {
    var a := LeavesOldScan(p, log, base, maxQueue);
    var b := PeerScans(PeerRun(p, log, maxQueue, a), log, base, maxQueue);
    PeerRunAppend(p, log, maxQueue, a, b);
    steps := a + b;
  }

  lemma {:induction false} Finishes(p: Peer, log: seq<Trx>, base: nat, maxQueue: nat) returns (steps: seq<PeerStep>)
    requires Healthy(log, base, p) && Idle(p)
    requires p.agent.mode == Streaming && p.agent.enqueued == IdAt(log, |log|)
    ensures Working(steps)
    ensures CaughtUp(PeerRun(p, log, maxQueue, steps), log)
  {
    EndIsReached(log, base, p);
    steps := Deliver(p, log, maxQueue);
    AllRead(p, PeerRun(p, log, maxQueue, steps));
  }

  /** Streaming, with the whole log accepted and committed by the follower. */
  ghost predicate CaughtUp(p: Peer, log: seq<Trx>) {
    && p.agent.mode == Streaming && Collapse(p.client.accepted) == log
    && p.follower.unset.None? && Applied(p) == |log|
  }

  lemma {:induction false} AllRead(p: Peer, p': Peer)
    requires ClientInv(p.client) && Idle(p) && p'.client == p.client && p'.follower.rx == |Sent(p.client)|
    ensures Applied(p') == |Collapse(p.client.accepted)|
  {
    assert Sent(p.client) == p.client.accepted;
    assert p.client.accepted[..|p.client.accepted|] == p.client.accepted;
  }

  lemma {:induction false} SessionRun(s: System, u: int, steps: seq<PeerStep>)
    requires u in s.peers
    ensures var s' := Run(s, AllAt(u, steps));
            && u in s'.peers && s'.log == s.log && s'.maxQueue == s.maxQueue
            && s'.peers[u] == PeerRun(s.peers[u], s.log, s.maxQueue, steps)
  {
    if steps == [] {
    } else {
      var n := |steps| - 1;
      SessionRun(s, u, steps[..n]);
      assert AllAt(u, steps)[..n] == AllAt(u, steps[..n]);
      AtStepOnly(Run(s, AllAt(u, steps[..n])), u, steps[n]);
    }
  }

  /** From every state reached in order, a live session that is catching up, and is not
   *  stuck with an old snapshot, gets by its own steps to streaming with the whole log
   *  accepted and committed by the follower.
   */
  lemma {:induction false} SessionCatchesUp(s: System, u: int) returns (steps: seq<PeerStep>)
    requires Reachable(s) && u in s.peers && !s.peers[u].client.done && !s.peers[u].cut
    requires s.peers[u].agent.mode == IteratingDb && NotStuck(s.peers[u], s.log, s.maxQueue)
    ensures Working(steps)
    ensures var s' := Run(s, AllAt(u, steps));
            u in s'.peers && s'.log == s.log && CaughtUp(s'.peers[u], s.log)
  {
    ReachablePeer(s, u);
    steps := PeerCatchesUp(s.peers[u], s.log, s.base, s.maxQueue);
    SessionRun(s, u, steps);
  }

  /** Nothing will bring more than the first n log entries: the client is finished, the scan
   *  ends before the queue is full, or there is none to come.
   */
  predicate Halted(p: Peer, maxQueue: nat, n: nat) {
    || p.client.done
    || (p.scan.Scan? && Upto(p.scan) <= n && !Overflows(p, maxQueue))
    || (p.scan == NoScan && p.agent.mode != IteratingDb)
  }

  ghost predicate Behind(log: seq<Trx>, base: nat, p: Peer, maxQueue: nat, n: nat) {
    PeerInv(log, base, p) && |Collapse(p.client.accepted)| <= n && Halted(p, maxQueue, n)
  }

  lemma {:induction false} VisitHalted(p: Peer, maxQueue: nat, n: nat)
    requires ClientInv(p.client) && Halted(p, maxQueue, n) && !p.client.done && p.agent.mode != Done
    requires p.scan.Scan? && p.agent.mode != Streaming
    ensures var p' := ScanNext(p, maxQueue);
            && Halted(p', maxQueue, n)
            && (p'.client.accepted == p.client.accepted ||
                (!p'.client.done && p'.scan.Scan? && Upto(p'.scan) <= n))
  {
    if p.scan.rest != [] {
      FeedsBacklog(p, maxQueue);
    }
  }

  lemma {:induction false} WriteHalted(p: Peer, log: seq<Trx>, maxQueue: nat, n: nat)
    requires ClientInv(p.client) && Halted(p, maxQueue, n)
    ensures var p' := NextPeer(p, log, maxQueue, PeerStep.WriteDone);
            Halted(p', maxQueue, n) && p'.client.accepted == p.client.accepted
  {
  }

  lemma {:induction false} OtherHalted(p: Peer, log: seq<Trx>, maxQueue: nat, n: nat, e: PeerStep)
    requires Halted(p, maxQueue, n) && e != ScanOne && e != PeerStep.WriteDone
    ensures var p' := NextPeer(p, log, maxQueue, e);
            Halted(p', maxQueue, n) && p'.client.accepted == p.client.accepted
  {
  }

  lemma {:induction false} StepHalted(p: Peer, log: seq<Trx>, maxQueue: nat, n: nat, e: PeerStep)
    requires ClientInv(p.client) && Halted(p, maxQueue, n)
    requires !p.client.done ==> p.agent.mode != Done && (p.scan.Scan? ==> p.agent.mode != Streaming)
    ensures var p' := NextPeer(p, log, maxQueue, e);
            && Halted(p', maxQueue, n)
            && (p'.client.accepted == p.client.accepted ||
                (!p'.client.done && p'.scan.Scan? && Upto(p'.scan) <= n))
  {
    if e == ScanOne {
      if p.scan.Scan? && !p.client.done { VisitHalted(p, maxQueue, n); }
    } else if e == PeerStep.WriteDone {
      WriteHalted(p, log, maxQueue, n);
    } else {
      OtherHalted(p, log, maxQueue, n, e);
    }
  }

  lemma {:induction false} ScanBounds(log: seq<Trx>, base: nat, p: Peer)
    requires PeerInv(log, base, p) && !p.client.done
    ensures p.agent.mode != Done
    ensures p.scan.Scan? ==> p.agent.mode != Streaming && |Collapse(p.client.accepted)| <= Upto(p.scan)
  {
  }

  lemma {:induction false} StepStaysBehind(log: seq<Trx>, base: nat, p: Peer, maxQueue: nat, n: nat, e: PeerStep)
    requires Ascending(log) && base <= |log| && Behind(log, base, p, maxQueue, n)
    ensures Behind(log, base, NextPeer(p, log, maxQueue, e), maxQueue, n)
  {
    var p' := NextPeer(p, log, maxQueue, e);
    PeerStepInv(log, base, p, maxQueue, e);
    if !p.client.done { ScanBounds(log, base, p); }
    if !p'.client.done { ScanBounds(log, base, p'); }
    StepHalted(p, log, maxQueue, n, e);
  }

  lemma {:induction false} RunStaysBehind(log: seq<Trx>, base: nat, p: Peer, maxQueue: nat, n: nat,
                                          steps: seq<PeerStep>)
    requires Ascending(log) && base <= |log| && Behind(log, base, p, maxQueue, n)
    ensures Behind(log, base, PeerRun(p, log, maxQueue, steps), maxQueue, n)
  {
    if steps == [] {
    } else {
      var m := |steps| - 1;
      RunStaysBehind(log, base, p, maxQueue, n, steps[..m]);
      StepStaysBehind(log, base, PeerRun(p, log, maxQueue, steps[..m]), maxQueue, n, steps[m]);
    }
  }

  /** A session that is stuck with an old snapshot gets the whole log by no steps of its own. */
  lemma {:induction false} OldSnapshotStaysBehind(s: System, u: int, steps: seq<PeerStep>)
    requires Reachable(s) && u in s.peers && !s.peers[u].client.done && !NotStuck(s.peers[u], s.log, s.maxQueue)
    ensures var s' := Run(s, AllAt(u, steps));
            u in s'.peers && s'.log == s.log && Collapse(s'.peers[u].client.accepted) != s.log
  {
    ReachablePeer(s, u);
    SessionRun(s, u, steps);
    StuckStaysBehind(s.log, s.base, s.peers[u], s.maxQueue, steps);
  }

  lemma {:induction false} ReachablePeer(s: System, u: int)
    requires Reachable(s) && u in s.peers
    ensures Ascending(s.log) && s.base <= |s.log| && PeerInv(s.log, s.base, s.peers[u])
  {
    ReachableInv(s);
    PeerHasInv(s, u);
  }

  lemma {:induction false} StuckStaysBehind(log: seq<Trx>, base: nat, p: Peer, maxQueue: nat, steps: seq<PeerStep>)
    requires Ascending(log) && base <= |log| && PeerInv(log, base, p) && !p.client.done && !NotStuck(p, log, maxQueue)
    ensures Collapse(PeerRun(p, log, maxQueue, steps).client.accepted) != log
  {
    assert Behind(log, base, p, maxQueue, Upto(p.scan));
    RunStaysBehind(log, base, p, maxQueue, Upto(p.scan), steps);
  }

  /** In order: a live session that is catching up can get the whole log by its own steps if
   *  and only if it is not stuck with an old snapshot.
   */
  lemma {:induction false} SessionCatchesUpIff(s: System, u: int)
    requires Reachable(s) && u in s.peers && !s.peers[u].client.done && !s.peers[u].cut
    requires s.peers[u].agent.mode == IteratingDb
    ensures NotStuck(s.peers[u], s.log, s.maxQueue) <==>
            exists steps: seq<PeerStep> ::
              var s' := Run(s, AllAt(u, steps)); u in s'.peers && Collapse(s'.peers[u].client.accepted) == s.log
  {
    if NotStuck(s.peers[u], s.log, s.maxQueue) {
      var steps := SessionCatchesUp(s, u);
      var s' := Run(s, AllAt(u, steps));
      assert u in s'.peers && Collapse(s'.peers[u].client.accepted) == s.log;
    } else {
      forall steps: seq<PeerStep>
        ensures var s' := Run(s, AllAt(u, steps)); u in s'.peers && Collapse(s'.peers[u].client.accepted) != s.log
      {
        OldSnapshotStaysBehind(s, u, steps);
      }
    }
  }
}
