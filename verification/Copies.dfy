/** The follower's copy in every run of the cluster, in whatever order commits land and
 *  are announced: exactly when it is the primary's, and when it has no gap.
 */
module Copies {
  import opened Options
  import opened Transactions
  import opened Sessions
  import opened Cluster
  import opened Landings
  import opened Deliveries

  /** A repeated transaction says nothing new. */
  lemma {:induction false} CollapseSaysTheSame(ts: seq<Trx>, k: string)
    ensures LastInLog(Collapse(ts), k) == LastInLog(ts, k)
  {
    if |ts| <= 1 {
    } else {
      var front, last := ts[..|ts| - 1], ts[|ts| - 1];
      CollapseSaysTheSame(front, k);
      assert ts == front + [last];
      LastInLogAppend(front, last, k);
      LastInLogAppend(Collapse(front), last, k);
    }
  }

  lemma {:induction false} ReadIsPrefix(s: System, u: int)
    requires u in s.peers && GapFree(s, u)
    ensures var p := s.peers[u];
            && Applied(p) <= |Collapse(p.client.accepted)| <= |s.log|
            && Collapse(ReadBy(p)) == s.log[..Applied(p)]
  {
    var p := s.peers[u];
    var c := Collapse(p.client.accepted);
    CollapsePrefix(p.client.accepted, |ReadBy(p)|);
    assert c == s.log[..|c|];
    assert c[..Applied(p)] == s.log[..Applied(p)];
  }

  /** Every id of the follower's TRXLOG is among the first j of the primary's log. */
  ghost predicate NothingBeyond(log: seq<Trx>, f: Follower, j: nat)
    requires j <= |log|
  {
    forall i :: i in f.log ==> i <= IdAt(log, j)
  }

  /** The log up to j is in the copy. */
  lemma {:induction false} CopyHas(log: seq<Trx>, f: Follower, read: seq<Trx>, held: nat, j: nat, m: nat)
    requires Ascending(log) && CopyInv(log, f, read, held) && j <= |log| && Collapse(read) == log[..j] && m < j
    ensures log[m].id in f.log && f.log[log[m].id] == log[m]
  {
    assert log[..j][m] == log[m];
    CollapseMembers(read, log[m]);
    SameId(log, f.log[log[m].id], log[m]);
  }

  lemma {:induction false} WantedIsCopied(log: seq<Trx>, f: Follower, read: seq<Trx>, held: nat, j: nat, i: nat)
    requires Ascending(log) && CopyInv(log, f, read, held) && j <= |log| && Collapse(read) == log[..j]
    requires i in LogMap(log[..j])
    ensures i in f.log && f.log[i] == LogMap(log[..j])[i] && i <= IdAt(log, j)
  {
    LogMapHolds(log[..j], i);
    var m :| 0 <= m < j && log[..j][m].id == i;
    CopyHas(log, f, read, held, j, m);
    IdAtOrder(log, m + 1, j);
  }

  lemma {:induction false} CopiedIsWanted(log: seq<Trx>, f: Follower, read: seq<Trx>, held: nat, j: nat, i: nat)
    requires Ascending(log) && CopyInv(log, f, read, held) && j <= |log| && i in f.log && i <= IdAt(log, j)
    ensures i in LogMap(log[..j])
  {
    var m :| 0 <= m < |log| && log[m] == f.log[i];
    IdAtOrder(log, m + 1, j);
    LogMapHolds(log[..j], i);
    assert log[..j][m].id == i;
  }

  lemma {:induction false} CopiedLogIff(log: seq<Trx>, f: Follower, read: seq<Trx>, held: nat, j: nat)
    requires Ascending(log) && CopyInv(log, f, read, held) && j <= |log| && Collapse(read) == log[..j]
    ensures NothingBeyond(log, f, j) <==> f.log == LogMap(log[..j])
  {
    var want := LogMap(log[..j]);
    forall i | i in want ensures i in f.log && f.log[i] == want[i] && i <= IdAt(log, j) {
      WantedIsCopied(log, f, read, held, j, i);
    }
    forall i | i in f.log && i <= IdAt(log, j) ensures i in want {
      CopiedIsWanted(log, f, read, held, j, i);
    }
  }

  lemma {:induction false} FirstCopyIsWithin(log: seq<Trx>, f: Follower, read: seq<Trx>, j: nat)
    requires Ascending(log) && CopyInv(log, f, read, 0) && j <= |log| && Collapse(read) == log[..j]
    ensures NothingBeyond(log, f, j)
  {
    forall i | i in f.log ensures i <= IdAt(log, j) {
      CollapseMembers(read, f.log[i]);
      var m :| 0 <= m < j && log[..j][m] == f.log[i];
      IdAtOrder(log, m + 1, j);
    }
  }

  /** A key that some logged transaction names has a last part in the log. */
  lemma {:induction false} NamedInLog(ts: seq<Trx>, t: Trx, k: string)
    requires t in ts && k in Named(t.parts)
    ensures LastInLog(ts, k).Some?
  {
    var front, last := ts[..|ts| - 1], ts[|ts| - 1];
    assert ts == front + [last];
    LastInLogAppend(front, last, k);
    LastPartNamed(last.parts, k);
    if t == last {
    } else {
      NamedInLog(front, t, k);
    }
  }

  lemma {:induction false} CopiedStore(log: seq<Trx>, f: Follower, read: seq<Trx>, held: nat, j: nat)
    requires Ascending(log) && CopyInv(log, f, read, held) && j <= |log| && Collapse(read) == log[..j]
    requires NothingBeyond(log, f, j)
    ensures f.store == Replay(map[], log[..j])
  {
    forall k ensures Get(f.store, k) == Get(Replay(map[], log[..j]), k) {
      ReplayLastWins(map[], log[..j], k);
      CollapseSaysTheSame(read, k);
      if LastInLog(read, k).None? && k in f.store {
        var i :| i in f.log && k in Named(f.log[i].parts);
        var m :| 0 <= m < |log| && log[m] == f.log[i];
        IdAtOrder(log, m + 1, j);
        assert log[..j][m] == f.log[i];
        NamedInLog(log[..j], f.log[i], k);
      }
    }
    SameLookups(f.store, Replay(map[], log[..j]));
  }

  // --------------------------------------------------- no gap at the follower

  /** The follower has every logged transaction up to any that it has. */
  ghost predicate Gapless(log: seq<Trx>, f: Follower) {
    forall t, i :: t in log && i in f.log && t.id <= i ==> t.id in f.log
  }

  /** The condition on step e: what lands has a larger id than anything that u's follower
   *  has committed, and what the follower commits has everything before it there.
   */
  ghost predicate KeepsGapless(s: System, u: int, e: Step)
    requires u in s.peers
  {
    var p := s.peers[u];
    && (e.Land? && e.id in s.open ==> forall i :: i in p.follower.log ==> i < e.id)
    && (Commits(s, u, e) ==>
          forall t :: t in s.log && t.id < Sent(p.client)[p.follower.rx].id ==> t.id in p.follower.log)
  }

  /** The step makes u's follower commit the next update. */
  ghost predicate Commits(s: System, u: int, e: Step)
    requires u in s.peers
  {
    var p := s.peers[u];
    e == At(u, Receive) && !p.cut && p.follower.rx < |Sent(p.client)| && p.follower.unset.None?
  }

  lemma {:induction false} CopyNext(s: System, u: int, e: Step)
    requires u in s.peers
    ensures var p := s.peers[u];
            PeerNext(s, u, e).follower.log ==
            if Commits(s, u, e)
            then p.follower.log[Sent(p.client)[p.follower.rx].id := Sent(p.client)[p.follower.rx]]
            else p.follower.log
  {
  }

  /** In every run: a step leaves the follower's copy without a gap if and only if it meets
   *  the condition; a new session keeps the copy.
   */
  lemma {:induction false} StepKeepsGaplessIff(s: System, u: int, e: Step)
    requires Possible(s) && u in s.peers && Gapless(s.log, s.peers[u].follower)
    ensures u in Next(s, e).peers
    ensures Gapless(Next(s, e).log, Next(s, e).peers[u].follower) <==> KeepsGapless(s, u, e)
  {
    PossiblePeer(s, u);
    PeerNextIs(s, u, e);
    LogNext(s, e);
    CopyNext(s, u, e);
    var p, f' := s.peers[u], PeerNext(s, u, e).follower;
    if e.Land? && e.id in s.open {
      OpenIsNotCopied(s, u, e.id);
      LandGaplessIff(s.log, Trx(e.id, s.open[e.id]), p.follower);
    } else if Commits(s, u, e) {
      ReadsNext(p);
      CommitGaplessIff(s.log, p.follower, f', Sent(p.client)[p.follower.rx]);
    }
  }

  lemma {:induction false} OpenIsNotCopied(s: System, u: int, id: nat)
    requires Possible(s) && u in s.peers && id in s.open
    ensures id !in s.peers[u].follower.log
  {
    PossibleLog(s);
    PossiblePeer(s, u);
    assert forall i :: i in s.peers[u].follower.log ==> s.peers[u].follower.log[i].id == i;
  }

  lemma {:induction false} LandGaplessIff(log: seq<Trx>, t: Trx, f: Follower)
    requires Gapless(log, f) && t.id !in f.log
    ensures Gapless(Insert(log, t), f) <==> forall i :: i in f.log ==> i < t.id
  {
    assert t in Insert(log, t);
  }

  lemma {:induction false} CommitGaplessIff(log: seq<Trx>, f: Follower, f': Follower, t: Trx)
    requires Gapless(log, f) && t in log && f'.log == f.log[t.id := t]
    ensures Gapless(log, f') <==> forall x :: x in log && x.id < t.id ==> x.id in f.log
  {
    assert t.id in f'.log;
    if Gapless(log, f') {
      forall x | x in log && x.id < t.id ensures x.id in f.log {
        assert x.id in f'.log;
      }
    } else {
      var x, i :| x in log && i in f'.log && x.id <= i && x.id !in f'.log;
      assert i == t.id;
    }
  }

  /** A copy without a gap has everything up to what was confirmed. */
  lemma {:induction false} ConfirmedIsCopied(log: seq<Trx>, f: Follower, read: seq<Trx>, held: nat, confirmed: nat,
                                             t: Trx)
    requires Ascending(log) && CopyInv(log, f, read, held) && Gapless(log, f)
    requires Known(f, confirmed) && t in log && t.id <= confirmed
    ensures t.id in f.log && f.log[t.id] == t
  {
    SameId(log, f.log[t.id], t);
  }
}
