/** The objects behind the step machine, as the source updates them in place.
 *  Each method is proved to be the corresponding step of Sessions and Cluster.
 */
module Replication {
  import opened Options
  import opened Transactions
  import opened Sessions
  import opened Cluster

  /** GrpcPrimary::SyncClient. */
  class SyncClient {
    var isDone: bool
    var hasWritten: bool
    var current: Option<Trx>
    var pending: seq<Trx>
    const maxQueue: nat
    ghost var accepted: seq<Trx>
    ghost var written: seq<Trx>

    ghost function View(): Client
      reads this
    {
      Client(isDone, hasWritten, current, pending, accepted, written)
    }

    constructor (maxQueue: nat)
      ensures View() == NEW_CLIENT && this.maxQueue == maxQueue
    {
      isDone, hasWritten, current, pending, accepted, written := false, true, None, [], [], [];
      this.maxQueue := maxQueue;
    }

    /** The result tells whether the replication agent is to be notified. */
    method Flush() returns (notify: bool)
      modifies this
      ensures (View(), notify) == Sessions.Flush(old(View()))
      ensures if old(current).None? && old(pending) != []
              then !notify && hasWritten && current == Some(old(pending)[0]) && pending == old(pending)[1..]
              else notify == old(hasWritten) && !hasWritten && current == old(current) && pending == old(pending)
    {
      if current == None && pending != [] {
        hasWritten := true;
        current := Some(pending[0]);
        pending := pending[1..];
        return false;
      }
      notify := hasWritten;
      hasWritten := false;
    }

    method Enqueue(t: Trx) returns (ok: bool, notify: bool)
      modifies this
      ensures Enqueued(View(), ok, notify) == Sessions.Enqueue(old(View()), t, maxQueue)
      ensures old(isDone) ==> !ok && !notify && View() == old(View())
      ensures !old(isDone) ==>
                && InFlight(View()) + pending == InFlight(old(View())) + old(pending) + [t] && current.Some?
                && (ok <==> |pending| <= maxQueue)
    {
      if isDone {
        return false, false;
      }
      pending := pending + [t];
      accepted := accepted + [t];
      notify := Flush();
      ok := |pending| <= maxQueue;
    }

    method OnWriteDone() returns (notify: bool)
      requires current.Some?
      modifies this
      ensures (View(), notify) == Sessions.WriteDone(old(View()))
      ensures InFlight(View()) + pending == old(pending) && (current.None? ==> pending == [])
    {
      written := written + [current.value];
      current := None;
      notify := Flush();
    }

    method OnReadFailed()
      modifies this
      ensures View() == old(View()).(done := true)
    {
      isDone := true;
    }
  }

  /** A whole undisturbed scan over what is left of the snapshot. */
  function ScanRest(a: Sessions.Agent, c: Client, rest: seq<Trx>, maxQueue: nat): (Sessions.Agent, Client)
    decreases |rest|
  {
    if rest == [] then (SetState(a, Streaming), c)
    else if a.mode == Done then (a, c)
    else
      var (a', c', more) := Feed(a, c, rest[0], maxQueue);
      if more then ScanRest(a', c', rest[1..], maxQueue) else (a', c')
  }

  /** PrimaryReplication::Agent. */
  class Agent {
    var mode: Mode
    var lastEnqueued: nat
    var lastConfirmed: nat
    var posts: nat
    var released: bool
    const client: SyncClient

    ghost function View(): Sessions.Agent
      reads this
    {
      Sessions.Agent(mode, lastEnqueued, lastConfirmed, posts)
    }

    constructor (client: SyncClient)
      ensures View() == NEW_AGENT && this.client == client && !released
    {
      mode, lastEnqueued, lastConfirmed, posts, released := IteratingDb, 0, 0, 0, false;
      this.client := client;
    }

    method SyncLater()
      modifies this`posts
      ensures View() == Posted(old(View()), true)
    {
      posts := posts + 1;
    }

    method SetState(state: Mode)
      modifies this`mode
      ensures View() == Sessions.SetState(old(View()), state)
      ensures mode == if old(mode) == Done then Done else state
    {
      if mode == Done {
        return;
      }
      mode := state;
    }

    method OnTrxId(id: nat)
      modifies this`lastConfirmed, this`posts
      ensures View() == Sessions.OnTrxId(old(View()), id)
      ensures lastConfirmed == id && posts == old(posts) + 1
    {
      lastConfirmed := id;
      SyncLater();
    }

    method OnTransaction(prev: nat, t: Trx)
      modifies this, client
      ensures (View(), client.View()) == Push(old(View()), old(client.View()), prev, t, client.maxQueue)
      ensures old(mode) != Streaming ==> View() == old(View()) && client.View() == old(client.View())
      ensures old(mode) == Streaming && prev != old(lastEnqueued) ==>
                && mode == IteratingDb && lastEnqueued == old(lastEnqueued) && posts == old(posts) + 1
                && client.View() == old(client.View())
      ensures old(mode) == Streaming && prev == old(lastEnqueued) ==>
                && lastEnqueued == t.id
                && mode == (if client.isDone || client.maxQueue < |client.pending| then IteratingDb else Streaming)
                && client.accepted == old(client.accepted) + if client.isDone then [] else [t]
    {
      if mode != Streaming {
        return;
      }
      if prev == lastEnqueued {
        var ok, notify := client.Enqueue(t);
        if !ok {
          SetState(IteratingDb);
        }
        lastEnqueued := t.id;
        if notify {
          SyncLater();
        }
      } else {
        SetState(IteratingDb);
        SyncLater();
      }
    }

    /** The log scan, when nothing else touches the agent meanwhile. */
    method IterateDb(log: seq<Trx>)
      modifies this`mode, this`lastEnqueued, this`posts, client
      ensures (View(), client.View()) ==
              ScanRest(old(View()), old(client.View()), ScanAfter(log, old(lastEnqueued)).rest, client.maxQueue)
    {
      var at := FirstAfter(log, lastEnqueued);
      var filled := false;
      ghost var start := at;
      while at < |log| && !filled
        invariant start <= at <= |log|
        invariant filled ==> (View(), client.View()) ==
                             ScanRest(old(View()), old(client.View()), log[start..], client.maxQueue)
        invariant !filled ==> ScanRest(View(), client.View(), log[at..], client.maxQueue) ==
                              ScanRest(old(View()), old(client.View()), log[start..], client.maxQueue)
        decreases |log| - at, if filled then 0 else 1
      {
        if mode == Done {
          break;
        }
        assert log[at..][1..] == log[at + 1..];
        var ok, notify := client.Enqueue(log[at]);
        if notify {
          SyncLater();
        }
        if ok {
          lastEnqueued := log[at].id;
          at := at + 1;
        } else {
          filled := true;
        }
      }
      if !filled {
        SetState(Streaming);
      }
    }

    /** The session has ended: the agent is done and lets go of its client. */
    method OnDone()
      modifies this`mode, this`released
      ensures View() == Sessions.SetState(old(View()), Done) && released
    {
      SetState(Done);
      released := true;
    }
  }

  /** One visit: the entry is accepted, and the scan goes on if and only if there was room. */
  lemma {:induction false} FeedTakes(a: Sessions.Agent, c: Client, t: Trx, maxQueue: nat)
    requires ClientInv(c) && !c.done
    ensures var (a', c', more) := Feed(a, c, t, maxQueue);
            && ClientInv(c') && !c'.done && c'.accepted == c.accepted + [t] && Backlog(c') == Backlog(c) + 1
            && (more <==> Backlog(c) < maxQueue)
            && a'.mode == a.mode && a'.enqueued == if more then t.id else a.enqueued
  {
    EnqueueInv(c, t, maxQueue);
  }

  /** An undisturbed scan for a live client hands over the rest of the log in order, and
   *  makes the agent stream, if the queue has room for all of it.
   */
  lemma {:induction false} ScanRestFits(a: Sessions.Agent, c: Client, rest: seq<Trx>, maxQueue: nat)
    requires ClientInv(c) && !c.done && a.mode == IteratingDb && (rest == [] || Backlog(c) + |rest| <= maxQueue)
    ensures var (a', c') := ScanRest(a, c, rest, maxQueue);
            && c'.accepted == c.accepted + rest && a'.mode == Streaming
            && a'.enqueued == if rest == [] then a.enqueued else rest[|rest| - 1].id
    decreases |rest|
  {
    if rest == [] {
    } else {
      var (a1, c1, more) := Feed(a, c, rest[0], maxQueue);
      FeedTakes(a, c, rest[0], maxQueue);
      ScanRestFits(a1, c1, rest[1..], maxQueue);
      assert rest == [rest[0]] + rest[1..];
    }
  }

  /** Otherwise it stops with the first entry for which there is no room. That one is
   *  accepted, too, but the agent's position stays before it, so that it is read again.
   */
  lemma {:induction false} ScanRestStops(a: Sessions.Agent, c: Client, rest: seq<Trx>, maxQueue: nat, n: nat)
    requires ClientInv(c) && !c.done && a.mode == IteratingDb && rest != [] && maxQueue < Backlog(c) + |rest|
    requires n == if maxQueue <= Backlog(c) then 0 else maxQueue - Backlog(c)
    ensures n < |rest|
    ensures var (a', c') := ScanRest(a, c, rest, maxQueue);
            && c'.accepted == c.accepted + rest[..n + 1] && a'.mode == IteratingDb
            && a'.enqueued == if n == 0 then a.enqueued else rest[n - 1].id
    decreases |rest|
  {
    var (a1, c1, more) := Feed(a, c, rest[0], maxQueue);
    FeedTakes(a, c, rest[0], maxQueue);
    if n == 0 {
      assert rest[..1] == [rest[0]];
    } else {
      ScanRestStops(a1, c1, rest[1..], maxQueue, n - 1);
      assert [rest[0]] + rest[1..][..n] == rest[..n + 1];
    }
  }

  /** A finished client takes nothing from a scan. */
  lemma {:induction false} ScanRestOfFinished(a: Sessions.Agent, c: Client, rest: seq<Trx>, maxQueue: nat)
    requires c.done && rest != []
    ensures ScanRest(a, c, rest, maxQueue) == (a, c)
  {
  }

  /** The scan run to its end is a sequence of ScanOne steps of the machine. */
  lemma {:induction false} ScanRestIsSteps(p: Peer, log: seq<Trx>, maxQueue: nat) returns (n: nat)
    requires p.scan.Scan?
    ensures var p' := ScanTimes(p, log, maxQueue, n);
            && p'.scan == NoScan
            && (p'.agent, p'.client) == ScanRest(p.agent, p.client, p.scan.rest, maxQueue)
    decreases |p.scan.rest|
  {
    var p1 := ScanNext(p, maxQueue);
    if p1.scan.Scan? {
      n := ScanRestIsSteps(p1, log, maxQueue);
      n := n + 1;
    } else {
      n := 1;
      assert ScanTimes(p1, log, maxQueue, 0) == p1;
    }
  }

  function ScanTimes(p: Peer, log: seq<Trx>, maxQueue: nat, n: nat): Peer
    decreases n
  {
    if n == 0 then p else ScanTimes(NextPeer(p, log, maxQueue, ScanOne), log, maxQueue, n - 1)
  }

  const UINT64_MAX: nat := 0xFFFF_FFFF_FFFF_FFFF

  /** PrimaryReplication: the agents, in the order of the agent map. */
  class PrimaryReplication {
    var lastTrxId: nat
    var minTrxId: nat
    var agents: seq<Agent>

    ghost predicate Valid()
      reads this, agents, set i | 0 <= i < |agents| :: agents[i].client
    {
      && (forall i, j :: 0 <= i < j < |agents| ==> agents[i] != agents[j] && agents[i].client != agents[j].client)
      && (forall i :: 0 <= i < |agents| ==> agents[i].lastConfirmed <= UINT64_MAX)
    }

    method OnTransaction(t: Trx)
      requires Valid()
      modifies this`lastTrxId, agents, set i | 0 <= i < |agents| :: agents[i].client
      ensures lastTrxId == if old(lastTrxId) < t.id then t.id else old(lastTrxId)
      ensures forall i :: 0 <= i < |agents| ==>
                (agents[i].View(), agents[i].client.View()) ==
                if old(lastTrxId) < t.id
                then Push(old(agents[i].View()), old(agents[i].client.View()), old(lastTrxId), t, agents[i].client.maxQueue)
                else (old(agents[i].View()), old(agents[i].client.View()))
    {
      var prev := lastTrxId;
      lastTrxId := t.id;
      if prev >= lastTrxId {
        lastTrxId := prev;
        return;
      }
      for n := 0 to |agents|
        invariant lastTrxId == t.id
        invariant forall i :: 0 <= i < n ==>
                    (agents[i].View(), agents[i].client.View()) ==
                    Push(old(agents[i].View()), old(agents[i].client.View()), prev, t, agents[i].client.maxQueue)
        invariant forall i :: n <= i < |agents| ==>
                    (agents[i].View(), agents[i].client.View()) == (old(agents[i].View()), old(agents[i].client.View()))
      {
        agents[n].OnTransaction(prev, t);
      }
    }

    /** Agent::onTrxId with the call of checkAgents: the agent records the confirmed id
     *  and posts a task, and the published id follows.
     */
    method OnTrxId(n: nat, id: nat) returns (raised: nat)
      requires Valid() && n < |agents| && id <= UINT64_MAX
      modifies this`minTrxId, agents[n]
      ensures Valid()
      ensures agents[n].View() == Sessions.OnTrxId(old(agents[n].View()), id)
      ensures old(minTrxId) <= minTrxId && raised == if minTrxId == old(minTrxId) then 0 else minTrxId
      ensures minTrxId > old(minTrxId) ==>
                && (forall i :: 0 <= i < |agents| && agents[i].mode == Streaming ==> minTrxId <= agents[i].lastConfirmed)
                && (exists i :: 0 <= i < |agents| && agents[i].mode == Streaming && agents[i].lastConfirmed == minTrxId)
    {
      agents[n].OnTrxId(id);
      raised := GetMinTrxIdForAllAgents();
    }

    /** Returns 0 when nothing was published. */
    method GetMinTrxIdForAllAgents() returns (raised: nat)
      requires Valid()
      modifies this`minTrxId
      ensures old(minTrxId) <= minTrxId
      ensures raised == if minTrxId == old(minTrxId) then 0 else minTrxId
      ensures minTrxId > old(minTrxId) ==>
                && (forall i :: 0 <= i < |agents| && agents[i].mode == Streaming ==> minTrxId <= agents[i].lastConfirmed)
                && (exists i :: 0 <= i < |agents| && agents[i].mode == Streaming && agents[i].lastConfirmed == minTrxId)
      ensures minTrxId == old(minTrxId) ==>
                (forall i :: 0 <= i < |agents| ==> agents[i].mode != Streaming || agents[i].lastConfirmed == UINT64_MAX) ||
                (exists i :: 0 <= i < |agents| && agents[i].mode == Streaming && agents[i].lastConfirmed <= minTrxId)
    {
      var lowest := UINT64_MAX;
      for n := 0 to |agents|
        invariant forall i :: 0 <= i < n && agents[i].mode == Streaming ==> lowest <= agents[i].lastConfirmed
        invariant lowest <= UINT64_MAX
        invariant lowest < UINT64_MAX ==>
                    exists i :: 0 <= i < n && agents[i].mode == Streaming && agents[i].lastConfirmed == lowest
      {
        if agents[n].mode == Streaming && agents[n].lastConfirmed < lowest {
          lowest := agents[n].lastConfirmed;
        }
      }
      if lowest == UINT64_MAX {
        return 0;
      }
      if lowest > minTrxId {
        minTrxId := lowest;
        return minTrxId;
      }
      return 0;
    }
  }

  /** The primary's database: the ENTRY and TRXLOG families, the id counter, and the
   *  transactions that have taken an id and are not committed yet.
   */
  class Database {
    var entries: Store
    var trxlog: seq<Trx>
    var trxId: nat
    var open: map<nat, seq<Part>>

    /** Transaction::handleTrxLog with the accumulated parts. No parts, no id. */
    method HandleTrxLog(parts: seq<Part>) returns (id: nat)
      modifies this`trxId, this`open
      ensures trxId == if parts == [] then old(trxId) else old(trxId) + 1
      ensures id == if parts == [] then 0 else trxId
      ensures open == if parts == [] then old(open) else old(open)[id := parts]
    {
      id := 0;
      if parts != [] {
        trxId := trxId + 1;
        id := trxId;
        open := open[id := parts];
      }
    }

    /** The commit itself: `ok` is the verdict of the storage engine. TRXLOG is ordered
     *  by id, so that a late one lands before the later ones.
     */
    method Commit(id: nat, ok: bool)
      requires id in open
      modifies this`entries, this`trxlog, this`open
      ensures open == old(open) - {id}
      ensures entries == if ok then ApplyParts(old(entries), old(open)[id]) else old(entries)
      ensures ok ==> IsApplied(old(entries), old(open)[id], entries)
      ensures trxlog == if ok then Insert(old(trxlog), Trx(id, old(open)[id])) else old(trxlog)
    {
      var parts := open[id];
      open := open - {id};
      if ok {
        var n := 0;
        while n < |parts|
          invariant 0 <= n <= |parts|
          invariant entries == ApplyParts(old(entries), parts[..n])
          invariant trxlog == old(trxlog) && open == old(open) - {id}
        {
          entries := match parts[n] { case Put(k, v) => entries[k := v] case Remove(k) => entries - {k} };
          n := n + 1;
          assert parts[..n][..n - 1] == parts[..n - 1];
        }
        assert parts[..n] == parts;
        ApplyPartsApplies(old(entries), parts);
        Land(Trx(id, parts));
      }
    }

    method Land(t: Trx)
      modifies this`trxlog
      ensures trxlog == Insert(old(trxlog), t)
    {
      var before, after := trxlog, [];
      while before != [] && t.id <= before[|before| - 1].id
        invariant Insert(before, t) + after == Insert(old(trxlog), t)
        decreases |before|
      {
        after := [before[|before| - 1]] + after;
        before := before[..|before| - 1];
      }
      trxlog := before + [t] + after;
    }
  }

  /** FollowerReplication::Agent with the database it writes to. */
  class FollowerAgent {
    var store: Store
    var trxlog: map<nat, Trx>
    var currentTrxId: nat

    /** The update handler: re-play the parts, log the transaction, commit. */
    method OnUpdate(t: Trx, ghost rx: nat)
      modifies this
      ensures Follower(store, trxlog, currentTrxId, None, rx + 1) ==
              ReceiveNext(Follower(old(store), old(trxlog), old(currentTrxId), None, rx), t)
                .(current := t.id, unset := None)
      ensures IsApplied(old(store), t.parts, store)
      ensures trxlog == old(trxlog)[t.id := t] && currentTrxId == t.id
    {
      var n := 0;
      while n < |t.parts|
        invariant 0 <= n <= |t.parts|
        invariant store == ApplyParts(old(store), t.parts[..n])
        invariant trxlog == old(trxlog)
      {
        match t.parts[n] {
          case Put(k, v) => store := store[k := v];
          case Remove(k) => store := store - {k};
        }
        n := n + 1;
        assert t.parts[..n][..n - 1] == t.parts[..n - 1];
      }
      assert t.parts[..n] == t.parts;
      ApplyPartsApplies(old(store), t.parts);
      trxlog := trxlog[t.id := t];
      currentTrxId := t.id;
    }
  }
}
