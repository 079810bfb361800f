/** What one replication session keeps at the primary: the gRPC stream's queue
 *  (src/lib/GrpcPrimary.cpp, SyncClient) and the agent that feeds it
 *  (src/lib/PrimaryReplication.cpp, Agent). Each function is one section that
 *  the source runs under a mutex.
 */
module Sessions {
  import opened Options
  import opened Transactions

  /** State of a SyncClient. `accepted` and `written` are history: every update
   *  pushed on the queue, and every update whose write has completed.
   */
  datatype Client = Client(
    done: bool,
    hasWritten: bool,
    current: Option<Trx>,
    pending: seq<Trx>,
    accepted: seq<Trx>,
    written: seq<Trx>)

  const NEW_CLIENT := Client(false, true, None, [], [], [])

  function InFlight(c: Client): seq<Trx> {
    if c.current.Some? then [c.current.value] else []
  }

  /** Everything handed to the transport so far. */
  function Sent(c: Client): seq<Trx> {
    c.written + InFlight(c)
  }

  /** Nothing is lost, duplicated or reordered by the queue; a write is in flight
   *  whenever something is queued; and the last write will report an empty queue.
   */
  ghost predicate ClientInv(c: Client) {
    && c.accepted == c.written + InFlight(c) + c.pending
    && (c.current.None? ==> c.pending == [])
    && (c.current.Some? ==> c.hasWritten || c.pending != [])
  }

  /** SyncClient::flush. The flag tells whether onQueueIsEmpty is called. */
  function Flush(c: Client): (Client, bool) {
    if c.current.None? && c.pending != [] then
      (c.(hasWritten := true, current := Some(c.pending[0]), pending := c.pending[1..]), false)
    else if c.hasWritten then (c.(hasWritten := false), true)
    else (c, false)
  }

  /** Updates that wait behind the one that is being written; -1 when none is. */
  function Backlog(c: Client): int {
    if c.current.Some? then |c.pending| else -1
  }

  datatype Enqueued = Enqueued(client: Client, ok: bool, notify: bool)

  /** SyncClient::enqueue: the update is pushed before the limit is checked. */
  function Enqueue(c: Client, t: Trx, maxQueue: nat): Enqueued {
    if c.done then Enqueued(c, false, false)
    else
      var (c', notify) := Flush(c.(pending := c.pending + [t], accepted := c.accepted + [t]));
      Enqueued(c', |c'.pending| <= maxQueue, notify)
  }

  /** SyncClient::OnWriteDone. */
  function WriteDone(c: Client): (Client, bool)
    requires c.current.Some?
  {
    Flush(c.(current := None, written := c.written + [c.current.value]))
  }

  lemma {:induction false} EnqueueInv(c: Client, t: Trx, maxQueue: nat)
    requires ClientInv(c)
    ensures var r := Enqueue(c, t, maxQueue);
            && ClientInv(r.client)
            && r.client.done == c.done
            && r.client.accepted == (if c.done then c.accepted else c.accepted + [t])
            && Sent(c) <= Sent(r.client)
            && (!c.done ==> r.client.current.Some?)
            && (c.done ==> !r.ok)
  {
    if !c.done {
      var pushed := c.(pending := c.pending + [t], accepted := c.accepted + [t]);
      assert pushed.accepted == pushed.written + InFlight(pushed) + pushed.pending;
      assert pushed.current.None? ==> pushed.pending == [pushed.pending[0]] + pushed.pending[1..];
      var r := Enqueue(c, t, maxQueue);
      assert r.client.accepted == r.client.written + InFlight(r.client) + r.client.pending;
    }
  }

  /** When the queue runs dry the agent is told. */
  lemma {:induction false} WriteDoneInv(c: Client)
    requires ClientInv(c) && c.current.Some?
    ensures var (c', notify) := WriteDone(c);
            && ClientInv(c')
            && c'.done == c.done
            && c'.accepted == c.accepted
            && Sent(c) <= Sent(c')
            && (c'.current.None? ==> notify)
  {
    var idle := c.(current := None, written := c.written + [c.current.value]);
    assert idle.accepted == idle.written + idle.pending;
    var (c', notify) := WriteDone(c);
    assert c.pending != [] ==> idle.pending == [idle.pending[0]] + idle.pending[1..];
    assert c'.accepted == c'.written + InFlight(c') + c'.pending;
    assert Sent(c) == idle.written;
  }

  datatype Mode = IteratingDb | Streaming | Done

  /** State of an Agent: `posts` counts the strand tasks posted by syncLater and
   *  not yet run.
   */
  datatype Agent = Agent(mode: Mode, enqueued: nat, confirmed: nat, posts: nat)

  const NEW_AGENT := Agent(IteratingDb, 0, 0, 0)

  function Posted(a: Agent, notify: bool): Agent {
    if notify then a.(posts := a.posts + 1) else a
  }

  /** Agent::setState: a finished agent rejects every change. */
  function SetState(a: Agent, mode: Mode): Agent {
    if a.mode == Done then a else a.(mode := mode)
  }

  /** Agent::onTrxId. */
  function OnTrxId(a: Agent, id: nat): Agent {
    Posted(a.(confirmed := id), true)
  }

  /** Agent::onTransaction: push a freshly committed transaction to a streaming
   *  client, or fall back to reading the log.
   */
  function Push(a: Agent, c: Client, prev: nat, t: Trx, maxQueue: nat): (Agent, Client) {
    if a.mode != Streaming then (a, c)
    else if prev == a.enqueued then
      var r := Enqueue(c, t, maxQueue);
      (Posted((if r.ok then a else SetState(a, IteratingDb)).(enqueued := t.id), r.notify), r.client)
    else (Posted(SetState(a, IteratingDb), true), c)
  }

  /** One callback of the log scan in Agent::iterateDb. The flag tells whether
   *  the scan goes on.
   */
  function Feed(a: Agent, c: Client, t: Trx, maxQueue: nat): (Agent, Client, bool) {
    var r := Enqueue(c, t, maxQueue);
    (Posted(if r.ok then a.(enqueued := t.id) else a, r.notify), r.client, r.ok)
  }

  /** Index of the first logged transaction after `id`. */
  function FirstAfter(log: seq<Trx>, id: nat): (r: nat)
    ensures r <= |log|
  {
    if log == [] then 0
    else if log[|log| - 1].id <= id then |log|
    else FirstAfter(log[..|log| - 1], id)
  }

  lemma {:induction false} FirstAfterIdAt(log: seq<Trx>, k: nat)
    requires Ascending(log) && k <= |log|
    ensures FirstAfter(log, IdAt(log, k)) == k
  {
    if k == |log| {
    } else {
      assert log[..|log| - 1][..k] == log[..k];
      FirstAfterIdAt(log[..|log| - 1], k);
      assert IdAt(log[..|log| - 1], k) == IdAt(log, k);
      IdAtOrder(log, k, |log|);
    }
  }
}
