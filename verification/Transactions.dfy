/** Replicated transactions and the store they act on.
 *
 *  A transaction is the list of ENTRY writes and removals that one commit
 *  performed (src/lib/RocksDbResource.cpp, write, remove, addDeletedToTrxlog).
 *  A follower re-plays the same list (src/lib/FollowerReplication.cpp, onTrx).
 */
module Transactions {

  import opened Options

  type Store = map<string, string>

  /** One part of a logged transaction: a part without a value is a removal. */
  datatype Part = Put(key: string, value: string) | Remove(key: string)

  datatype Trx = Trx(id: nat, parts: seq<Part>)

  function Get(s: Store, k: string): Option<string> {
    if k in s then Some(s[k]) else None
  }

  function ApplyPart(s: Store, p: Part): Store {
    match p
    case Put(k, v) => s[k := v]
    case Remove(k) => s - {k}
  }

  function ApplyParts(s: Store, ps: seq<Part>): Store {
    if ps == [] then s else ApplyPart(ApplyParts(s, ps[..|ps| - 1]), ps[|ps| - 1])
  }

  function Replay(s: Store, ts: seq<Trx>): Store {
    if ts == [] then s else ApplyParts(Replay(s, ts[..|ts| - 1]), ts[|ts| - 1].parts)
  }

  /** The last part that names `k`: the reference meaning of a list of parts. */
  function LastPart(ps: seq<Part>, k: string): Option<Part> {
    if ps == [] then None
    else if ps[|ps| - 1].key == k then Some(ps[|ps| - 1])
    else LastPart(ps[..|ps| - 1], k)
  }

  function Effect(p: Option<Part>, before: Option<string>): Option<string> {
    match p
    case None => before
    case Some(Put(_, v)) => Some(v)
    case Some(Remove(_)) => None
  }

  /** The last part naming `k` in a whole log. */
  function LastInLog(ts: seq<Trx>, k: string): Option<Part> {
    if ts == [] then None
    else
      var p := LastPart(ts[|ts| - 1].parts, k);
      if p.Some? then p else LastInLog(ts[..|ts| - 1], k)
  }

  /** Applying parts in order gives every key exactly what its last part says. */
  lemma {:induction false} ApplyPartsLastWins(s: Store, ps: seq<Part>, k: string)
    ensures Get(ApplyParts(s, ps), k) == Effect(LastPart(ps, k), Get(s, k))
  {
    if ps == [] {
    } else {
      ApplyPartsLastWins(s, ps[..|ps| - 1], k);
    }
  }

  /** The part that decides about its key: none after it names that key. */
  ghost predicate Decides(ps: seq<Part>, i: nat) {
    i < |ps| && forall j :: i < j < |ps| ==> ps[j].key != ps[i].key
  }

  /** The store after some parts, key by key. */
  ghost predicate IsApplied(s: Store, ps: seq<Part>, s': Store) {
    && (forall i: nat :: Decides(ps, i) ==>
          match ps[i]
          case Put(k, v) => k in s' && s'[k] == v
          case Remove(k) => k !in s')
    && (forall k :: (forall i :: 0 <= i < |ps| ==> ps[i].key != k) ==> Get(s', k) == Get(s, k))
  }

  /** Every key has what the part that decides about it says; all others are as before. */
  lemma {:induction false} ApplyPartsApplies(s: Store, ps: seq<Part>)
    ensures IsApplied(s, ps, ApplyParts(s, ps))
  {
    var s' := ApplyParts(s, ps);
    forall i: nat | Decides(ps, i)
      ensures match ps[i] case Put(k, v) => k in s' && s'[k] == v case Remove(k) => k !in s'
    {
      PartDecides(s, ps, i);
    }
    forall k | forall i :: 0 <= i < |ps| ==> ps[i].key != k ensures Get(s', k) == Get(s, k) {
      UnnamedStays(s, ps, k);
    }
  }

  lemma {:induction false} PartDecides(s: Store, ps: seq<Part>, i: nat)
    requires Decides(ps, i)
    ensures var s' := ApplyParts(s, ps);
            match ps[i] case Put(k, v) => k in s' && s'[k] == v case Remove(k) => k !in s'
    decreases |ps|
  {
    var n := |ps| - 1;
    if i == n {
    } else {
      assert ps[..n][i] == ps[i];
      PartDecides(s, ps[..n], i);
    }
  }

  lemma {:induction false} UnnamedStays(s: Store, ps: seq<Part>, k: string)
    requires forall i :: 0 <= i < |ps| ==> ps[i].key != k
    ensures Get(ApplyParts(s, ps), k) == Get(s, k)
  {
    if ps == [] {
    } else {
      UnnamedStays(s, ps[..|ps| - 1], k);
    }
  }

  lemma {:induction false} ReplayLastWins(s: Store, ts: seq<Trx>, k: string)
    ensures Get(Replay(s, ts), k) == Effect(LastInLog(ts, k), Get(s, k))
  {
    if ts == [] {
    } else {
      ReplayLastWins(s, ts[..|ts| - 1], k);
      ApplyPartsLastWins(Replay(s, ts[..|ts| - 1]), ts[|ts| - 1].parts, k);
    }
  }

  lemma {:induction false} SameLookups(a: Store, b: Store)
    requires forall k :: Get(a, k) == Get(b, k)
    ensures a == b
  {
    forall k ensures k in a <==> k in b {
      assert Get(a, k) == Get(b, k);
    }
    forall k | k in a ensures a[k] == b[k] {
      assert Get(a, k) == Get(b, k);
    }
  }

  /** Two starting stores that agree on every key the log does not name end equal. */
  lemma {:induction false} ReplayForgets(a: Store, b: Store, ts: seq<Trx>)
    requires forall k :: LastInLog(ts, k).None? ==> Get(a, k) == Get(b, k)
    ensures Replay(a, ts) == Replay(b, ts)
  {
    forall k ensures Get(Replay(a, ts), k) == Get(Replay(b, ts), k) {
      ReplayLastWins(a, ts, k);
      ReplayLastWins(b, ts, k);
    }
    SameLookups(Replay(a, ts), Replay(b, ts));
  }

  lemma {:induction false} NamedInLongerLog(ts: seq<Trx>, m: nat, n: nat, k: string)
    requires m <= n <= |ts|
    requires LastInLog(ts[..m], k).Some?
    ensures LastInLog(ts[..n], k).Some?
    decreases n
  {
    if m == n {
    } else {
      assert ts[..n][..n - 1] == ts[..n - 1];
      NamedInLongerLog(ts, m, n - 1, k);
    }
  }

  /** Reconnect convergence: replaying prefix n over a store that already holds
   *  prefix m <= n ends in exactly the state of prefix n.
   */
  lemma {:induction false} ReplayConverges(ts: seq<Trx>, m: nat, n: nat)
    requires m <= n <= |ts|
    ensures Replay(Replay(map[], ts[..m]), ts[..n]) == Replay(map[], ts[..n])
  {
    var held := Replay(map[], ts[..m]);
    forall k | LastInLog(ts[..n], k).None? ensures Get(held, k) == Get(map[], k) {
      ReplayLastWins(map[], ts[..m], k);
      if LastInLog(ts[..m], k).Some? {
        NamedInLongerLog(ts, m, n, k);
      }
    }
    ReplayForgets(held, map[], ts[..n]);
  }

  /** Drop every element equal to the one just before it. */
  function Collapse<T(==)>(s: seq<T>): (r: seq<T>)
    ensures |r| <= |s|
    ensures s != [] ==> r != [] && r[|r| - 1] == s[|s| - 1]
  {
    if |s| <= 1 then s
    else
      var front := Collapse(s[..|s| - 1]);
      if s[|s| - 1] == s[|s| - 2] then front else front + [s[|s| - 1]]
  }

  lemma {:induction false} CollapseAppend<T>(s: seq<T>, x: T)
    ensures Collapse(s + [x]) == if s != [] && s[|s| - 1] == x then Collapse(s) else Collapse(s) + [x]
  {
    assert (s + [x])[..|s|] == s;
  }

  /** Collapsing a prefix gives a prefix of the collapsed sequence. */
  lemma {:induction false} CollapsePrefix<T>(s: seq<T>, n: nat)
    requires n <= |s|
    ensures |Collapse(s[..n])| <= |Collapse(s)|
    ensures Collapse(s[..n]) == Collapse(s)[..|Collapse(s[..n])|]
  {
    if n == |s| {
      assert s[..n] == s;
    } else {
      CollapsePrefix(s[..|s| - 1], n);
      assert s[..|s| - 1][..n] == s[..n];
      CollapseAppend(s[..|s| - 1], s[|s| - 1]);
      assert s[..|s| - 1] + [s[|s| - 1]] == s;
    }
  }

  /** One more element collapses into the last one, or is a new last one. */
  lemma {:induction false} CollapseNext<T>(s: seq<T>, n: nat)
    requires n < |s|
    ensures var c, c' := Collapse(s[..n]), Collapse(s[..n + 1]);
            c' != [] && (|c'| == |c| || |c'| == |c| + 1) && c'[|c'| - 1] == s[n]
  {
    assert s[..n + 1] == s[..n] + [s[n]];
    CollapseAppend(s[..n], s[n]);
  }

  /** The TRXLOG family: transaction id to transaction. */
  function LogMap(ts: seq<Trx>): map<nat, Trx> {
    if ts == [] then map[] else LogMap(ts[..|ts| - 1])[ts[|ts| - 1].id := ts[|ts| - 1]]
  }

  ghost predicate Ascending(ts: seq<Trx>) {
    && (forall i :: 0 <= i < |ts| ==> 0 < ts[i].id)
    && (forall i, j :: 0 <= i < j < |ts| ==> ts[i].id < ts[j].id)
  }

  /** Id of the last of the first k transactions; 0 stands for "none yet". */
  function IdAt(ts: seq<Trx>, k: nat): nat
    requires k <= |ts|
  {
    if k == 0 then 0 else ts[k - 1].id
  }

  lemma {:induction false} IdAtOrder(ts: seq<Trx>, i: nat, j: nat)
    requires Ascending(ts) && i <= |ts| && j <= |ts|
    ensures i < j ==> IdAt(ts, i) < IdAt(ts, j)
    ensures i <= j <==> IdAt(ts, i) <= IdAt(ts, j)
    ensures i == j <==> IdAt(ts, i) == IdAt(ts, j)
  {
  }

  lemma {:induction false} LogMapHolds(ts: seq<Trx>, id: nat)
    requires Ascending(ts)
    ensures id in LogMap(ts) <==> exists i :: 0 <= i < |ts| && ts[i].id == id
    ensures forall i :: 0 <= i < |ts| && ts[i].id == id ==> LogMap(ts)[id] == ts[i]
  {
    if ts == [] {
    } else {
      LogMapHolds(ts[..|ts| - 1], id);
      if id in LogMap(ts[..|ts| - 1]) {
        var i :| 0 <= i < |ts| - 1 && ts[..|ts| - 1][i].id == id;
        assert ts[i].id == id;
      }
      assert forall i :: 0 <= i < |ts| - 1 ==> ts[..|ts| - 1][i] == ts[i];
    }
  }

  lemma {:induction false} LastInLogAppend(ts: seq<Trx>, t: Trx, k: string)
    ensures LastInLog(ts + [t], k) == (if LastPart(t.parts, k).Some? then LastPart(t.parts, k) else LastInLog(ts, k))
  {
    assert (ts + [t])[..|ts|] == ts;
  }

  // ---------------------------------------------------- landing out of order

  /** The keys that a list of parts names. */
  function Named(ps: seq<Part>): set<string> {
    set i | 0 <= i < |ps| :: ps[i].key
  }

  lemma {:induction false} LastPartNamed(ps: seq<Part>, k: string)
    ensures LastPart(ps, k).Some? <==> k in Named(ps)
  {
    if ps == [] {
    } else {
      var front, last := ps[..|ps| - 1], ps[|ps| - 1];
      LastPartNamed(front, k);
      assert forall i :: 0 <= i < |front| ==> front[i] == ps[i];
      assert last.key in Named(ps);
      if k in Named(ps) && k != last.key {
        var i :| 0 <= i < |ps| && ps[i].key == k;
        assert front[i].key == k;
      }
      if k in Named(front) {
        var i :| 0 <= i < |front| && front[i].key == k;
        assert ps[i].key == k;
      }
    }
  }

  /** Two transactions that no key makes wait for each other. */
  predicate Apart(a: seq<Part>, b: seq<Part>) {
    Named(a) !! Named(b)
  }

  /** The log with t in the place of its id. */
  function Insert(ts: seq<Trx>, t: Trx): (r: seq<Trx>)
    ensures |r| == |ts| + 1
    ensures forall u :: u in r <==> u in ts || u == t
  {
    if ts == [] || ts[|ts| - 1].id < t.id then ts + [t]
    else
      assert ts == ts[..|ts| - 1] + [ts[|ts| - 1]];
      Insert(ts[..|ts| - 1], t) + [ts[|ts| - 1]]
  }

  lemma {:induction false} InsertAscending(ts: seq<Trx>, t: Trx)
    requires Ascending(ts) && 0 < t.id && forall u :: u in ts ==> u.id != t.id
    ensures Ascending(Insert(ts, t))
  {
    if ts == [] || ts[|ts| - 1].id < t.id {
    } else {
      var front, last := ts[..|ts| - 1], ts[|ts| - 1];
      InsertAscending(front, t);
      var r := Insert(front, t);
      forall i | 0 <= i < |r| ensures 0 < r[i].id < last.id {
        assert r[i] in r;
        if r[i] in front {
          var j :| 0 <= j < |front| && front[j] == r[i];
          assert ts[j].id < ts[|ts| - 1].id;
        } else {
          assert last in ts;
        }
      }
    }
  }

  lemma {:induction false} InsertLast(ts: seq<Trx>, t: Trx)
    requires forall u :: u in ts ==> u.id < t.id
    ensures Insert(ts, t) == ts + [t]
  {
    if ts == [] {
    } else {
      assert ts[|ts| - 1] in ts;
    }
  }

  /** A late transaction that shares no key with the later ones is the last to name
   *  each of its keys, wherever it stands in the log.
   */
  lemma {:induction false} InsertNames(ts: seq<Trx>, t: Trx, k: string)
    requires forall u :: u in ts && t.id < u.id ==> Apart(u.parts, t.parts)
    requires forall u :: u in ts ==> u.id != t.id
    ensures LastInLog(Insert(ts, t), k) ==
            if LastPart(t.parts, k).Some? then LastPart(t.parts, k) else LastInLog(ts, k)
  {
    if ts == [] || ts[|ts| - 1].id < t.id {
      LastInLogAppend(ts, t, k);
    } else {
      var front, last := ts[..|ts| - 1], ts[|ts| - 1];
      assert last in ts;
      InsertNames(front, t, k);
      LastInLogAppend(Insert(front, t), last, k);
      LastPartNamed(last.parts, k);
      LastPartNamed(t.parts, k);
    }
  }

  /** Landing late has the effect of landing in the order of the ids. */
  lemma {:induction false} InsertReplay(ts: seq<Trx>, t: Trx)
    requires forall u :: u in ts && t.id < u.id ==> Apart(u.parts, t.parts)
    requires forall u :: u in ts ==> u.id != t.id
    ensures Replay(map[], Insert(ts, t)) == ApplyParts(Replay(map[], ts), t.parts)
  {
    var now, then_ := Replay(map[], Insert(ts, t)), ApplyParts(Replay(map[], ts), t.parts);
    forall k ensures Get(now, k) == Get(then_, k) {
      InsertNames(ts, t, k);
      ReplayLastWins(map[], Insert(ts, t), k);
      ReplayLastWins(map[], ts, k);
      ApplyPartsLastWins(Replay(map[], ts), t.parts, k);
    }
    SameLookups(now, then_);
  }

  /** Writing a log entry that is already there changes nothing. */
  lemma {:induction false} LogMapRewrite(ts: seq<Trx>, i: nat)
    requires Ascending(ts) && i < |ts|
    ensures LogMap(ts)[ts[i].id := ts[i]] == LogMap(ts)
  {
    LogMapHolds(ts, ts[i].id);
  }
}
