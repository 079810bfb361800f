/** The session cache (src/lib/AuthMgr.h, detail::Lru): a map from keys to items and a
 *  list of the same items, the most recently used first.
 */
module Caches {
  import opened Options

  /** The cache as keys and values, the most recently used first. */
  type Contents<K, V> = seq<(K, V)>

  ghost predicate Distinct<K, V>(s: Contents<K, V>) {
    forall i, j :: 0 <= i < j < |s| ==> s[i].0 != s[j].0
  }

  /** Where a key is; |s| when it is not there. */
  function Find<K(==), V>(s: Contents<K, V>, k: K): (i: nat)
    ensures i <= |s|
    ensures forall j :: 0 <= j < i ==> s[j].0 != k
    ensures i < |s| ==> s[i].0 == k
  {
    if s == [] || s[0].0 == k then 0 else 1 + Find(s[1..], k)
  }

  predicate Has<K(==), V>(s: Contents<K, V>, k: K) {
    Find(s, k) < |s|
  }

  function Without<K(==), V>(s: Contents<K, V>, k: K): (r: Contents<K, V>)
    ensures |r| == if Has(s, k) then |s| - 1 else |s|
  {
    if Has(s, k) then s[..Find(s, k)] + s[Find(s, k) + 1..] else s
  }

  // -------------------------------------------------- the abstract cache

  datatype Op<K, V> = Emplace(key: K, value: V) | Get(key: K) | Erase(key: K) | Clear

  function Read<K(==), V>(s: Contents<K, V>, k: K): Option<V> {
    if Has(s, k) then Some(s[Find(s, k)].1) else None
  }

  function Shortened<K, V>(s: Contents<K, V>, capacity: nat): Contents<K, V> {
    if |s| > capacity then s[..|s| - 1] else s
  }

  function Apply<K(==), V>(s: Contents<K, V>, capacity: nat, op: Op<K, V>): Contents<K, V> {
    match op
    case Emplace(k, v) => Shortened([(k, v)] + s, capacity)
    case Get(k) => if Has(s, k) then [s[Find(s, k)]] + Without(s, k) else s
    case Erase(k) => Without(s, k)
    case Clear => []
  }

  function Run<K(==), V>(capacity: nat, ops: seq<Op<K, V>>): Contents<K, V> {
    if ops == [] then [] else Apply(Run(capacity, ops[..|ops| - 1]), capacity, ops[|ops| - 1])
  }

  predicate Legal<K(==), V>(s: Contents<K, V>, op: Op<K, V>) {
    op.Emplace? ==> !Has(s, op.key)
  }

  /** Every emplace of the run has a key that is not in the cache. */
  predicate LegalRun<K(==), V>(capacity: nat, ops: seq<Op<K, V>>) {
    ops != [] ==>
      LegalRun(capacity, ops[..|ops| - 1]) && Legal(Run(capacity, ops[..|ops| - 1]), ops[|ops| - 1])
  }

  // ------------------------------------------------------ what was used

  predicate Uses<K(==), V>(op: Op<K, V>, k: K) {
    (op.Emplace? || op.Get?) && op.key == k
  }

  /** One more than the place of the last emplace or get of a key; 0 for none. */
  function LastUse<K(==), V>(ops: seq<Op<K, V>>, k: K): nat {
    if ops == [] then 0
    else if Uses(ops[|ops| - 1], k) then |ops|
    else LastUse(ops[..|ops| - 1], k)
  }

  /** The value last stored for a key, unless the key was erased or all were cleared. */
  function LastValue<K(==), V>(ops: seq<Op<K, V>>, k: K): Option<V> {
    if ops == [] then None
    else
      match ops[|ops| - 1]
      case Emplace(x, v) => if x == k then Some(v) else LastValue(ops[..|ops| - 1], k)
      case Get(_) => LastValue(ops[..|ops| - 1], k)
      case Erase(x) => if x == k then None else LastValue(ops[..|ops| - 1], k)
      case Clear => None
  }

  /** The n-th operation stores v for k, and none after it erases k, clears, or stores again. */
  ghost predicate StoredAt<K, V>(ops: seq<Op<K, V>>, k: K, v: V, n: nat) {
    && n < |ops| && ops[n] == Emplace(k, v)
    && forall i :: n < i < |ops| ==> ops[i] != Clear && ops[i] != Erase(k) && !(ops[i].Emplace? && ops[i].key == k)
  }

  lemma {:induction false} LastValueIff<K, V>(ops: seq<Op<K, V>>, k: K, v: V)
    ensures LastValue(ops, k) == Some(v) <==> exists n: nat :: StoredAt(ops, k, v, n)
  {
    if ops == [] {
    } else {
      var front, op := ops[..|ops| - 1], ops[|ops| - 1];
      LastValueIff(front, k, v);
      if n: nat :| StoredAt(front, k, v, n) && op != Clear && op != Erase(k) && !(op.Emplace? && op.key == k) {
        assert StoredAt(ops, k, v, n);
      }
      if op == Emplace(k, v) {
        assert StoredAt(ops, k, v, |front|);
      }
      if n: nat :| StoredAt(ops, k, v, n) && n < |front| {
        assert forall i :: n < i < |front| ==> front[i] == ops[i];
        assert StoredAt(front, k, v, n);
      }
    }
  }

  lemma {:induction false} LastUseIsPast<K, V>(ops: seq<Op<K, V>>, k: K)
    ensures LastUse(ops, k) <= |ops|
  {
    if ops == [] {
    } else {
      LastUseIsPast(ops[..|ops| - 1], k);
    }
  }

  /** The contents follow from the history of uses. */
  ghost predicate Explained<K, V>(s: Contents<K, V>, ops: seq<Op<K, V>>) {
    && (forall i :: 0 <= i < |s| ==> LastValue(ops, s[i].0) == Some(s[i].1))
    && (forall i, j :: 0 <= i < j < |s| ==> LastUse(ops, s[i].0) > LastUse(ops, s[j].0))
  }

  lemma {:induction false} WithoutAt<K, V>(s: Contents<K, V>, k: K, i: nat)
    requires i < |Without(s, k)|
    ensures Without(s, k)[i] == (if i < Find(s, k) then s[i] else s[i + 1])
  {
  }

  /** Leaving entries out keeps the others explained. */
  lemma {:induction false} PartKeeps<K, V>(s: Contents<K, V>, r: Contents<K, V>, at: seq<nat>, ops: seq<Op<K, V>>)
    requires Distinct(s) && Explained(s, ops) && |at| == |r|
    requires forall i :: 0 <= i < |r| ==> at[i] < |s| && r[i] == s[at[i]]
    requires forall i, j :: 0 <= i < j < |at| ==> at[i] < at[j]
    ensures Distinct(r) && Explained(r, ops)
  {
  }

  lemma {:induction false} WithoutKeeps<K, V>(s: Contents<K, V>, k: K, ops: seq<Op<K, V>>)
    requires Distinct(s) && Explained(s, ops)
    ensures Distinct(Without(s, k)) && Explained(Without(s, k), ops)
    ensures forall i :: 0 <= i < |Without(s, k)| ==> Without(s, k)[i].0 != k
  {
    var r := Without(s, k);
    var at := seq(|r|, i requires 0 <= i < |r| => if i < Find(s, k) then i else i + 1);
    forall i | 0 <= i < |r| ensures at[i] < |s| && r[i] == s[at[i]] && r[i].0 != k {
      WithoutAt(s, k, i);
    }
    PartKeeps(s, r, at, ops);
  }

  lemma {:induction false} OtherKey<K, V>(ops: seq<Op<K, V>>, op: Op<K, V>, x: K)
    requires !op.Clear? && op.key != x
    ensures LastUse(ops + [op], x) == LastUse(ops, x) && LastValue(ops + [op], x) == LastValue(ops, x)
  {
    assert (ops + [op])[..|ops|] == ops;
  }

  /** An operation on a key says nothing about the others. */
  lemma {:induction false} StillExplained<K, V>(s: Contents<K, V>, ops: seq<Op<K, V>>, op: Op<K, V>)
    requires Explained(s, ops) && !op.Clear?
    requires forall i :: 0 <= i < |s| ==> s[i].0 != op.key
    ensures Explained(s, ops + [op])
  {
    forall i | 0 <= i < |s|
      ensures LastUse(ops + [op], s[i].0) == LastUse(ops, s[i].0)
      ensures LastValue(ops + [op], s[i].0) == LastValue(ops, s[i].0)
    {
      OtherKey(ops, op, s[i].0);
    }
  }

  lemma {:induction false} OthersExplained<K, V>(s: Contents<K, V>, ops: seq<Op<K, V>>, op: Op<K, V>, k: K)
    requires Distinct(s) && Explained(s, ops) && !op.Clear? && op.key == k
    ensures Distinct(Without(s, k)) && Explained(Without(s, k), ops + [op])
    ensures forall i :: 0 <= i < |Without(s, k)| ==> Without(s, k)[i].0 != k
  {
    WithoutKeeps(s, k, ops);
    StillExplained(Without(s, k), ops, op);
  }

  /** The key that was used moves to the front. */
  lemma {:induction false} FrontExplained<K, V>(s: Contents<K, V>, ops: seq<Op<K, V>>, op: Op<K, V>, v: V)
    requires Distinct(s) && Explained(s, ops) && (op.Emplace? || op.Get?)
    requires LastValue(ops + [op], op.key) == Some(v)
    ensures var r := [(op.key, v)] + Without(s, op.key);
            Distinct(r) && Explained(r, ops + [op])
  {
    var rest, ops' := Without(s, op.key), ops + [op];
    OthersExplained(s, ops, op, op.key);
    assert ops'[..|ops|] == ops;
    forall i | 0 <= i < |rest| ensures LastUse(ops', rest[i].0) < LastUse(ops', op.key) {
      LastUseIsPast(ops, rest[i].0);
    }
  }

  lemma {:induction false} ShortenedExplained<K, V>(s: Contents<K, V>, ops: seq<Op<K, V>>, capacity: nat)
    requires Distinct(s) && Explained(s, ops) && |s| <= capacity + 1
    ensures Distinct(Shortened(s, capacity)) && Explained(Shortened(s, capacity), ops)
    ensures |Shortened(s, capacity)| <= capacity
  {
  }

  lemma {:induction false} ApplyExplained<K, V>(s: Contents<K, V>, capacity: nat, ops: seq<Op<K, V>>, op: Op<K, V>)
    requires Distinct(s) && Explained(s, ops) && |s| <= capacity && Legal(s, op)
    ensures var s' := Apply(s, capacity, op);
            Distinct(s') && Explained(s', ops + [op]) && |s'| <= capacity
  {
    assert (ops + [op])[..|ops|] == ops;
    match op
    case Emplace(k, v) =>
      FrontExplained(s, ops, op, v);
      ShortenedExplained([(k, v)] + s, ops + [op], capacity);
    case Get(k) =>
      OthersExplained(s, ops, op, k);
      if Has(s, k) { FrontExplained(s, ops, op, s[Find(s, k)].1); }
    case Erase(k) =>
      OthersExplained(s, ops, op, k);
    case Clear =>
  }

  /** After every run the cache holds distinct keys, no more than its capacity, each
   *  with the value last stored for it, in the order of their last use. So a lookup
   *  returns the last stored value, and what an emplace evicts, the end of the list,
   *  is the key whose last use is the oldest.
   */
  lemma {:induction false} RunExplained<K, V>(capacity: nat, ops: seq<Op<K, V>>)
    requires LegalRun(capacity, ops)
    ensures var s := Run(capacity, ops);
            Distinct(s) && Explained(s, ops) && |s| <= capacity
  {
    if ops == [] {
    } else {
      var front := ops[..|ops| - 1];
      RunExplained(capacity, front);
      ApplyExplained(Run(capacity, front), capacity, front, ops[|ops| - 1]);
      assert ops == front + [ops[|ops| - 1]];
    }
  }

  /** After every run, a key that is there was stored after the last clear and after the
   *  last time it was erased, with the value that is there.
   */
  lemma {:induction false} PresentIsStored<K, V>(capacity: nat, ops: seq<Op<K, V>>, i: nat)
    requires LegalRun(capacity, ops) && i < |Run(capacity, ops)|
    ensures exists n: nat :: StoredAt(ops, Run(capacity, ops)[i].0, Run(capacity, ops)[i].1, n)
  {
    RunExplained(capacity, ops);
    LastValueIff(ops, Run(capacity, ops)[i].0, Run(capacity, ops)[i].1);
  }

  function KeysIn<K, V>(s: Contents<K, V>): set<K> {
    set i | 0 <= i < |s| :: s[i].0
  }

  lemma {:induction false} KeysWithout<K, V>(s: Contents<K, V>, k: K)
    requires Distinct(s)
    ensures KeysIn(Without(s, k)) == KeysIn(s) - {k}
  {
    var r, at := Without(s, k), Find(s, k);
    forall x ensures x in KeysIn(r) <==> x in KeysIn(s) && x != k {
      if x in KeysIn(r) {
        var i :| 0 <= i < |r| && r[i].0 == x;
        WithoutAt(s, k, i);
        assert x == s[if i < at then i else i + 1].0;
      }
      if x in KeysIn(s) && x != k {
        var i :| 0 <= i < |s| && s[i].0 == x;
        WithoutAt(s, k, if i < at then i else i - 1);
        assert r[if i < at then i else i - 1].0 == x;
      }
    }
  }

  /** Exactly which keys every operation leaves. A full cache evicts the least recently
   *  used key, which is the last one of the list.
   */
  lemma {:induction false} KeysAfter<K, V>(s: Contents<K, V>, capacity: nat, op: Op<K, V>)
    requires Distinct(s) && |s| <= capacity && Legal(s, op)
    ensures var keys := KeysIn(Apply(s, capacity, op));
            match op
            case Emplace(k, _) =>
              keys == if |s| < capacity then KeysIn(s) + {k}
                      else if s == [] then {}
                      else KeysIn(s) + {k} - {s[|s| - 1].0}
            case Get(_) => keys == KeysIn(s)
            case Erase(k) => keys == KeysIn(s) - {k}
            case Clear => keys == {}
  {
    match op
    case Emplace(k, v) => EmplacedKeys(s, capacity, k, v);
    case Get(k) =>
      KeysWithout(s, k);
      if Has(s, k) {
        KeysCons(Without(s, k), s[Find(s, k)]);
        assert k in KeysIn(s);
      }
    case Erase(k) => KeysWithout(s, k);
    case Clear =>
  }

  lemma {:induction false} KeysCons<K, V>(s: Contents<K, V>, p: (K, V))
    ensures KeysIn([p] + s) == KeysIn(s) + {p.0}
  {
    var r := [p] + s;
    assert r[0].0 in KeysIn(r);
    forall x | x in KeysIn(s) ensures x in KeysIn(r) {
      var i :| 0 <= i < |s| && s[i].0 == x;
      assert r[i + 1].0 == x;
    }
  }

  lemma {:induction false} EmplacedKeys<K, V>(s: Contents<K, V>, capacity: nat, k: K, v: V)
    requires Distinct(s) && |s| <= capacity && !Has(s, k)
    ensures KeysIn(Shortened([(k, v)] + s, capacity)) ==
            if |s| < capacity then KeysIn(s) + {k} else if s == [] then {} else KeysIn(s) + {k} - {s[|s| - 1].0}
  {
    var n := |s| - 1;
    KeysCons(s, (k, v));
    if |s| == capacity && s != [] {
      assert ([(k, v)] + s)[..|s|] == [(k, v)] + s[..n];
      KeysCons(s[..n], (k, v));
      assert s == s[..n] + [s[n]];
      KeysLast(s[..n], s[n]);
      forall i | 0 <= i < n ensures s[..n][i].0 != s[n].0 {
        assert s[i].0 != s[n].0;
      }
      assert s[n].0 != k;
    }
  }

  lemma {:induction false} KeysLast<K, V>(s: Contents<K, V>, p: (K, V))
    ensures KeysIn(s + [p]) == KeysIn(s) + {p.0}
  {
    var r := s + [p];
    assert r[|s|].0 in KeysIn(r);
    forall x | x in KeysIn(s) ensures x in KeysIn(r) {
      var i :| 0 <= i < |s| && s[i].0 == x;
      assert r[i].0 == x;
    }
  }

  // ------------------------------------------------------ what is retained

  /** k is there, and all keys in front of it are in `used`. */
  ghost predicate Near<K, V>(s: Contents<K, V>, k: K, used: set<K>) {
    Has(s, k) && forall i :: 0 <= i < Find(s, k) ==> s[i].0 in used
  }

  /** Distinct keys from a set are no more than the set has. */
  lemma {:induction false} KeysAreFew<K, V>(s: Contents<K, V>, n: nat, used: set<K>)
    requires Distinct(s) && n <= |s| && forall i :: 0 <= i < n ==> s[i].0 in used
    ensures n <= |used|
    decreases n
  {
    if n == 0 {
    } else {
      KeysAreFew(s, n - 1, used - {s[n - 1].0});
    }
  }

  lemma {:induction false} NearWithout<K, V>(s: Contents<K, V>, k: K, x: K, used: set<K>)
    requires Distinct(s) && Near(s, k, used) && x != k
    ensures Near(Without(s, x), k, used)
  {
    var r, i := Without(s, x), Find(s, k);
    var i' := if Find(s, x) < i then i - 1 else i;
    WithoutAt(s, x, i');
    assert r[i'].0 == k;
    forall j | 0 <= j < i' ensures r[j].0 in used && r[j].0 != k {
      WithoutAt(s, x, j);
    }
  }

  lemma {:induction false} NearCons<K, V>(s: Contents<K, V>, p: (K, V), k: K, used: set<K>)
    requires Near(s, k, used) && p.0 != k
    ensures Near([p] + s, k, used + {p.0})
    ensures Find([p] + s, k) == Find(s, k) + 1
  {
    var r := [p] + s;
    assert r[Find(s, k) + 1].0 == k;
    forall j | 0 <= j <= Find(s, k) ensures r[j].0 in used + {p.0} && r[j].0 != k {
      if j > 0 { assert r[j] == s[j - 1]; }
    }
  }

  lemma {:induction false} NearShortened<K, V>(s: Contents<K, V>, k: K, used: set<K>, capacity: nat)
    requires Distinct(s) && Near(s, k, used) && |used| < capacity
    ensures Near(Shortened(s, capacity), k, used)
  {
    KeysAreFew(s, Find(s, k), used);
    var r := Shortened(s, capacity);
    assert r[Find(s, k)].0 == k;
  }

  function UsedBy<K, V>(op: Op<K, V>, k: K): set<K> {
    if (op.Emplace? || op.Get?) && op.key != k then {op.key} else {}
  }

  lemma {:induction false} ApplyNear<K, V>(s: Contents<K, V>, capacity: nat, op: Op<K, V>, k: K, used: set<K>)
    requires Distinct(s) && Near(s, k, used) && Legal(s, op)
    requires !op.Clear? && op != Erase(k) && |used + UsedBy(op, k)| < capacity
    ensures Near(Apply(s, capacity, op), k, used + UsedBy(op, k))
  {
    match op
    case Emplace(x, v) =>
      NearCons(s, (x, v), k, used);
      NearShortened([(x, v)] + s, k, used + {x}, capacity);
    case Get(x) =>
      if x != k && Has(s, x) {
        NearWithout(s, k, x, used);
        NearCons(Without(s, x), s[Find(s, x)], k, used);
      }
    case Erase(x) =>
      NearWithout(s, k, x, used);
  }

  /** The other keys that a run uses. */
  function UsedKeys<K, V>(ops: seq<Op<K, V>>, k: K): set<K> {
    if ops == [] then {} else UsedKeys(ops[..|ops| - 1], k) + UsedBy(ops[|ops| - 1], k)
  }

  /** A key that was just used stays until it is erased or as many other keys were
   *  used as the cache has room for.
   */
  lemma {:induction false} Retained<K, V>(capacity: nat, pre: seq<Op<K, V>>, post: seq<Op<K, V>>, k: K)
    requires LegalRun(capacity, pre + post)
    requires Run(capacity, pre) != [] && Run(capacity, pre)[0].0 == k
    requires Clear !in post && Erase(k) !in post && |UsedKeys(post, k)| < capacity
    ensures Near(Run(capacity, pre + post), k, UsedKeys(post, k))
    decreases |post|
  {
    var n := |post|;
    if n == 0 {
      assert pre + post == pre;
    } else {
      var ops, front, op := pre + post, post[..n - 1], post[n - 1];
      assert ops[..|ops| - 1] == pre + front && ops[|ops| - 1] == op;
      assert Clear !in front && Erase(k) !in front && op in post;
      LegalParts(capacity, ops);
      SmallerSet(UsedKeys(front, k), UsedKeys(post, k));
      Retained(capacity, pre, front, k);
      RunExplained(capacity, pre + front);
      ApplyNear(Run(capacity, pre + front), capacity, op, k, UsedKeys(front, k));
    }
  }

  lemma {:induction false} LegalParts<K, V>(capacity: nat, ops: seq<Op<K, V>>)
    requires LegalRun(capacity, ops) && ops != []
    ensures LegalRun(capacity, ops[..|ops| - 1]) && Legal(Run(capacity, ops[..|ops| - 1]), ops[|ops| - 1])
    ensures Run(capacity, ops) == Apply(Run(capacity, ops[..|ops| - 1]), capacity, ops[|ops| - 1])
  {
  }

  lemma {:induction false} SmallerSet<K>(a: set<K>, b: set<K>)
    requires a <= b
    ensures |a| <= |b|
  {
    if a == {} {
    } else {
      var x :| x in a;
      SmallerSet(a - {x}, b - {x});
    }
  }

  // ----------------------------------------------------------- the object

  class Item<K, V> {
    const key: K
    const data: V

    constructor (key: K, data: V)
      ensures this.key == key && this.data == data
    {
      this.key, this.data := key, data;
    }
  }

  function Pairs<K, V>(lru: seq<Item<K, V>>): (s: Contents<K, V>)
    ensures |s| == |lru| && forall i :: 0 <= i < |s| ==> s[i] == (lru[i].key, lru[i].data)
  {
    seq(|lru|, i requires 0 <= i < |lru| => (lru[i].key, lru[i].data))
  }

  /** The map has exactly the items of the list, each under its key. */
  ghost predicate Agrees<K, V>(items: map<K, Item<K, V>>, lru: seq<Item<K, V>>) {
    && Distinct(Pairs(lru))
    && (forall i :: 0 <= i < |lru| ==> lru[i].key in items && items[lru[i].key] == lru[i])
    && (forall k :: k in items ==> items[k].key == k && items[k] in lru)
  }

  lemma {:induction false} FindItem<K, V>(items: map<K, Item<K, V>>, lru: seq<Item<K, V>>, k: K)
    requires Agrees(items, lru)
    ensures k in items <==> Has(Pairs(lru), k)
    ensures k in items ==> lru[Find(Pairs(lru), k)] == items[k]
  {
    var i := Find(Pairs(lru), k);
    if k in items {
      var j :| 0 <= j < |lru| && lru[j] == items[k];
      assert Pairs(lru)[j].0 == k;
    }
    if i < |lru| { assert Pairs(lru)[i].0 == lru[i].key == k; }
  }

  /** std::list::erase at the item's own iterator. */
  function Unlink<K, V>(lru: seq<Item<K, V>>, i: nat): (r: seq<Item<K, V>>)
    requires i < |lru|
    ensures Pairs(r) == Pairs(lru)[..i] + Pairs(lru)[i + 1..]
  {
    lru[..i] + lru[i + 1..]
  }

  lemma {:induction false} UnlinkAgrees<K, V>(items: map<K, Item<K, V>>, lru: seq<Item<K, V>>, i: nat)
    requires Agrees(items, lru) && i < |lru|
    ensures Agrees(items - {lru[i].key}, Unlink(lru, i))
  {
    var items', lru' := items - {lru[i].key}, Unlink(lru, i);
    var s := Pairs(lru);
    forall j | 0 <= j < |lru'|
      ensures lru'[j] == lru[if j < i then j else j + 1] && lru'[j].key != lru[i].key
    {
      assert s[if j < i then j else j + 1].0 != s[i].0;
    }
    forall k | k in items' ensures items'[k].key == k && items'[k] in lru' {
      var j :| 0 <= j < |lru| && lru[j] == items[k];
      assert lru'[if j < i then j else j - 1] == lru[j];
    }
    forall a, b | 0 <= a < b < |lru'| ensures Pairs(lru')[a].0 != Pairs(lru')[b].0 {
      assert s[if a < i then a else a + 1].0 != s[if b < i then b else b + 1].0;
    }
  }

  lemma {:induction false} SameSize<K, V>(items: map<K, Item<K, V>>, lru: seq<Item<K, V>>)
    requires Agrees(items, lru)
    ensures |items| == |lru|
    decreases |lru|
  {
    if lru == [] {
      assert items.Keys == {};
    } else {
      var key := lru[0].key;
      UnlinkAgrees(items, lru, 0);
      SameSize(items - {key}, Unlink(lru, 0));
      assert items.Keys == (items - {key}).Keys + {key};
    }
  }

  lemma {:induction false} LinkAgrees<K, V>(items: map<K, Item<K, V>>, lru: seq<Item<K, V>>, item: Item<K, V>)
    requires Agrees(items, lru) && item.key !in items
    ensures Agrees(items[item.key := item], [item] + lru)
    ensures Pairs([item] + lru) == [(item.key, item.data)] + Pairs(lru)
  {
    var items', lru' := items[item.key := item], [item] + lru;
    var s := Pairs(lru);
    forall a, b | 0 <= a < b < |lru'| ensures Pairs(lru')[a].0 != Pairs(lru')[b].0 {
      if a > 0 { assert s[a - 1].0 != s[b - 1].0; } else { assert lru[b - 1].key in items; }
    }
    forall k | k in items' ensures items'[k].key == k && items'[k] in lru' {
      if k == item.key { assert lru'[0] == item; } else { assert items[k] in lru; }
    }
  }

  class Lru<K(==), V> {
    const capacity: nat
    var items: map<K, Item<K, V>>
    var lru: seq<Item<K, V>>

    ghost predicate Valid()
      reads this
    {
      Agrees(items, lru) && |lru| <= capacity
    }

    ghost function View(): Contents<K, V>
      reads this
    {
      Pairs(lru)
    }

    constructor (capacity: nat)
      ensures Valid() && View() == [] && this.capacity == capacity
    {
      this.capacity, items, lru := capacity, map[], [];
    }

    /** Refines the abstract cache for a missing key. For a key that is there, the map
     *  gets the new item but the list keeps the old one as well: map and list are
     *  equally long afterwards if and only if the key was missing.
     */
    method Emplace(k: K, v: V)
      requires Valid()
      modifies this
      ensures |items| == |lru| <==> k !in old(items)
      ensures k !in old(items) ==> Valid() && View() == Apply(old(View()), capacity, Op.Emplace(k, v))
      ensures k !in old(items) && 0 < capacity ==> k in items && items[k].data == v
      ensures k in old(items) ==> View() == [(k, v)] + old(View()) && items.Keys == old(items.Keys)
    {
      var item := new Item(k, v);
      SameSize(items, lru);
      FindItem(items, lru, k);
      var inserted := k !in items;
      if inserted { LinkAgrees(items, lru, item); }
      lru := [item] + lru;
      items := items[k := item];
      if inserted {
        MakeSpace();
        SameSize(items, lru);
      } else {
        assert items.Keys == old(items.Keys);
        assert |items| == |items.Keys|;
      }
    }

    method MakeSpace()
      requires Agrees(items, lru) && |lru| <= capacity + 1
      modifies this
      ensures Valid() && View() == Shortened(old(View()), capacity)
      ensures 0 < capacity && old(lru) != [] ==> lru != [] && lru[0] == old(lru)[0]
    {
      SameSize(items, lru);
      if |items| > capacity {
        var last := |lru| - 1;
        UnlinkAgrees(items, lru, last);
        assert lru[..last] == Unlink(lru, last);
        items := items - {lru[last].key};
        lru := lru[..last];
      }
    }

    /** The value last stored, for a key that is there; it becomes the most recent. */
    method Get(k: K) returns (data: Option<V>)
      requires Valid()
      modifies this
      ensures Valid() && View() == Apply(old(View()), capacity, Op.Get(k))
      ensures data == Read(old(View()), k)
      ensures data == if k in items then Some(items[k].data) else None
      ensures items == old(items)
      ensures k in items ==> lru != [] && lru[0] == items[k]
    {
      FindItem(items, lru, k);
      if k in items {
        var item := items[k];
        Relink(item, Find(Pairs(lru), k));
        return Some(item.data);
      }
      return None;
    }

    method Relink(item: Item<K, V>, i: nat)
      requires Valid() && i < |lru| && lru[i] == item
      modifies this`lru
      ensures Valid() && View() == [old(View())[i]] + (old(View())[..i] + old(View())[i + 1..])
    {
      UnlinkAgrees(items, lru, i);
      LinkAgrees(items - {item.key}, Unlink(lru, i), item);
      assert (items - {item.key})[item.key := item] == items;
      lru := [item] + Unlink(lru, i);
    }

    method Remove(i: nat)
      requires Valid() && i < |lru|
      modifies this
      ensures Valid() && View() == old(View())[..i] + old(View())[i + 1..]
      ensures items == old(items) - {old(lru)[i].key}
    {
      UnlinkAgrees(items, lru, i);
      items := items - {lru[i].key};
      lru := Unlink(lru, i);
    }

    method Erase(k: K) returns (found: bool)
      requires Valid()
      modifies this
      ensures Valid() && View() == Apply(old(View()), capacity, Op.Erase(k))
      ensures found <==> Has(old(View()), k)
      ensures items == old(items) - {k}
      ensures found <==> k in old(items)
    {
      FindItem(items, lru, k);
      found := k in items;
      if found {
        Remove(Find(Pairs(lru), k));
      }
    }

    method Clear()
      modifies this
      ensures Valid() && View() == Apply(old(View()), capacity, Op.Clear)
      ensures items == map[] && View() == []
    {
      items, lru := map[], [];
    }
  }
}
