/** Ordered iteration over one family of the database
 *  (src/lib/RocksDbResource.h, iterateT and iterateFromPrevT).
 */
module Scans {
  import opened Bytes
  import opened Keys

  ghost predicate Sorted(keys: seq<Bytes>) {
    forall i, j :: 0 <= i < j < |keys| ==> Less(keys[i], keys[j])
  }

  /** Iterator::Seek: the first key not before `key`. */
  function Seek(keys: seq<Bytes>, key: Bytes): (i: nat)
    ensures i <= |keys|
    ensures forall j :: 0 <= j < i ==> Less(keys[j], key)
    ensures i < |keys| ==> !Less(keys[i], key)
  {
    if keys == [] || !Less(keys[0], key) then 0 else 1 + Seek(keys[1..], key)
  }

  /** Number of leading keys not after `key`; Iterator::SeekForPrev stands on the
   *  last of them and is invalid when there is none.
   */
  function NotAfter(keys: seq<Bytes>, key: Bytes): (i: nat)
    ensures i <= |keys|
    ensures forall j :: 0 <= j < i ==> LessEq(keys[j], key)
    ensures i < |keys| ==> !LessEq(keys[i], key)
  {
    if keys == [] || !LessEq(keys[0], key) then 0 else 1 + NotAfter(keys[1..], key)
  }

  // ------------------------------------------------------- difference blocks

  datatype DiffRef = DiffRef(zone: Bytes, serial: nat)

  function KeyOf(r: DiffRef): Bytes {
    DiffKey(r.zone, r.serial)
  }

  /** The DIFF family as its iterator sees it. */
  ghost predicate DiffFamily(db: seq<DiffRef>) {
    && (forall i :: 0 <= i < |db| ==> NulFree(db[i].zone) && db[i].serial < Pow256(4))
    && (forall i, j :: 0 <= i < j < |db| ==> Less(KeyOf(db[i]), KeyOf(db[j])))
  }

  predicate Matches(r: DiffRef, zone: Bytes, from: nat) {
    r.zone == zone && from <= r.serial
  }

  /** What an IXFR from serial `from` has to visit, in the family's order. */
  function Wanted(db: seq<DiffRef>, zone: Bytes, from: nat): seq<DiffRef> {
    if db == [] then []
    else
      var last := db[|db| - 1];
      Wanted(db[..|db| - 1], zone, from) + if Matches(last, zone, from) then [last] else []
  }

  lemma {:induction false} WantedSkip(db: seq<DiffRef>, lo: nat, hi: nat, zone: Bytes, from: nat)
    requires lo <= hi <= |db|
    requires forall i :: lo <= i < hi ==> !Matches(db[i], zone, from)
    ensures Wanted(db[..hi], zone, from) == Wanted(db[..lo], zone, from)
    decreases hi
  {
    if lo == hi {
    } else {
      WantedSkip(db, lo, hi - 1, zone, from);
      assert db[..hi][..hi - 1] == db[..hi - 1];
    }
  }

  /** A block of the zone with a wanted serial is not before the scan's start. */
  lemma {:induction false} WantedNotBefore(r: DiffRef, zone: Bytes, from: nat)
    requires Matches(r, zone, from) && r.serial < Pow256(4) && from < Pow256(4)
    ensures LessEq(DiffKey(zone, from), KeyOf(r))
  {
    DiffKeyOrder(zone, from, r.serial);
  }

  /** A block of the zone at or after the scan's start has a wanted serial. */
  lemma {:induction false} NotBeforeIsWanted(r: DiffRef, zone: Bytes, from: nat)
    requires r.zone == zone && r.serial < Pow256(4) && from < Pow256(4)
    requires !Less(KeyOf(r), DiffKey(zone, from))
    ensures Matches(r, zone, from)
  {
    DiffKeyOrder(zone, r.serial, from);
  }

  /** After a block of another zone comes none that is wanted. */
  lemma {:induction false} OtherZoneEnds(r: DiffRef, later: DiffRef, zone: Bytes, from: nat)
    requires NulFree(zone) && NulFree(r.zone) && r.zone != zone
    requires from < Pow256(4) && r.serial < Pow256(4) && later.serial < Pow256(4)
    requires !Less(KeyOf(r), DiffKey(zone, from)) && Less(KeyOf(r), KeyOf(later))
    ensures !Matches(later, zone, from)
  {
    if Matches(later, zone, from) {
      Trichotomy(KeyOf(r), DiffKey(zone, from));
      DiffKeysContiguous(zone, from, r.zone, r.serial, later.serial);
    }
  }

  lemma {:induction false} NothingPastOtherZone(db: seq<DiffRef>, i: nat, j: nat, zone: Bytes, from: nat)
    requires DiffFamily(db) && NulFree(zone) && from < Pow256(4)
    requires i <= j < |db| && db[i].zone != zone
    requires !Less(KeyOf(db[i]), DiffKey(zone, from))
    ensures !Matches(db[j], zone, from)
  {
    if i < j { OtherZoneEnds(db[i], db[j], zone, from); }
  }

  function KeysOf(db: seq<DiffRef>): seq<Bytes> {
    seq(|db|, n requires 0 <= n < |db| => KeyOf(db[n]))
  }

  /** Seek skips nothing that is wanted, and everything from there on is at or
   *  after the scan's start.
   */
  lemma {:induction false} SeekIsStart(db: seq<DiffRef>, zone: Bytes, from: nat)
    requires DiffFamily(db) && from < Pow256(4)
    ensures var i := Seek(KeysOf(db), DiffKey(zone, from));
            && Wanted(db[..i], zone, from) == []
            && forall n :: i <= n < |db| ==> !Less(KeyOf(db[n]), DiffKey(zone, from))
  {
    var dkey, keys := DiffKey(zone, from), KeysOf(db);
    var i := Seek(keys, dkey);
    forall n | 0 <= n < i ensures !Matches(db[n], zone, from) {
      assert Less(keys[n], dkey);
      Trichotomy(keys[n], dkey);
      if Matches(db[n], zone, from) { WantedNotBefore(db[n], zone, from); }
    }
    WantedSkip(db, 0, i, zone, from);
    assert db[..0] == [];
    forall n | i <= n < |db| ensures !Less(KeyOf(db[n]), dkey) {
      assert !Less(keys[i], dkey);
      if i < n && Less(KeyOf(db[n]), dkey) {
        LessTransitive(KeyOf(db[i]), KeyOf(db[n]), dkey);
      }
    }
  }

  /** The test that ends the scan, on the keys as they are stored. */
  predicate AtZone(r: DiffRef, zone: Bytes, from: nat)
    ensures AtZone(r, zone, from) <==> r.zone == zone
  {
    SameFqdnIsSameZone(zone, from, r.zone, r.serial);
    IsSameFqdn(DiffKey(zone, from), KeyOf(r))
  }

  lemma {:induction false} StopIsFinal(db: seq<DiffRef>, i: nat, zone: Bytes, from: nat)
    requires DiffFamily(db) && NulFree(zone) && from < Pow256(4)
    requires i < |db| && db[i].zone != zone && !Less(KeyOf(db[i]), DiffKey(zone, from))
    ensures Wanted(db, zone, from) == Wanted(db[..i], zone, from)
  {
    forall n | i <= n < |db| ensures !Matches(db[n], zone, from) {
      NothingPastOtherZone(db, i, n, zone, from);
    }
    WantedSkip(db, i, |db|, zone, from);
    assert db[..|db|] == db;
  }

  lemma {:induction false} WantedNext(db: seq<DiffRef>, i: nat, zone: Bytes, from: nat)
    requires i < |db|
    ensures Wanted(db[..i + 1], zone, from) ==
            Wanted(db[..i], zone, from) + if Matches(db[i], zone, from) then [db[i]] else []
  {
    assert db[..i + 1][..i] == db[..i];
  }

  lemma {:induction false} VisitIsWanted(db: seq<DiffRef>, i: nat, zone: Bytes, from: nat)
    requires DiffFamily(db) && from < Pow256(4)
    requires i < |db| && db[i].zone == zone && !Less(KeyOf(db[i]), DiffKey(zone, from))
    ensures Wanted(db[..i + 1], zone, from) == Wanted(db[..i], zone, from) + [db[i]]
  {
    NotBeforeIsWanted(db[i], zone, from);
    WantedNext(db, i, zone, from);
  }

  /** The scan of DnsEngine::doIxfr visits exactly the zone's blocks with serial
   *  at least `from`, in ascending numeric order.
   */
  method IterateDiffs(db: seq<DiffRef>, zone: Bytes, from: nat) returns (visited: seq<DiffRef>)
    requires DiffFamily(db) && NulFree(zone) && from < Pow256(4)
    ensures visited == Wanted(db, zone, from)
  {
    var i := Seek(KeysOf(db), DiffKey(zone, from));
    SeekIsStart(db, zone, from);
    visited := [];
    ghost var start := i;
    while i < |db| && AtZone(db[i], zone, from)
      invariant start <= i <= |db|
      invariant visited == Wanted(db[..i], zone, from)
    {
      VisitIsWanted(db, i, zone, from);
      visited := visited + [db[i]];
      i := i + 1;
    }
    if i < |db| {
      StopIsFinal(db, i, zone, from);
    } else {
      assert db[..i] == db;
    }
  }

  lemma {:induction false} WantedMembers(db: seq<DiffRef>, zone: Bytes, from: nat)
    ensures forall r :: r in Wanted(db, zone, from) <==> r in db && Matches(r, zone, from)
  {
    if db == [] {
    } else {
      WantedMembers(db[..|db| - 1], zone, from);
    }
  }

  ghost predicate AscendingSerials(refs: seq<DiffRef>) {
    forall i, j :: 0 <= i < j < |refs| ==> refs[i].serial < refs[j].serial
  }

  /** Blocks of one zone have ascending serials. */
  ghost predicate ZonesAscend(db: seq<DiffRef>) {
    forall i, j :: 0 <= i < j < |db| && db[i].zone == db[j].zone ==> db[i].serial < db[j].serial
  }

  lemma {:induction false} LaterSerial(a: DiffRef, b: DiffRef)
    requires a.zone == b.zone && a.serial < Pow256(4) && b.serial < Pow256(4) && Less(KeyOf(a), KeyOf(b))
    ensures a.serial < b.serial
  {
    DiffKeyOrder(a.zone, a.serial, b.serial);
  }

  lemma {:induction false} FamilyAscends(db: seq<DiffRef>)
    requires DiffFamily(db)
    ensures ZonesAscend(db)
  {
    forall i, j | 0 <= i < j < |db| && db[i].zone == db[j].zone ensures db[i].serial < db[j].serial {
      LaterSerial(db[i], db[j]);
    }
  }

  lemma {:induction false} WantedAscends(db: seq<DiffRef>, zone: Bytes, from: nat, n: nat)
    requires ZonesAscend(db) && n <= |db|
    ensures AscendingSerials(Wanted(db[..n], zone, from))
  {
    if n == 0 {
    } else {
      WantedAscends(db, zone, from, n - 1);
      WantedMembers(db[..n - 1], zone, from);
      WantedNext(db, n - 1, zone, from);
      var w, last := Wanted(db[..n - 1], zone, from), db[n - 1];
      forall i | 0 <= i < |w| && Matches(last, zone, from) ensures w[i].serial < last.serial {
        assert w[i] in w;
        var k :| 0 <= k < n - 1 && db[..n - 1][k] == w[i];
        assert db[k] == w[i];
      }
    }
  }

  lemma {:induction false} WantedIsExact(db: seq<DiffRef>, zone: Bytes, from: nat)
    requires DiffFamily(db)
    ensures var w := Wanted(db, zone, from);
            && (forall r :: r in w <==> r in db && Matches(r, zone, from))
            && AscendingSerials(w)
  {
    WantedMembers(db, zone, from);
    FamilyAscends(db);
    WantedAscends(db, zone, from, |db|);
    assert db[..|db|] == db;
  }

  // ------------------------------------------------- forward paging

  predicate SameClass(a: Bytes, b: Bytes) {
    a != [] && b != [] && a[0] == b[0]
  }

  /** The keys of the same class strictly after `key`. */
  function After(keys: seq<Bytes>, key: Bytes): seq<Bytes> {
    if keys == [] then []
    else
      var last := keys[|keys| - 1];
      After(keys[..|keys| - 1], key) + if SameClass(key, last) && Less(key, last) then [last] else []
  }

  lemma {:induction false} AfterSkip(keys: seq<Bytes>, lo: nat, hi: nat, key: Bytes)
    requires lo <= hi <= |keys|
    requires forall i :: lo <= i < hi ==> !(SameClass(key, keys[i]) && Less(key, keys[i]))
    ensures After(keys[..hi], key) == After(keys[..lo], key)
    decreases hi
  {
    if lo == hi {
    } else {
      AfterSkip(keys, lo, hi - 1, key);
      assert keys[..hi][..hi - 1] == keys[..hi - 1];
    }
  }

  /** Keys after `key` do not return to its class once they have left it. */
  lemma {:induction false} ClassesContiguous(key: Bytes, other: Bytes, later: Bytes)
    requires key != [] && Less(key, other) && Less(other, later) && !SameClass(key, other)
    ensures !SameClass(key, later)
  {
  }

  /** Forward iterateFromPrevT with skipKey, and a callback that never stops it. */
  method IterateFromPrev(keys: seq<Bytes>, key: Bytes) returns (visited: seq<Bytes>)
    requires Sorted(keys) && key != []
    ensures visited == After(keys, key)
  {
    var n := NotAfter(keys, key);
    // SeekForPrev stands on keys[n - 1], or is invalid when n == 0. Next() and
    // SeekToFirst() both lead to index n.
    var i := n;
    visited := [];
    forall j | 0 <= j < n ensures !Less(key, keys[j]) { Trichotomy(key, keys[j]); }
    AfterSkip(keys, 0, n, key);
    assert keys[..0] == [];
    forall j | n <= j < |keys| ensures Less(key, keys[j]) {
      Trichotomy(key, keys[n]);
      if n < j { LessTransitive(key, keys[n], keys[j]); }
    }
    while i < |keys|
      invariant n <= i <= |keys|
      invariant visited == After(keys[..i], key)
    {
      if !SameClass(key, keys[i]) {
        forall j | i <= j < |keys| ensures !SameClass(key, keys[j]) {
          if i < j { ClassesContiguous(key, keys[i], keys[j]); }
        }
        AfterSkip(keys, i, |keys|, key);
        assert keys[..|keys|] == keys;
        return;
      }
      visited := visited + [keys[i]];
      i := i + 1;
      assert keys[..i][..i - 1] == keys[..i - 1];
    }
    assert keys[..|keys|] == keys;
  }
}
