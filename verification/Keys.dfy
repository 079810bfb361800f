/** Index keys (src/lib/ResourceIf.cpp, RealKey): a class byte, then a name that
 *  is reversed for some classes, then for DIFF keys a NUL and the serial.
 */
module Keys {
  import opened Bytes

  const ENTRY: byte := 0
  const DIFF: byte := 1
  const ZONE: byte := 5
  const TZONE: byte := 6
  const TRXID: byte := 7
  const SLASH: byte := 47

  datatype Version = NoVersion | Version(serial: nat)

  predicate IsReversed(class_: byte) {
    class_ == ENTRY || class_ == DIFF || class_ == ZONE
  }

  /** RealKey::init for names. */
  method InitKey(name: Bytes, class_: byte, version: Version) returns (value: Bytes)
    ensures value == NameKey(name, class_, version)
  {
    value := [class_] + name;
    if IsReversed(class_) {
      var i, j := 1, |value| - 1;
      ghost var original := value;
      while i < j
        invariant 1 <= i <= j + 1 && i + j == |value| && |value| == |original| == |name| + 1
        invariant forall k :: 1 <= k < i || j < k < |value| ==> value[k] == original[|value| - k]
        invariant forall k :: k == 0 || i <= k <= j ==> value[k] == original[k]
      {
        value := value[i := value[j]][j := value[i]];
        i, j := i + 1, j - 1;
      }
      assert value == [class_] + Reverse(name);
    }
    if version.Version? {
      value := value + [0];
      value := value + BigEndian(version.serial, 4);
    }
  }

  function NameKey(name: Bytes, class_: byte, version: Version): Bytes {
    var named := [class_] + if IsReversed(class_) then Reverse(name) else name;
    if version.Version? then named + [0] + BigEndian(version.serial, 4) else named
  }

  function TrxKey(id: nat): Bytes {
    [TRXID] + BigEndian(id, 8)
  }

  function DiffKey(zone: Bytes, serial: nat): Bytes {
    NameKey(zone, DIFF, Version(serial))
  }

  function TzoneKey(tenant: Bytes, zone: Bytes): Bytes {
    NameKey(tenant + [SLASH] + zone, TZONE, NoVersion)
  }

  /** RealKey::dataAsString, as the name and the serial it prints. */
  function Decode(key: Bytes): (Bytes, Version)
    requires key != [] && (key[0] == DIFF ==> |key| >= 6)
  {
    if key[0] == DIFF then
      (Reverse(key[1..|key| - 5]), Version(FromBigEndian(key[|key| - 4..])))
    else (if IsReversed(key[0]) then Reverse(key[1..]) else key[1..], NoVersion)
  }

  lemma {:induction false} DecodeNameKey(name: Bytes, class_: byte, version: Version)
    requires version.Version? <==> class_ == DIFF
    requires version.Version? ==> version.serial < Pow256(4)
    ensures var key := NameKey(name, class_, version);
            && (class_ == DIFF ==> |key| >= 6)
            && Decode(key) == (name, version)
  {
    var key := NameKey(name, class_, version);
    ReverseTwice(name);
    if version.Version? {
      BigEndianRoundTrip(version.serial, 4);
      assert key[1..|key| - 5] == Reverse(name);
      assert key[|key| - 4..] == BigEndian(version.serial, 4);
    }
  }

  /** Transaction ids are kept in numeric order. */
  lemma {:induction false} TrxKeyOrder(a: nat, b: nat)
    requires a < Pow256(8) && b < Pow256(8)
    ensures Less(TrxKey(a), TrxKey(b)) <==> a < b
  {
    CommonPrefix([TRXID], BigEndian(a, 8), BigEndian(b, 8));
    BigEndianOrder(a, b, 8);
  }

  /** The last key of TRXLOG is the key of the largest id. */
  lemma {:induction false} LastTrxKey(ids: set<nat>, last: nat)
    requires last in ids && forall i :: i in ids ==> i < Pow256(8)
    ensures (forall i :: i in ids ==> LessEq(TrxKey(i), TrxKey(last))) <==> (forall i :: i in ids ==> i <= last)
  {
    forall i | i in ids ensures LessEq(TrxKey(i), TrxKey(last)) <==> i <= last {
      TrxKeyOrder(i, last);
      TrxKeyOrder(last, i);
      Trichotomy(TrxKey(last), TrxKey(i));
    }
  }

  /** RealKey::isSameFqdn, for two DIFF keys. */
  predicate IsSameFqdn(a: Bytes, b: Bytes)
    requires |a| >= 6 && |b| >= 6
  {
    a[1..|a| - 5] == b[1..|b| - 5]
  }

  ghost predicate NulFree(name: Bytes) {
    forall i :: 0 <= i < |name| ==> name[i] != 0
  }

  function DiffPrefix(zone: Bytes): Bytes {
    [DIFF] + Reverse(zone) + [0]
  }

  lemma {:induction false} DiffKeyShape(zone: Bytes, serial: nat)
    ensures DiffKey(zone, serial) == DiffPrefix(zone) + BigEndian(serial, 4)
    ensures |DiffKey(zone, serial)| >= 6
    ensures DiffKey(zone, serial)[1..|DiffKey(zone, serial)| - 5] == Reverse(zone)
  {
  }

  lemma {:induction false} ReverseInjective(a: Bytes, b: Bytes)
    requires Reverse(a) == Reverse(b)
    ensures a == b
  {
    ReverseTwice(a);
    ReverseTwice(b);
  }

  lemma {:induction false} SameFqdnIsSameZone(a: Bytes, s: nat, b: Bytes, t: nat)
    ensures |DiffKey(a, s)| >= 6 && |DiffKey(b, t)| >= 6
    ensures IsSameFqdn(DiffKey(a, s), DiffKey(b, t)) <==> a == b
  {
    DiffKeyShape(a, s);
    DiffKeyShape(b, t);
    if Reverse(a) == Reverse(b) { ReverseInjective(a, b); }
  }

  /** Within a zone, blocks are kept in numeric order of the serial. */
  lemma {:induction false} DiffKeyOrder(zone: Bytes, s: nat, t: nat)
    requires s < Pow256(4) && t < Pow256(4)
    ensures Less(DiffKey(zone, s), DiffKey(zone, t)) <==> s < t
    ensures DiffKey(zone, s) == DiffKey(zone, t) <==> s == t
  {
    DiffKeyShape(zone, s);
    DiffKeyShape(zone, t);
    CommonPrefix(DiffPrefix(zone), BigEndian(s, 4), BigEndian(t, 4));
    BigEndianOrder(s, t, 4);
    LessIrreflexive(DiffKey(zone, s));
    CommonPrefix(DiffPrefix(zone), BigEndian(t, 4), BigEndian(s, 4));
    BigEndianOrder(t, s, 4);
  }

  /** The NUL ends the name: no name is the prefix of another one's key. */
  lemma {:induction false} DiffPrefixNamesZone(zone: Bytes, other: Bytes, serial: nat)
    requires NulFree(zone) && NulFree(other)
    requires DiffPrefix(zone) <= DiffKey(other, serial)
    ensures zone == other
  {
    var key := DiffKey(other, serial);
    DiffKeyShape(other, serial);
    assert forall i :: 1 <= i <= |zone| ==> key[i] == DiffPrefix(zone)[i] == Reverse(zone)[i - 1];
    assert forall i :: 1 <= i <= |other| ==> key[i] == DiffPrefix(other)[i] == Reverse(other)[i - 1];
    assert key[|zone| + 1] == 0 && key[|other| + 1] == 0;
    assert |zone| == |other|;
    assert Reverse(zone) == Reverse(other);
    ReverseInjective(zone, other);
  }

  /** The blocks of one zone are contiguous. */
  lemma {:induction false} DiffKeysContiguous(zone: Bytes, s: nat, other: Bytes, o: nat, t: nat)
    requires NulFree(zone) && NulFree(other)
    requires LessEq(DiffKey(zone, s), DiffKey(other, o)) && LessEq(DiffKey(other, o), DiffKey(zone, t))
    ensures other == zone
  {
    DiffKeyShape(zone, s);
    DiffKeyShape(zone, t);
    Between(DiffPrefix(zone), BigEndian(s, 4), DiffKey(other, o), BigEndian(t, 4));
    DiffPrefixNamesZone(zone, other, o);
  }
}
