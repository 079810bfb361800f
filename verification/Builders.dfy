/** StorageBuilder as the object that the source fills record by record. */
module Builders {
  import opened Bytes
  import opened Options
  import opened Names
  import opened Differences
  import opened Storage
  import opened Entries

  // --------------------------------------------------------- sorting the index

  const TABLE_LEN: nat := 255

  /** The comparison that finish sorts with; None stands for the exception that the
   *  table throws for a type outside of it.
   */
  function Before(x: Ix, y: Ix): Option<bool> {
    if x.rtype < TABLE_LEN && y.rtype < TABLE_LEN then Some(Rank(x.rtype) < Rank(y.rtype)) else None
  }

  function InsertIx(x: Ix, s: seq<Ix>): (r: Option<seq<Ix>>)
    ensures r.Some? ==> multiset(r.value) == multiset(s) + multiset{x}
  {
    if s == [] then Some([x])
    else
      assert s == [s[0]] + s[1..];
      var before := Before(x, s[0]);
      if before.None? then None
      else if before.value then Some([x] + s)
      else
        var rest := InsertIx(x, s[1..]);
        if rest.None? then None else Some([s[0]] + rest.value)
  }

  /** std::sort with that comparison. */
  function SortIndex(s: seq<Ix>): (r: Option<seq<Ix>>)
    ensures r.Some? ==> multiset(r.value) == multiset(s)
  {
    if s == [] then Some([])
    else
      assert s == [s[0]] + s[1..];
      var rest := SortIndex(s[1..]);
      if rest.None? then None else InsertIx(s[0], rest.value)
  }

  ghost predicate InTable(s: seq<Ix>) {
    forall i :: 0 <= i < |s| ==> s[i].rtype < TABLE_LEN
  }

  lemma {:induction false} InsertInTable(x: Ix, s: seq<Ix>)
    requires InTable(s) && x.rtype < TABLE_LEN
    ensures InsertIx(x, s).Some? && InTable(InsertIx(x, s).value)
  {
    if s == [] {
    } else {
      InsertInTable(x, s[1..]);
    }
  }

  lemma {:induction false} OutsideFails(x: Ix, s: seq<Ix>)
    requires s != [] && !(x.rtype < TABLE_LEN && s[0].rtype < TABLE_LEN)
    ensures InsertIx(x, s).None?
  {
  }

  /** Sorting fails if and only if there is something to compare and some type is
   *  outside of the table.
   */
  lemma {:induction false} SortFailsIff(s: seq<Ix>)
    ensures SortIndex(s).None? <==> |s| >= 2 && !InTable(s)
    ensures InTable(s) ==> SortIndex(s).Some? && InTable(SortIndex(s).value)
  {
    if s == [] {
    } else {
      SortFailsIff(s[1..]);
      InTableSplit(s);
      if SortIndex(s[1..]).Some? { InsertFailsIff(s[0], s[1..]); }
    }
  }

  lemma {:induction false} InTableSplit(s: seq<Ix>)
    requires s != []
    ensures InTable(s) <==> s[0].rtype < TABLE_LEN && InTable(s[1..])
  {
  }

  lemma {:induction false} InsertFailsIff(x: Ix, rest: seq<Ix>)
    requires SortIndex(rest).Some? && (|rest| < 2 || InTable(rest))
    requires InTable(rest) ==> InTable(SortIndex(rest).value)
    ensures InsertIx(x, SortIndex(rest).value).None? <==> rest != [] && !(x.rtype < TABLE_LEN && InTable(rest))
    ensures x.rtype < TABLE_LEN && InTable(rest) ==> InTable(InsertIx(x, SortIndex(rest).value).value)
  {
    var sorted := SortIndex(rest).value;
    if x.rtype < TABLE_LEN && InTable(rest) {
      InsertInTable(x, sorted);
    } else if rest == [] {
    } else {
      OneIsKept(rest);
      OutsideFails(x, sorted);
    }
  }

  lemma {:induction false} OneIsKept(s: seq<Ix>)
    requires s != [] && SortIndex(s).Some?
    ensures SortIndex(s).value != []
    ensures |s| == 1 ==> SortIndex(s).value == s
  {
    assert |SortIndex(s).value| == |multiset(SortIndex(s).value)| == |s|;
    if |s| == 1 { assert s[1..] == []; }
  }

  lemma {:induction false} InsertIxSorted(x: Ix, s: seq<Ix>)
    requires SortedByRank(s) && InsertIx(x, s).Some?
    ensures SortedByRank(InsertIx(x, s).value)
  {
    if s == [] || Before(x, s[0]).value {
    } else {
      InsertIxSorted(x, s[1..]);
      var t := InsertIx(x, s[1..]).value;
      forall i | 0 <= i < |t| ensures Rank(s[0].rtype) <= Rank(t[i].rtype) {
        assert t[i] in multiset(s[1..]) + multiset{x};
      }
    }
  }

  lemma {:induction false} SortIndexSorted(s: seq<Ix>)
    requires SortIndex(s).Some?
    ensures SortedByRank(SortIndex(s).value)
  {
    if s == [] {
    } else {
      SortIndexSorted(s[1..]);
      InsertIxSorted(s[0], SortIndex(s[1..]).value);
    }
  }

  /** finish: None when sorting throws. */
  function Finished(b: Builder, sort: bool): Option<Bytes>
    requires HEADER_LEN <= |b.buffer|
  {
    if !sort then Some(Finish(b, b.index))
    else
      var index := SortIndex(b.index);
      if index.None? then None else Some(Finish(b, index.value))
  }

  // ------------------------------------------------------ what a reader finds

  ghost predicate HasRecord(recs: seq<Record>, t: nat) {
    exists i :: 0 <= i < |recs| && recs[i].rr.rtype == t
  }

  ghost function FlagsIn(recs: seq<Record>, tenant: bool): Flags {
    Flags(HasRecord(recs, 6), HasRecord(recs, 2), HasRecord(recs, 1), HasRecord(recs, 28), HasRecord(recs, 5),
          HasRecord(recs, 16), tenant)
  }

  /** Bytes that a name takes on the wire. */
  function TextSize(text: Bytes): nat {
    if text == [] then 1 else |text| + 2
  }

  ghost predicate TypesInOrder(recs: seq<Record>) {
    forall i, j :: 0 <= i < j < |recs| ==> MayFollow(recs[i].rr.rtype, recs[j].rr.rtype)
  }

  lemma {:induction false} SortedIsInOrder(recs: seq<Record>, index: seq<Ix>)
    requires SortedByRank(index) && |recs| == |index|
    requires forall j :: 0 <= j < |recs| ==> recs[j].rr.rtype == index[j].rtype
    ensures TypesInOrder(recs)
  {
    forall i, j | 0 <= i < j < |recs| ensures MayFollow(recs[i].rr.rtype, recs[j].rr.rtype) {
      RankIsOrder(index[i].rtype, index[j].rtype);
    }
  }

  /** What a reader of a finished entry finds: the given records, in their order or
   *  in the order of their types, with any SOA first; and a header with a flag for each of
   *  their types, the tenant flag, the size of the first name and the zone length.
   */
  ghost predicate Reads(entry: Bytes, recs: seq<Record>, sorted: bool, tenant: bool, zonelen: nat) {
    && |entry| >= HEADER_LEN
    && ReadEntry(entry).Some?
    && var got := ReadEntry(entry).value;
       && multiset(got) == multiset(recs)
       && (!sorted ==> got == recs)
       && (sorted ==> TypesInOrder(got) && (HasRecord(recs, TYPE_SOA) ==> got != [] && got[0].rr.rtype == TYPE_SOA))
       && ReadFlags(entry[1]) == FlagsIn(recs, tenant)
       && entry[4] == (if recs == [] then 0 else TextSize(recs[0].owner)) % 256
       && entry[5] == zonelen % 256
  }

  lemma {:induction false} RecordFlags(items: seq<Item>, tenant: bool)
    ensures FlagsOf(items, tenant) == FlagsIn(Owned(items), tenant)
    ensures HasType(items, TYPE_SOA) <==> HasRecord(Owned(items), TYPE_SOA)
  {
    var recs := Owned(items);
    forall t ensures HasType(items, t) <==> HasRecord(recs, t) {
      if i :| 0 <= i < |items| && items[i].rr.rtype == t { assert recs[i].rr.rtype == t; }
      if i :| 0 <= i < |recs| && recs[i].rr.rtype == t { assert items[i].rr.rtype == t; }
    }
  }

  lemma {:induction false} FirstSize(b: Builder, items: seq<Item>)
    requires Holds(b, items)
    ensures b.labelLen == if items == [] then 0 else TextSize(Owned(items)[0].owner)
  {
    if items != [] { WireLength(items[0].labels); }
  }

  lemma {:induction false} FinishHolds(b: Builder, items: seq<Item>, index: seq<Ix>, sorted: bool)
    requires Holds(b, items) && Small(b) && multiset(index) == multiset(b.index)
    requires if sorted then SortedByRank(index) else index == b.index
    ensures Reads(Finish(b, index), Owned(items), sorted, b.flags.tenantId, b.zonelen)
  {
    var recs := EntryRoundTrip(b, items, index);
    FinishHeader(b, index);
    RecordFlags(items, b.flags.tenantId);
    FirstSize(b, items);
    if sorted {
      SortedIsInOrder(recs, index);
      SoaIsFirst(recs, index);
      if HasRecord(Owned(items), TYPE_SOA) { SoaIsRead(recs, Owned(items)); }
    }
  }

  lemma {:induction false} SoaIsRead(recs: seq<Record>, owned: seq<Record>)
    requires multiset(recs) == multiset(owned) && HasRecord(owned, TYPE_SOA)
    ensures exists j :: 0 <= j < |recs| && recs[j].rr.rtype == TYPE_SOA
  {
    var i :| 0 <= i < |owned| && owned[i].rr.rtype == TYPE_SOA;
    assert owned[i] in multiset(recs);
    var j :| 0 <= j < |recs| && recs[j] == owned[i];
  }

  /** Finishing fails if and only if it sorts two or more records, one of a type outside
   *  of the table.
   */
  lemma {:induction false} FinishFailsIff(b: Builder, items: seq<Item>, sort: bool)
    requires Holds(b, items)
    ensures Finished(b, sort).None? <==> sort && !Sortable(items)
  {
    SortFailsIff(b.index);
    SameTable(b, items);
  }

  /** A finished entry reads as the records that the builder holds. */
  lemma {:induction false} FinishedReads(b: Builder, items: seq<Item>, sort: bool)
    requires Holds(b, items) && Small(b) && Finished(b, sort).Some?
    ensures Reads(Finished(b, sort).value, Owned(items), sort, b.flags.tenantId, b.zonelen)
  {
    if sort {
      SortIndexSorted(b.index);
      FinishHolds(b, items, SortIndex(b.index).value, true);
    } else {
      FinishHolds(b, items, b.index, false);
    }
  }

  /** Fewer than two records, or none of a type outside of the table. */
  ghost predicate Sortable(items: seq<Item>) {
    |items| < 2 || forall i :: 0 <= i < |items| ==> items[i].rr.rtype < TABLE_LEN
  }

  lemma {:induction false} SameTable(b: Builder, items: seq<Item>)
    requires Holds(b, items)
    ensures |b.index| == |items| && (Sortable(items) <==> |b.index| < 2 || InTable(b.index))
  {
  }

  // -------------------------------------------------------------- the serial

  /** The first SOA of a list of records. */
  ghost function SoaIn(recs: seq<Record>): Option<Rr> {
    if recs == [] then None
    else if recs[0].rr.rtype == TYPE_SOA then Some(recs[0].rr)
    else SoaIn(recs[1..])
  }

  lemma {:induction false} SoaInAt(recs: seq<Record>, i: nat)
    requires i < |recs| && recs[i].rr.rtype == TYPE_SOA && forall j :: 0 <= j < i ==> recs[j].rr.rtype != TYPE_SOA
    ensures SoaIn(recs) == Some(recs[i].rr)
  {
    if i == 0 {
    } else {
      SoaInAt(recs[1..], i - 1);
    }
  }

  lemma {:induction false} NoSoaIn(recs: seq<Record>)
    requires forall i :: 0 <= i < |recs| ==> recs[i].rr.rtype != TYPE_SOA
    ensures SoaIn(recs) == None
  {
    if recs == [] {
    } else {
      NoSoaIn(recs[1..]);
    }
  }

  lemma {:induction false} FoundSoa(recs: seq<Record>, soa: Option<Rr>)
    requires soa.None? <==> forall i :: 0 <= i < |recs| ==> recs[i].rr.rtype != TYPE_SOA
    requires soa.Some? ==> exists i :: 0 <= i < |recs| && recs[i].rr == soa.value && soa.value.rtype == TYPE_SOA &&
                             forall j :: 0 <= j < i ==> recs[j].rr.rtype != TYPE_SOA
    ensures soa == SoaIn(recs)
  {
    if soa.None? {
      NoSoaIn(recs);
    } else {
      var i :| 0 <= i < |recs| && recs[i].rr == soa.value && soa.value.rtype == TYPE_SOA &&
               forall j :: 0 <= j < i ==> recs[j].rr.rtype != TYPE_SOA;
      SoaInAt(recs, i);
    }
  }

  /** The serial of the SOA of an entry; None stands for an exception, or for a SOA too
   *  short for its five numbers.
   */
  ghost function SerialIn(entry: Bytes): Option<nat> {
    var recs := ReadEntry(entry);
    if recs.None? then None
    else
      var soa := SoaIn(recs.value);
      if soa.None? || |soa.value.rdata| < 20 then None else Some(SerialOf(soa.value.rdata))
  }

  /** The length of the record at `off`, when it can be a SOA. */
  ghost function SoaSize(buffer: Bytes, off: nat): (len: Option<nat>)
    ensures len.Some? ==> 20 <= len.value && off + len.value <= |buffer|
  {
    if off + 2 > |buffer| || LabelLen(buffer, off).None? then None
    else
      var n := LabelLen(buffer, off).value;
      var rr := ReadTail(buffer, off + n);
      if rr.None? || |rr.value.rdata| < 20 then None else Some(n + 10 + |rr.value.rdata|)
  }

  /** What incrementSoaVersion makes of the builder. */
  ghost function Bumped(b: Builder, existing: Bytes): Option<Builder> {
    var serial, len := SerialIn(existing), SoaSize(b.buffer, b.soaOffset);
    if b.soaOffset == 0 || serial.None? || len.None? then None else Some(Bump(b, len.value, serial.value))
  }

  method ReadSerial(entry: Bytes) returns (serial: Option<nat>)
    ensures serial == SerialIn(entry)
  {
    var recs := ReadRecords(entry);
    if recs.None? {
      return None;
    }
    var soa := FindSoa(recs.value);
    FoundSoa(recs.value, soa);
    serial := if soa.Some? && |soa.value.rdata| >= 20 then Some(SerialOf(soa.value.rdata)) else None;
  }

  method ReadSoaSize(buffer: Bytes, off: nat) returns (len: Option<nat>)
    ensures len == SoaSize(buffer, off)
  {
    if off + 2 > |buffer| {
      return None;
    }
    var n := LabelBytes(buffer, off);
    if n.None? {
      return None;
    }
    var rr := ReadTail(buffer, off + n.value);
    len := if rr.Some? && |rr.value.rdata| >= 20 then Some(n.value + 10 + |rr.value.rdata|) else None;
  }

  // -------------------------------------------------------------- the object

  class StorageBuilder {
    var buffer: Bytes
    var index: seq<Ix>
    var namePtr: nat
    var labelLen: nat
    var flags: Flags
    var zonelen: nat
    var soaOffset: nat
    const oneSoa: bool
    const sort: bool

    function View(): Builder
      reads this
    {
      Builder(buffer, index, namePtr, labelLen, flags, zonelen, soaOffset, oneSoa)
    }

    constructor (tenant: Bytes, zonelen: nat, oneSoa: bool, sort: bool)
      ensures View() == NewBuilder(tenant, zonelen, oneSoa) && this.sort == sort
    {
      buffer := [STORAGE_VERSION, 0, 0, 0, 0, 0, 0, 0] + tenant;
      index, namePtr, labelLen, soaOffset := [], 0, 0, 0;
      flags := Flags(false, false, false, false, false, false, tenant != []);
      this.zonelen, this.oneSoa, this.sort := zonelen, oneSoa, sort;
    }

    /** The test for a name that is in the buffer already. */
    method IsSpelledOut(fqdn: Bytes, oneEntity: bool) returns (full: bool)
      ensures full <==> SpelledOut(View(), fqdn, oneEntity)
    {
      if namePtr == 0 {
        return true;
      }
      if oneEntity {
        return false;
      }
      var ok, text, count, size := ParseAndRead(buffer, namePtr);
      return !ok || text == [] || text != fqdn;
    }

    /** createRr: refused without effect when the name cannot be written, or for a
     *  second SOA.
     */
    method CreateRr(fqdn: Bytes, r: Rr, oneEntity: bool) returns (ok: bool)
      modifies this
      ensures Storage.CreateRr(old(View()), fqdn, r, oneEntity) == if ok then Some(View()) else None
      ensures !ok ==> View() == old(View())
    {
      var full := IsSpelledOut(fqdn, oneEntity);
      var wire := [];
      if full {
        var name := WriteName(Trim(fqdn));
        if name.None? {
          return false;
        }
        SpellableIff(fqdn);
        if |name.value| != LabelsLen(fqdn) {
          return false;
        }
        wire := name.value;
      }
      PointerIgnoresName(View(), wire, WireOf(Split(Trim(fqdn))), r);
      ok := FinishRr(wire, full, r);
    }

    /** addRr: a copy of a record that was read. */
    method AddRr(rec: Record) returns (ok: bool)
      modifies this
      ensures Storage.CreateRr(old(View()), rec.owner, rec.rr, false) == if ok then Some(View()) else None
      ensures !ok ==> View() == old(View())
    {
      ok := CreateRr(rec.owner, rec.rr, false);
    }

    method FinishRr(wire: Bytes, full: bool, r: Rr) returns (ok: bool)
      modifies this
      ensures Append(old(View()), wire, full, r) == if ok then Some(View()) else None
      ensures !ok ==> View() == old(View())
    {
      var startOffset := |buffer|;
      if r.rtype == TYPE_SOA {
        if soaOffset == 0 {
          soaOffset := startOffset;
        } else if oneSoa {
          return false;
        }
      }
      var name := NameBytes(wire, if full then Full else Pointer(namePtr));
      if namePtr == 0 {
        namePtr := startOffset;
      }
      if full && labelLen == 0 {
        labelLen := |wire|;
      }
      var ttl := if r.ttl < TTL_MAX then r.ttl else TTL_MAX;
      buffer := buffer + (name + (BigEndian(r.rtype, 2) + BigEndian(1, 2) + BigEndian(ttl, 4)
                                  + BigEndian(|r.rdata|, 2) + r.rdata));
      index := index + [Ix(r.rtype, startOffset)];
      flags := WithType(flags, r.rtype);
      ok := true;
    }

    /** incrementSoaVersion: the serial of the SOA in the existing entry, plus one, becomes
     *  that of the builder's own SOA.
     */
    method IncrementSoaVersion(existing: Bytes) returns (ok: bool)
      modifies this`buffer
      ensures ok <==> Bumped(old(View()), existing).Some?
      ensures ok ==> Some(View()) == Bumped(old(View()), existing)
      ensures !ok ==> View() == old(View())
    {
      var change := PlanIncrement(existing);
      if change.None? {
        return false;
      }
      SetSerial(change.value.0, (change.value.1 + 1) % Pow256(4));
      ok := true;
    }

    /** The length of the builder's SOA, and the serial that is to be raised. */
    method PlanIncrement(existing: Bytes) returns (change: Option<(nat, nat)>)
      ensures change.None? ==> Bumped(View(), existing) == None
      ensures change.Some? ==>
                && 20 <= change.value.0 && soaOffset + change.value.0 <= |buffer|
                && Bumped(View(), existing) == Some(Bump(View(), change.value.0, change.value.1))
    {
      if soaOffset == 0 {
        return None;
      }
      var serial := ReadSerial(existing);
      var len := ReadSoaSize(buffer, soaOffset);
      change := if serial.None? || len.None? then None else Some((len.value, serial.value));
    }

    method SetSerial(soaLen: nat, serial: nat)
      requires 20 <= soaLen && soaOffset + soaLen <= |buffer|
      modifies this`buffer
      ensures buffer == Patch(old(buffer), soaOffset + soaLen - 20, BigEndian(serial, 4))
    {
      var offset := soaOffset + soaLen - 20;
      buffer := buffer[..offset] + BigEndian(serial, 4) + buffer[offset + 4..];
    }

    method Finish() returns (entry: Option<Bytes>)
      requires HEADER_LEN <= |buffer|
      ensures entry == Finished(View(), sort)
    {
      var order := index;
      if sort {
        var sorted := SortIndex(index);
        if sorted.None? {
          return None;
        }
        order := sorted.value;
      }
      var header := [STORAGE_VERSION, FlagsByte(flags)] + BigEndian(|index|, 2) +
                    [labelLen % 256, zonelen % 256] + BigEndian(|buffer|, 2);
      entry := Some(header + buffer[HEADER_LEN..] + IndexBytes(order));
    }
  }
}
