/** A difference block as it is stored: an entry with two SOAs, in the order of section 4
 *  of RFC 1995, whose records have two owners (src/lib/RestApi.cpp, createDiffSequence
 *  and addDiff).
 */
module Blocks {
  import opened Bytes
  import opened Options
  import opened Names
  import opened Differences
  import opened Storage
  import opened Entries
  import opened Builders
  import opened StoredEntries

  /** What a SOA record has besides its serial: the ttl, the two names, and the four
   *  numbers that follow the serial.
   */
  datatype SoaRest = SoaRest(ttl: nat, names: Bytes, timers: Bytes)

  datatype Soa = Soa(serial: nat, rest: SoaRest)

  ghost predicate ValidSoa(soa: Soa) {
    && soa.serial < Pow256(4) && soa.rest.ttl <= TTL_MAX
    && |soa.rest.timers| == 16 && |soa.rest.names| + 20 < Pow256(2)
  }

  function SoaRr(soa: Soa): Rr {
    Rr(TYPE_SOA, soa.rest.ttl, soa.rest.names + BigEndian(soa.serial, 4) + soa.rest.timers)
  }

  function SoaFrom(rr: Rr): Soa
    requires |rr.rdata| >= 20
  {
    Soa(SerialOf(rr.rdata), SoaRest(rr.ttl, rr.rdata[..|rr.rdata| - 20], rr.rdata[|rr.rdata| - 16..]))
  }

  lemma {:induction false} SoaRoundTrip(soa: Soa)
    requires ValidSoa(soa)
    ensures |SoaRr(soa).rdata| >= 20 && SoaFrom(SoaRr(soa)) == soa
    ensures ValidRr(SoaRr(soa)) && Clamped(SoaRr(soa)) == SoaRr(soa)
  {
    var rdata := SoaRr(soa).rdata;
    assert rdata[|rdata| - 20..|rdata| - 16] == BigEndian(soa.serial, 4);
    assert rdata[..|rdata| - 20] == soa.rest.names && rdata[|rdata| - 16..] == soa.rest.timers;
    BigEndianRoundTrip(soa.serial, 4);
  }

  /** One entry changed between two versions of the zone. */
  datatype Block = Block(zone: Bytes, oldSoa: Soa, deleted: seq<Rr>, newSoa: Soa, added: seq<Rr>, owner: Bytes)

  /** Records as an entry stores them, without a SOA. */
  ghost predicate DataRrs(rrs: seq<Rr>) {
    forall i :: 0 <= i < |rrs| ==> ValidRr(rrs[i]) && rrs[i].ttl <= TTL_MAX && rrs[i].rtype != TYPE_SOA
  }

  ghost predicate GoodBlock(b: Block) {
    && GoodName(b.zone) && (b.deleted + b.added != [] ==> GoodName(b.owner))
    && ValidSoa(b.oldSoa) && ValidSoa(b.newSoa)
    && DataRrs(b.deleted) && DataRrs(b.added)
  }

  function OwnedRrs(owner: Bytes, rrs: seq<Rr>): (r: seq<Record>)
    ensures |r| == |rrs| && forall i :: 0 <= i < |rrs| ==> r[i] == Record(owner, rrs[i])
  {
    seq(|rrs|, i requires 0 <= i < |rrs| => Record(owner, rrs[i]))
  }

  /** The records of a block: the old SOA, what is deleted, the new SOA, what is added. */
  function BlockRecords(b: Block): seq<Record> {
    [Record(b.zone, SoaRr(b.oldSoa))] + OwnedRrs(b.owner, b.deleted) +
    ([Record(b.zone, SoaRr(b.newSoa))] + OwnedRrs(b.owner, b.added))
  }

  /** The same as createRr gets them. */
  function ToCreate(recs: seq<Record>): (ns: seq<Named>)
    ensures |ns| == |recs| && forall i :: 0 <= i < |recs| ==> ns[i] == Named(recs[i].owner, recs[i].rr)
  {
    seq(|recs|, i requires 0 <= i < |recs| => Named(recs[i].owner, recs[i].rr))
  }

  /** The stored form needs no more than 16-bit offsets. */
  ghost predicate BlockFits(b: Block) {
    Fits(NewBuilder([], 0, false), ToCreate(BlockRecords(b)), false)
  }

  /** Bytes that read as the block. */
  ghost predicate Encodes(bytes: Bytes, b: Block) {
    ReadEntry(bytes) == Some(BlockRecords(b))
  }

  ghost predicate Storable(rec: Record) {
    GoodName(rec.owner) && ValidRr(rec.rr) && Clamped(rec.rr) == rec.rr
  }

  ghost predicate AllStorable(recs: seq<Record>) {
    forall i :: 0 <= i < |recs| ==> Storable(recs[i])
  }

  lemma {:induction false} BlockStorable(b: Block)
    requires GoodBlock(b)
    ensures AllStorable(BlockRecords(b))
  {
    SoaRoundTrip(b.oldSoa);
    SoaRoundTrip(b.newSoa);
    DataStorable(b.owner, b.deleted);
    DataStorable(b.owner, b.added);
  }

  lemma {:induction false} DataStorable(owner: Bytes, rrs: seq<Rr>)
    requires DataRrs(rrs) && (rrs != [] ==> GoodName(owner))
    ensures AllStorable(OwnedRrs(owner, rrs))
  {
  }

  lemma {:induction false} StorableAccepted(recs: seq<Record>)
    requires AllStorable(recs)
    ensures Accepted(ToCreate(recs), false, false)
    ensures Owned(Items(ToCreate(recs), false)) == recs
  {
    var ns := ToCreate(recs);
    var items := Items(ns, false);
    forall i | 0 <= i < |recs| ensures Owned(items)[i] == recs[i] {
      assert Storable(recs[i]);
      OwnersAreNames(ns, false, i);
    }
    forall i | 0 <= i < |ns| && items[i].full ensures Spellable(ns[i].fqdn) {
      assert Storable(recs[i]);
    }
  }

  /** Records of any owners, copied into an unsorted entry, read back as they were. */
  lemma {:induction false} UnsortedReads(recs: seq<Record>)
    requires AllStorable(recs)
    ensures var built := BuildAll(NewBuilder([], 0, false), ToCreate(recs), false);
            && built.Some? && HEADER_LEN <= |built.value.buffer|
            && (Small(built.value) ==> ReadEntry(Finish(built.value, built.value.index)) == Some(recs))
  {
    assert forall i :: 0 <= i < |recs| ==> Storable(recs[i]);
    StorableAccepted(recs);
    StoredEntryReads([], 0, false, false, false, ToCreate(recs));
  }

  /** What a record adds to an entry at most: its name, ten bytes, its data and its index. */
  function Bulk(recs: seq<Record>): nat {
    if recs == [] then 0 else Bulk(recs[..|recs| - 1]) + 269 + |recs[|recs| - 1].rr.rdata|
  }

  lemma {:induction false} AppendSize(b: Builder, wire: Bytes, full: bool, r: Rr)
    requires full ==> |wire| <= 255
    ensures var b' := Append(b, wire, full, r);
            b'.Some? ==>
              |b'.value.buffer| <= |b.buffer| + 265 + |r.rdata| && |b'.value.index| == |b.index| + 1
  {
  }

  lemma {:induction false} CreateSize(b: Builder, n: Named)
    ensures var b' := Storage.CreateRr(b, n.fqdn, n.rr, false);
            b'.Some? ==>
              |b'.value.buffer| <= |b.buffer| + 265 + |n.rr.rdata| && |b'.value.index| == |b.index| + 1
  {
    var full, labels := SpelledOut(b, n.fqdn, false), Split(Trim(n.fqdn));
    if full && Spellable(n.fqdn) {
      WritableIsValid(n.fqdn);
      WireLength(labels);
      AppendSize(b, WireOf(labels), full, n.rr);
    } else if !full {
      AppendSize(b, WireOf(labels), full, n.rr);
    }
  }

  lemma {:induction false} BuildSize(recs: seq<Record>)
    ensures var built := BuildAll(NewBuilder([], 0, false), ToCreate(recs), false);
            built.Some? ==> |built.value.buffer| + 4 * |built.value.index| <= HEADER_LEN + Bulk(recs)
  {
    if recs == [] {
    } else {
      var front, last := recs[..|recs| - 1], recs[|recs| - 1];
      var b, n := NewBuilder([], 0, false), Named(last.owner, last.rr);
      BuildSize(front);
      assert ToCreate(recs) == ToCreate(front) + [n];
      BuildLast(b, ToCreate(front), n, false);
      var mid := BuildAll(b, ToCreate(front), false);
      if mid.Some? { CreateSize(mid.value, n); }
    }
  }

  /** A block of up to about 240 records without much data fits. */
  lemma {:induction false} ShortBlockFits(b: Block)
    requires HEADER_LEN + Bulk(BlockRecords(b)) < 65536
    ensures BlockFits(b)
  {
    BuildSize(BlockRecords(b));
  }

  /** A block that fits has a stored form. */
  lemma {:induction false} StoredForm(b: Block) returns (bytes: Bytes)
    requires GoodBlock(b) && BlockFits(b)
    ensures Encodes(bytes, b)
  {
    var recs := BlockRecords(b);
    BlockStorable(b);
    UnsortedReads(recs);
    var built := BuildAll(NewBuilder([], 0, false), ToCreate(recs), false).value;
    bytes := Finish(built, built.index);
  }

  method AddOne(sb: StorageBuilder, rec: Record, ghost b: Builder, ghost front: seq<Named>, ghost n: Named)
    returns (ok: bool)
    requires BuildAll(b, front, false) == Some(sb.View()) && n == Named(rec.owner, rec.rr)
    modifies sb
    ensures BuildAll(b, front + [n], false) == if ok then Some(sb.View()) else None
  {
    BuildLast(b, front, n, false);
    ok := sb.AddRr(rec);
  }

  /** Copying the records; when it fails, so does copying some of the first ones. */
  method AddAll(recs: seq<Record>) returns (sb: StorageBuilder, ok: bool)
    ensures fresh(sb) && !sb.sort
    ensures ok ==> BuildAll(NewBuilder([], 0, false), ToCreate(recs), false) == Some(sb.View())
    ensures !ok ==> exists n :: 0 <= n <= |recs| && BuildAll(NewBuilder([], 0, false), ToCreate(recs)[..n], false).None?
  {
    sb := new StorageBuilder([], 0, false, false);
    ghost var b, ns, front := NewBuilder([], 0, false), ToCreate(recs), [];
    var n := 0;
    ok := true;
    while n < |recs| && ok
      invariant 0 <= n <= |recs| && front == ns[..n]
      invariant BuildAll(b, front, false) == if ok then Some(sb.View()) else None
      modifies sb
      decreases |recs| - n, ok
    {
      ok := AddOne(sb, recs[n], b, front, ns[n]);
      TakeNext(ns, n);
      front, n := ns[..n + 1], n + 1;
    }
    TakeAll(ns);
  }

  lemma {:induction false} TakeNext<T>(s: seq<T>, n: nat)
    requires n < |s|
    ensures s[..n + 1] == s[..n] + [s[n]]
  {
  }

  lemma {:induction false} TakeAll<T>(s: seq<T>)
    ensures s[..|s|] == s
  {
  }

  lemma {:induction false} AddSucceeds(recs: seq<Record>, n: nat)
    requires AllStorable(recs) && n <= |recs|
    ensures BuildAll(NewBuilder([], 0, false), ToCreate(recs)[..n], false).Some?
  {
    assert ToCreate(recs)[..n] == ToCreate(recs[..n]);
    UnsortedReads(recs[..n]);
  }

  /** addDiff, given the deletions and additions: the entry that is stored reads as the
   *  block, record by record, with the zone as the owner of the SOAs.
   */
  method WriteBlock(b: Block) returns (bytes: Option<Bytes>)
    ensures GoodBlock(b) ==> bytes.Some?
    ensures GoodBlock(b) && BlockFits(b) ==> Encodes(bytes.value, b)
  {
    var recs := BlockRecords(b);
    var sb, ok := AddAll(recs);
    if GoodBlock(b) {
      BlockStorable(b);
      UnsortedReads(recs);
      forall n | 0 <= n <= |recs| ensures BuildAll(NewBuilder([], 0, false), ToCreate(recs)[..n], false).Some? {
        AddSucceeds(recs, n);
      }
    }
    if !ok || |sb.buffer| < HEADER_LEN {
      return None;
    }
    bytes := sb.Finish();
  }

  // ------------------------------------------------------------- transferred

  /** A record in a zone transfer. */
  datatype Rec = SoaRec(owner: Bytes, soa: Soa) | DataRec(owner: Bytes, rr: Rr)

  function RecOf(r: Record): Rec {
    if r.rr.rtype == TYPE_SOA && |r.rr.rdata| >= 20 then SoaRec(r.owner, SoaFrom(r.rr)) else DataRec(r.owner, r.rr)
  }

  function RecsOf(recs: seq<Record>): (r: seq<Rec>)
    ensures |r| == |recs| && forall i :: 0 <= i < |recs| ==> r[i] == RecOf(recs[i])
  {
    seq(|recs|, i requires 0 <= i < |recs| => RecOf(recs[i]))
  }

  function DataRecs(owner: Bytes, rrs: seq<Rr>): (r: seq<Rec>)
    ensures |r| == |rrs| && forall i :: 0 <= i < |rrs| ==> r[i] == DataRec(owner, rrs[i])
  {
    seq(|rrs|, i requires 0 <= i < |rrs| => DataRec(owner, rrs[i]))
  }

  /** A block as it is sent: in the order in which it was stored. */
  function BlockRecs(b: Block): seq<Rec> {
    [SoaRec(b.zone, b.oldSoa)] + DataRecs(b.owner, b.deleted) + [SoaRec(b.zone, b.newSoa)] + DataRecs(b.owner, b.added)
  }

  /** What is read of a stored block is the block. */
  lemma {:induction false} RecordsAreBlock(b: Block)
    requires GoodBlock(b)
    ensures RecsOf(BlockRecords(b)) == BlockRecs(b)
  {
    SoaRoundTrip(b.oldSoa);
    SoaRoundTrip(b.newSoa);
    assert RecsOf(OwnedRrs(b.owner, b.deleted)) == DataRecs(b.owner, b.deleted);
    assert RecsOf(OwnedRrs(b.owner, b.added)) == DataRecs(b.owner, b.added);
    var first, second := [Record(b.zone, SoaRr(b.oldSoa))], [Record(b.zone, SoaRr(b.newSoa))];
    assert RecsOf(first) == [SoaRec(b.zone, b.oldSoa)] && RecsOf(second) == [SoaRec(b.zone, b.newSoa)];
    RecsOfConcat(first, OwnedRrs(b.owner, b.deleted));
    RecsOfConcat(second, OwnedRrs(b.owner, b.added));
    RecsOfConcat(first + OwnedRrs(b.owner, b.deleted), second + OwnedRrs(b.owner, b.added));
  }

  lemma {:induction false} RecsOfConcat(a: seq<Record>, b: seq<Record>)
    ensures RecsOf(a + b) == RecsOf(a) + RecsOf(b)
  {
  }
}
