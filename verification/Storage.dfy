/** The stored form of an entry (src/lib/DnsMessages.cpp, StorageBuilder and Entry):
 *  a header of eight bytes, an optional tenant id, the records, and an index.
 */
module Storage {
  import opened Bytes
  import opened Options
  import opened Labels
  import opened Names
  import opened Differences

  const HEADER_LEN: nat := 8
  const TENANT_LEN: nat := 16
  const STORAGE_VERSION: byte := 1
  const TTL_MAX: nat := 2147483647

  datatype Flags = Flags(soa: bool, ns: bool, a: bool, aaaa: bool, cname: bool, txt: bool, tenantId: bool)

  /** One bit in front of the higher ones. */
  function Bit(b: bool, higher: nat): nat {
    (if b then 1 else 0) + 2 * higher
  }

  function FlagsByte(f: Flags): byte {
    Bit(f.soa, Bit(f.ns, Bit(f.a, Bit(f.aaaa, Bit(f.cname, Bit(f.txt, Bit(false, Bit(f.tenantId, 0))))))))
  }

  function ReadFlags(b: byte): Flags {
    var b0: nat := b;
    var b1 := b0 / 2;
    var b2 := b1 / 2;
    var b3 := b2 / 2;
    var b4 := b3 / 2;
    var b5 := b4 / 2;
    var b7 := b5 / 2 / 2;
    Flags(b0 % 2 == 1, b1 % 2 == 1, b2 % 2 == 1, b3 % 2 == 1, b4 % 2 == 1, b5 % 2 == 1, b7 % 2 == 1)
  }

  lemma {:induction false} BitPeels(b: bool, higher: nat)
    ensures Bit(b, higher) % 2 == 1 <==> b
    ensures Bit(b, higher) / 2 == higher
  {
  }

  lemma {:induction false} FlagsRoundTrip(f: Flags)
    ensures ReadFlags(FlagsByte(f)) == f
  {
    var b7 := Bit(f.tenantId, 0);
    var b6 := Bit(false, b7);
    var b5 := Bit(f.txt, b6);
    var b4 := Bit(f.cname, b5);
    var b3 := Bit(f.aaaa, b4);
    var b2 := Bit(f.a, b3);
    var b1 := Bit(f.ns, b2);
    BitPeels(f.soa, b1);
    BitPeels(f.ns, b2);
    BitPeels(f.a, b3);
    BitPeels(f.aaaa, b4);
    BitPeels(f.cname, b5);
    BitPeels(f.txt, b6);
    BitPeels(false, b7);
    BitPeels(f.tenantId, 0);
  }

  /** StorageBuilder::adding. */
  function WithType(f: Flags, t: nat): Flags {
    if t == 6 then f.(soa := true)
    else if t == 2 then f.(ns := true)
    else if t == 1 then f.(a := true)
    else if t == 28 then f.(aaaa := true)
    else if t == 5 then f.(cname := true)
    else if t == 16 then f.(txt := true)
    else f
  }

  /** A record in a builder: its owner, whether the owner is spelled out or pointed to,
   *  and its data.
   */
  datatype Item = Item(labels: seq<Bytes>, full: bool, rr: Rr)

  ghost predicate HasType(items: seq<Item>, t: nat) {
    exists i :: 0 <= i < |items| && items[i].rr.rtype == t
  }

  ghost function FlagsOf(items: seq<Item>, tenant: bool): Flags {
    Flags(HasType(items, 6), HasType(items, 2), HasType(items, 1), HasType(items, 28), HasType(items, 5),
          HasType(items, 16), tenant)
  }

  lemma {:induction false} HasTypeAppend(items: seq<Item>, x: Item, t: nat)
    ensures HasType(items + [x], t) <==> HasType(items, t) || x.rr.rtype == t
  {
    if HasType(items, t) {
      var i :| 0 <= i < |items| && items[i].rr.rtype == t;
      assert (items + [x])[i].rr.rtype == t;
    }
    if x.rr.rtype == t { assert (items + [x])[|items|].rr.rtype == t; }
  }

  lemma {:induction false} FlagsAppend(items: seq<Item>, x: Item, tenant: bool)
    ensures FlagsOf(items + [x], tenant) == WithType(FlagsOf(items, tenant), x.rr.rtype)
  {
    HasTypeAppend(items, x, 6);
    HasTypeAppend(items, x, 2);
    HasTypeAppend(items, x, 1);
    HasTypeAppend(items, x, 28);
    HasTypeAppend(items, x, 5);
    HasTypeAppend(items, x, 16);
  }

  // ------------------------------------------------------------ building

  datatype Ix = Ix(rtype: nat, offset: nat)

  /** The fields of a StorageBuilder. */
  datatype Builder = Builder(
    buffer: Bytes, index: seq<Ix>, namePtr: nat, labelLen: nat,
    flags: Flags, zonelen: nat, soaOffset: nat, oneSoa: bool)

  function Clamped(r: Rr): Rr {
    r.(ttl := if r.ttl < TTL_MAX then r.ttl else TTL_MAX)
  }

  /** A new builder, with or without a tenant id. */
  function NewBuilder(tenant: Bytes, zonelen: nat, oneSoa: bool): Builder {
    Builder([STORAGE_VERSION, 0, 0, 0, 0, 0, 0, 0] + tenant, [], 0, 0,
            Flags(false, false, false, false, false, false, tenant != []), zonelen, 0, oneSoa)
  }

  /** createRr and finishRr, with the owner spelled out or as a pointer to the first
   *  name; None when a second SOA is refused.
   */
  function Append(b: Builder, wire: Bytes, full: bool, r: Rr): Option<Builder> {
    var at := |b.buffer|;
    if r.rtype == TYPE_SOA && b.soaOffset != 0 && b.oneSoa then None
    else
      Some(b.(buffer := b.buffer + Span(wire, Stored(if full then Full else Pointer(b.namePtr), Clamped(r))),
              index := b.index + [Ix(r.rtype, at)],
              namePtr := if b.namePtr == 0 then at else b.namePtr,
              labelLen := if full && b.labelLen == 0 then |wire| else b.labelLen,
              flags := WithType(b.flags, r.rtype),
              soaOffset := if r.rtype == TYPE_SOA && b.soaOffset == 0 then at else b.soaOffset))
  }

  /** Whether createRr spells the owner out: always for the first record; for another
   *  one when it is not known to be the first name (`oneEntity`) and has another text.
   *  A root name that came first is not recognized again.
   */
  ghost predicate SpelledOut(b: Builder, fqdn: Bytes, oneEntity: bool) {
    b.namePtr == 0 || (!oneEntity && (fqdn == [] || NameText(b.buffer, b.namePtr) != Some(fqdn)))
  }

  /** The bytes that createRr makes room for. */
  function LabelsLen(fqdn: Bytes): nat {
    if fqdn == [] then 1 else |Trim(fqdn)| + 2
  }

  /** A name that can be written in exactly that room, which the source asserts: neither a
   *  single dot nor one that ends in two.
   */
  predicate Spellable(fqdn: Bytes) {
    Writable(Trim(fqdn)) && fqdn != [DOT] && Trim(Trim(fqdn)) == Trim(fqdn)
  }

  lemma {:induction false} SpellableIff(fqdn: Bytes)
    requires Writable(Trim(fqdn))
    ensures |Wire(Split(Trim(fqdn)))| == LabelsLen(fqdn) <==> Spellable(fqdn)
  {
    var name := Trim(fqdn);
    WritableIsValid(fqdn);
    WireLength(Split(name));
  }

  /** createRr; None when a name cannot be written or a second SOA is refused. */
  ghost function CreateRr(b: Builder, fqdn: Bytes, r: Rr, oneEntity: bool): Option<Builder> {
    var full := SpelledOut(b, fqdn, oneEntity);
    if full && !Spellable(fqdn) then None
    else Append(b, WireOf(Split(Trim(fqdn))), full, r)
  }

  function WireOf(labels: seq<Bytes>): Bytes {
    if AllValid(labels) then Wire(labels) else []
  }

  ghost predicate BytesAt(buffer: Bytes, at: nat, bytes: Bytes) {
    HEADER_LEN <= at && at + |bytes| <= |buffer| && buffer[at..at + |bytes|] == bytes
  }

  /** Every record is in the buffer where the index says. */
  ghost predicate HoldsBytes(b: Builder, items: seq<Item>) {
    && |b.index| == |items|
    && (forall i :: 0 <= i < |items| ==> ValidRr(items[i].rr) && b.index[i].rtype == items[i].rr.rtype)
    && (forall i :: 0 <= i < |items| ==> BytesAt(b.buffer, b.index[i].offset, SpanOf(b, items[i])))
    && (forall i, j :: 0 <= i < j < |items| ==> b.index[i].offset + |SpanOf(b, items[i])| <= b.index[j].offset)
  }

  /** The bytes of a record. */
  function SpanOf(b: Builder, x: Item): Bytes {
    Span(WireOf(x.labels), Stored(if x.full then Full else Pointer(b.namePtr), x.rr))
  }

  /** The first owner is spelled out, and an owner that is not is the first one. */
  ghost predicate NamesHold(b: Builder, items: seq<Item>) {
    && (b.namePtr == 0 <==> items == [])
    && (forall i :: 0 <= i < |items| ==> ValidName(items[i].labels))
    && (items != [] ==>
          && items[0].full && |b.index| == |items|
          && b.namePtr == b.index[0].offset < 16384
          && b.labelLen == |WireOf(items[0].labels)|)
    && (items == [] ==> b.labelLen == 0)
    && (forall i :: 0 <= i < |items| && !items[i].full ==> Join(items[i].labels) == Join(items[0].labels))
  }

  /** The builder holds exactly the given records. */
  ghost predicate Holds(b: Builder, items: seq<Item>) {
    && HEADER_LEN <= |b.buffer|
    && HoldsBytes(b, items)
    && NamesHold(b, items)
    && b.flags == FlagsOf(items, b.flags.tenantId)
    && b.soaOffset == (if FirstSoa(items) < |items| then b.index[FirstSoa(items)].offset else 0)
  }

  /** Where the first SOA is; |items| when there is none. */
  function FirstSoa(items: seq<Item>): (k: nat)
    ensures k <= |items| && (k < |items| ==> items[k].rr.rtype == TYPE_SOA)
  {
    if items == [] then 0
    else
      var last, k := |items| - 1, FirstSoa(items[..|items| - 1]);
      if k < last || items[last].rr.rtype == TYPE_SOA then k else |items|
  }

  lemma {:induction false} FirstSoaAppend(items: seq<Item>, x: Item)
    ensures FirstSoa(items + [x]) ==
            if FirstSoa(items) < |items| || x.rr.rtype == TYPE_SOA then FirstSoa(items) else |items| + 1
  {
    assert (items + [x])[..|items|] == items;
  }

  lemma {:induction false} FirstSoaIff(items: seq<Item>)
    ensures FirstSoa(items) < |items| <==> HasType(items, TYPE_SOA)
    ensures forall i :: 0 <= i < FirstSoa(items) ==> i < |items| && items[i].rr.rtype != TYPE_SOA
  {
    if items == [] {
    } else {
      var front := items[..|items| - 1];
      assert items == front + [items[|items| - 1]];
      FirstSoaIff(front);
      HasTypeAppend(front, items[|items| - 1], TYPE_SOA);
    }
  }

  lemma {:induction false} BytesAtAppend(buffer: Bytes, more: Bytes, at: nat, bytes: Bytes)
    requires BytesAt(buffer, at, bytes)
    ensures BytesAt(buffer + more, at, bytes)
  {
    assert (buffer + more)[at..at + |bytes|] == buffer[at..at + |bytes|];
  }

  lemma {:induction false} NewBuilderHolds(tenant: Bytes, zonelen: nat, oneSoa: bool)
    ensures Holds(NewBuilder(tenant, zonelen, oneSoa), [])
  {
  }

  lemma {:induction false} AppendBytes(b: Builder, b': Builder, items: seq<Item>, x: Item)
    requires HoldsBytes(b, items) && HEADER_LEN <= |b.buffer| && ValidRr(x.rr)
    requires b'.namePtr == if b.namePtr == 0 then |b.buffer| else b.namePtr
    requires b.namePtr == 0 ==> items == [] && x.full
    requires b'.buffer == b.buffer + SpanOf(b, x)
    requires b'.index == b.index + [Ix(x.rr.rtype, |b.buffer|)]
    ensures HoldsBytes(b', items + [x])
  {
    var span, items' := SpanOf(b, x), items + [x];
    assert SpanOf(b', x) == span;
    assert BytesAt(b'.buffer, |b.buffer|, span);
    forall i | 0 <= i < |items|
      ensures BytesAt(b'.buffer, b.index[i].offset, SpanOf(b', items'[i]))
      ensures SpanOf(b', items'[i]) == SpanOf(b, items[i])
      ensures b.index[i].offset + |SpanOf(b', items'[i])| <= |b.buffer|
    {
      assert BytesAt(b.buffer, b.index[i].offset, SpanOf(b, items[i]));
      BytesAtAppend(b.buffer, span, b.index[i].offset, SpanOf(b, items[i]));
    }
  }

  lemma {:induction false} SoaOffsetIsSet(b: Builder, items: seq<Item>)
    requires HoldsBytes(b, items)
    requires b.soaOffset == if FirstSoa(items) < |items| then b.index[FirstSoa(items)].offset else 0
    ensures b.soaOffset == 0 <==> FirstSoa(items) == |items|
  {
    if FirstSoa(items) < |items| {
      assert BytesAt(b.buffer, b.index[FirstSoa(items)].offset, SpanOf(b, items[FirstSoa(items)]));
    }
  }

  lemma {:induction false} AppendNames(b: Builder, b': Builder, items: seq<Item>, x: Item)
    requires NamesHold(b, items) && ValidName(x.labels) && (items == [] ==> |b.buffer| < 16384 && x.full)
    requires HEADER_LEN <= |b.buffer| && |b.index| == |items|
    requires b'.namePtr == if b.namePtr == 0 then |b.buffer| else b.namePtr
    requires b'.labelLen == if x.full && b.labelLen == 0 then |WireOf(x.labels)| else b.labelLen
    requires b'.index == b.index + [Ix(x.rr.rtype, |b.buffer|)]
    requires !x.full ==> items != [] && Join(x.labels) == Join(items[0].labels)
    ensures NamesHold(b', items + [x])
  {
    assert items != [] ==> AllValid(items[0].labels) && Wire(items[0].labels) != [];
  }

  /** A new record joins those that the builder holds; exactly a second SOA is refused. */
  lemma {:induction false} AppendHolds(b: Builder, items: seq<Item>, x: Item, r: Rr)
    requires Holds(b, items) && ValidRr(r) && x.rr == Clamped(r) && ValidName(x.labels)
    requires items == [] ==> |b.buffer| < 16384 && x.full
    requires !x.full ==> items != [] && Join(x.labels) == Join(items[0].labels)
    ensures var b' := Append(b, WireOf(x.labels), x.full, r);
            && (b'.None? <==> r.rtype == TYPE_SOA && HasType(items, TYPE_SOA) && b.oneSoa)
            && (b'.Some? ==> Holds(b'.value, items + [x]))
  {
    AppendRefusedIff(b, items, x, r);
    var b' := Append(b, WireOf(x.labels), x.full, r);
    if b'.Some? {
      AppendKept(b, items, x, r, b'.value);
    }
  }

  lemma {:induction false} AppendRefusedIff(b: Builder, items: seq<Item>, x: Item, r: Rr)
    requires Holds(b, items)
    ensures Append(b, WireOf(x.labels), x.full, r).None? <==> r.rtype == TYPE_SOA && HasType(items, TYPE_SOA) && b.oneSoa
  {
    FirstSoaIff(items);
    SoaOffsetIsSet(b, items);
  }

  /** The flags and the place of the first SOA. */
  lemma {:induction false} AppendMarks(b: Builder, items: seq<Item>, x: Item, r: Rr, b': Builder)
    requires Holds(b, items) && x.rr == Clamped(r) && Append(b, WireOf(x.labels), x.full, r) == Some(b')
    ensures var items' := items + [x];
            && b'.flags == FlagsOf(items', b'.flags.tenantId) && |b'.index| == |items'|
            && b'.soaOffset == if FirstSoa(items') < |items'| then b'.index[FirstSoa(items')].offset else 0
  {
    FirstSoaIff(items);
    SoaOffsetIsSet(b, items);
    FlagsAppend(items, x, b.flags.tenantId);
    FirstSoaAppend(items, x);
  }

  lemma {:induction false} AppendKept(b: Builder, items: seq<Item>, x: Item, r: Rr, b': Builder)
    requires Holds(b, items) && ValidRr(r) && x.rr == Clamped(r) && ValidName(x.labels)
    requires items == [] ==> |b.buffer| < 16384 && x.full
    requires !x.full ==> items != [] && Join(x.labels) == Join(items[0].labels)
    requires Append(b, WireOf(x.labels), x.full, r) == Some(b')
    ensures Holds(b', items + [x])
  {
    AppendMarks(b, items, x, r, b');
    AppendBytes(b, b', items, x);
    AppendNames(b, b', items, x);
  }

  // ------------------------------------------------------------ finishing

  /** The sorting table in StorageBuilder::finish. */
  function Rank(t: nat): nat {
    if t == 6 then 1
    else if t == 2 then 2
    else if t == 1 then 3
    else if t == 28 then 4
    else if t == 5 then 5
    else if t == 15 then 6
    else if t == 16 then 7
    else if t < 30 then 9
    else 16
  }

  /** SOA, NS, A, AAAA, CNAME, MX and TXT, in the order in which an entry lists them. */
  const LISTED: seq<nat> := [6, 2, 1, 28, 5, 15, 16]

  /** A record of type `u` may come after one of type `t`: a listed type comes only after
   *  itself and the types listed before it, a type below 30 only after types below 30.
   */
  predicate MayFollow(t: nat, u: nat) {
    && (forall k :: 0 <= k < |LISTED| && u == LISTED[k] ==> t in LISTED[..k + 1])
    && (u < 30 ==> t < 30)
  }

  /** The table gives that order, and nothing else. */
  lemma {:induction false} RankIsOrder(t: nat, u: nat)
    ensures Rank(t) <= Rank(u) <==> MayFollow(t, u)
  {
    forall k | 0 <= k < |LISTED|
      ensures Rank(LISTED[k]) == k + 1
      ensures t in LISTED[..k + 1] <==> Rank(t) <= k + 1
    {
      ListedRank(t, k);
    }
    if u !in LISTED { assert Rank(u) == if u < 30 then 9 else 16; }
  }

  lemma {:induction false} ListedRank(t: nat, k: nat)
    requires k < |LISTED|
    ensures Rank(LISTED[k]) == k + 1
    ensures t in LISTED[..k + 1] <==> Rank(t) <= k + 1
  {
    if k == 0 {
    } else {
      ListedRank(t, k - 1);
      assert LISTED[..k + 1] == LISTED[..k] + [LISTED[k]];
    }
  }

  ghost predicate SortedByRank(index: seq<Ix>) {
    forall i, j :: 0 <= i < j < |index| ==> Rank(index[i].rtype) <= Rank(index[j].rtype)
  }

  function IndexBytes(index: seq<Ix>): (r: Bytes)
    ensures |r| == 4 * |index|
  {
    if index == [] then []
    else
      IndexBytes(index[..|index| - 1]) +
      BigEndian(index[|index| - 1].rtype, 2) + BigEndian(index[|index| - 1].offset, 2)
  }

  function HeaderBytes(b: Builder): (h: Bytes)
    ensures |h| == HEADER_LEN
  {
    [STORAGE_VERSION, FlagsByte(b.flags)] + BigEndian(|b.index|, 2) +
    [b.labelLen % 256, b.zonelen % 256] + BigEndian(|b.buffer|, 2)
  }

  /** finish: commit the header and append the index in the given order. */
  function Finish(b: Builder, index: seq<Ix>): Bytes
    requires HEADER_LEN <= |b.buffer|
  {
    HeaderBytes(b) + b.buffer[HEADER_LEN..] + IndexBytes(index)
  }

  lemma {:induction false} FinishKeeps(b: Builder, index: seq<Ix>, at: nat, bytes: Bytes)
    requires BytesAt(b.buffer, at, bytes)
    ensures BytesAt(Finish(b, index), at, bytes)
  {
    var f := Finish(b, index);
    forall k | 0 <= k < |bytes| ensures f[at..at + |bytes|][k] == bytes[k] {
      assert f[at + k] == b.buffer[at + k] == b.buffer[at..at + |bytes|][k];
    }
  }

  // ------------------------------------------------------------ reading

  /** A record as Rr shows it: the text of its owner, and its data. */
  datatype Record = Record(owner: Bytes, rr: Rr)

  function U16(buffer: Bytes, at: nat): nat
    requires at + 2 <= |buffer|
  {
    FromBigEndian(buffer[at..at + 2])
  }

  function U32(buffer: Bytes, at: nat): nat
    requires at + 4 <= |buffer|
  {
    FromBigEndian(buffer[at..at + 4])
  }

  /** Rr::parse: bytes taken by the owner's name. */
  ghost function LabelLen(buffer: Bytes, off: nat): Option<nat>
    requires off + 2 <= |buffer|
  {
    if buffer[off] == 0 then Some(1)
    else if IsPointer(buffer[off]) then Some(2)
    else
      var name := ParseAt(buffer, off, {}, 0, 0);
      if name.Some? then Some(name.value.bytes) else None
  }

  ghost function NameText(buffer: Bytes, off: nat): Option<Bytes> {
    var name := ParseAt(buffer, off, {}, 0, 0);
    if name.None? then None
    else
      ParseGivesWalk(buffer, off);
      WalkBounds(buffer, off, name.value.path);
      Some(Join(LabelsOf(buffer, name.value.path[..|name.value.path| - 1])))
  }

  /** The part of a record after its name, when the buffer holds all of it. */
  function ReadTail(buffer: Bytes, o: nat): Option<Rr> {
    if o + 10 > |buffer| then None
    else
      var rdlen := U16(buffer, o + 8);
      if o + 10 + rdlen > |buffer| then None
      else Some(Rr(U16(buffer, o), U32(buffer, o + 4), buffer[o + 10..o + 10 + rdlen]))
  }

  ghost function ReadRr(buffer: Bytes, off: nat): Option<Record> {
    if off + 2 > |buffer| || LabelLen(buffer, off).None? then None
    else
      var rr, owner := ReadTail(buffer, off + LabelLen(buffer, off).value), NameText(buffer, off);
      if rr.None? || owner.None? then None else Some(Record(owner.value, rr.value))
  }

  lemma {:induction false} RecordFrom(buffer: Bytes, off: nat, len: nat, owner: Bytes, rr: Rr)
    requires off + 2 <= |buffer| && LabelLen(buffer, off) == Some(len)
    requires NameText(buffer, off) == Some(owner) && ReadTail(buffer, off + len) == Some(rr)
    ensures ReadRr(buffer, off) == Some(Record(owner, rr))
  {
  }

  lemma {:induction false} SliceOf(buffer: Bytes, at: nat, bytes: Bytes, i: nat, j: nat)
    requires BytesAt(buffer, at, bytes) && i <= j <= |bytes|
    ensures buffer[at + i..at + j] == bytes[i..j]
  {
    SubSlice(buffer, at, |bytes|, i, j);
  }

  /** A number written at offset i of some bytes is read back from the buffer. */
  lemma {:induction false} FieldAt(buffer: Bytes, at: nat, bytes: Bytes, i: nat, w: nat, v: nat)
    requires BytesAt(buffer, at, bytes) && i + w <= |bytes|
    requires bytes[i..i + w] == BigEndian(v, w) && v < Pow256(w)
    ensures FromBigEndian(buffer[at + i..at + i + w]) == v
  {
    SliceOf(buffer, at, bytes, i, i + w);
    BigEndianRoundTrip(v, w);
  }

  lemma {:induction false} NumberAt(buffer: Bytes, o: nat, h: Bytes, i: nat, w: nat, v: nat)
    requires BytesAt(buffer, o, h) && i + w <= |h| && h[i..i + w] == BigEndian(v, w) && v < Pow256(w)
    ensures o + i + w <= |buffer| && FromBigEndian(buffer[o + i..o + i + w]) == v
  {
    FieldAt(buffer, o, h, i, w, v);
  }

  lemma {:induction false} HeadAt(buffer: Bytes, o: nat, rtype: nat, ttl: nat, len: nat, h: Bytes)
    requires rtype < Pow256(2) && ttl < Pow256(4) && len < Pow256(2)
    requires |h| == 10 && BytesAt(buffer, o, h)
    requires h[0..2] == BigEndian(rtype, 2) && h[4..8] == BigEndian(ttl, 4) && h[8..10] == BigEndian(len, 2)
    ensures U16(buffer, o) == rtype && U32(buffer, o + 4) == ttl && U16(buffer, o + 8) == len
  {
    assert U16(buffer, o) == rtype by { NumberAt(buffer, o, h, 0, 2, rtype); }
    assert U32(buffer, o + 4) == ttl by { NumberAt(buffer, o, h, 4, 4, ttl); }
    assert U16(buffer, o + 8) == len by { NumberAt(buffer, o, h, 8, 2, len); }
  }

  lemma {:induction false} SplitAt(buffer: Bytes, at: nat, a: Bytes, b: Bytes)
    requires BytesAt(buffer, at, a + b)
    ensures BytesAt(buffer, at, a) && BytesAt(buffer, at + |a|, b)
  {
    SliceOf(buffer, at, a + b, 0, |a|);
    SliceOf(buffer, at, a + b, |a|, |a + b|);
    assert (a + b)[0..|a|] == a && (a + b)[|a|..|a + b|] == b;
  }

  lemma {:induction false} ReadTailAt(buffer: Bytes, o: nat, rr: Rr)
    requires ValidRr(rr) && BytesAt(buffer, o, Tail(rr))
    ensures ReadTail(buffer, o) == Some(rr)
  {
    SplitAt(buffer, o, Head(rr.rtype, rr.ttl, |rr.rdata|), rr.rdata);
    HeadFields(rr.rtype, rr.ttl, |rr.rdata|);
    HeadAt(buffer, o, rr.rtype, rr.ttl, |rr.rdata|, Head(rr.rtype, rr.ttl, |rr.rdata|));
  }

  lemma {:induction false} ReadTailWritten(buffer: Bytes, at: nat, name: Bytes, rr: Rr)
    requires ValidRr(rr) && BytesAt(buffer, at, name + Tail(rr))
    ensures ReadTail(buffer, at + |name|) == Some(rr)
  {
    SplitAt(buffer, at, name, Tail(rr));
    ReadTailAt(buffer, at + |name|, rr);
  }

  /** The owner's name, spelled out at `at`, is read in full. */
  lemma {:induction false} ReadFullName(buffer: Bytes, at: nat, labels: seq<Bytes>, jumped: set<nat>, ptrs: nat)
    requires ValidName(labels) && WrittenAt(buffer, at, labels) && at + |Wire(labels)| <= 65535
    ensures ParseAt(buffer, at, jumped, ptrs, 0) == Some(Name(PathAt(at, labels), |Wire(labels)|))
    ensures LabelsInBuffer(buffer, PathAt(at, labels))
    ensures LabelsOf(buffer, PathAt(at, labels)[..|labels|]) == labels
  {
    ParseWritten(buffer, at, labels, jumped, ptrs, 0);
    ReadWritten(buffer, at, labels);
  }

  lemma {:induction false} FullNameText(buffer: Bytes, at: nat, labels: seq<Bytes>)
    requires ValidName(labels) && WrittenAt(buffer, at, labels) && at + |Wire(labels)| <= 65535
    requires at + 2 <= |buffer|
    ensures NameText(buffer, at) == Some(Join(labels))
    ensures LabelLen(buffer, at) == Some(|Wire(labels)|)
  {
    ReadFullName(buffer, at, labels, {}, 0);
    assert buffer[at] == buffer[at..at + |Wire(labels)|][0] == Wire(labels)[0];
    if labels != [] { assert ValidLabel(labels[0]); }
  }

  /** A pointer to the owner's name reads as that name. */
  lemma {:induction false} PointerText(buffer: Bytes, off: nat, at: nat, labels: seq<Bytes>)
    requires ValidName(labels) && WrittenAt(buffer, at, labels) && at + |Wire(labels)| <= 65535
    requires at < 16384 && off < 65535 && off + 2 <= |buffer|
    requires buffer[off..off + 2] == NameBytes([], Pointer(at))
    ensures NameText(buffer, off) == Some(Join(labels))
    ensures LabelLen(buffer, off) == Some(2)
  {
    assert buffer[off] == buffer[off..off + 2][0] && buffer[off + 1] == buffer[off..off + 2][1];
    assert Target(buffer, off) == at;
    ReadFullName(buffer, at, labels, {at}, 1);
    assert {} + {at} == {at};
  }

  ghost predicate Small(b: Builder) {
    |b.buffer| + 4 * |b.index| < 65536
  }

  lemma {:induction false} FirstNameWritten(b: Builder, items: seq<Item>, index: seq<Ix>)
    requires Holds(b, items) && items != [] && Small(b)
    ensures WrittenAt(Finish(b, index), b.namePtr, items[0].labels)
    ensures b.namePtr + |Wire(items[0].labels)| <= 65535
  {
    HeldAt(b, items, 0);
    NameWritten(b, items[0], index, b.namePtr);
  }

  lemma {:induction false} NameWritten(b: Builder, x: Item, index: seq<Ix>, at: nat)
    requires HEADER_LEN <= |b.buffer| && Small(b) && x.full && ValidName(x.labels)
    requires BytesAt(b.buffer, at, SpanOf(b, x))
    ensures WrittenAt(Finish(b, index), at, x.labels) && at + |Wire(x.labels)| <= 65535
  {
    FinishKeeps(b, index, at, SpanOf(b, x));
    SplitAt(Finish(b, index), at, Wire(x.labels), Tail(x.rr));
  }

  lemma {:induction false} ReadFullRecord(f: Bytes, off: nat, labels: seq<Bytes>, rr: Rr)
    requires ValidName(labels) && ValidRr(rr) && off + |Wire(labels)| <= 65535
    requires BytesAt(f, off, Wire(labels) + Tail(rr))
    ensures ReadRr(f, off) == Some(Record(Join(labels), rr))
  {
    SplitAt(f, off, Wire(labels), Tail(rr));
    FullNameText(f, off, labels);
    ReadTailWritten(f, off, Wire(labels), rr);
    RecordFrom(f, off, |Wire(labels)|, Join(labels), rr);
  }

  lemma {:induction false} ReadPointerRecord(f: Bytes, off: nat, at: nat, labels: seq<Bytes>, rr: Rr)
    requires ValidName(labels) && ValidRr(rr) && WrittenAt(f, at, labels)
    requires at < 16384 && at + |Wire(labels)| <= 65535 && off < 65535
    requires BytesAt(f, off, NameBytes([], Pointer(at)) + Tail(rr))
    ensures ReadRr(f, off) == Some(Record(Join(labels), rr))
  {
    SplitAt(f, off, NameBytes([], Pointer(at)), Tail(rr));
    PointerText(f, off, at, labels);
    ReadTailWritten(f, off, NameBytes([], Pointer(at)), rr);
    RecordFrom(f, off, 2, Join(labels), rr);
  }

  lemma {:induction false} ReadSpan(b: Builder, x: Item, first: seq<Bytes>, index: seq<Ix>, off: nat)
    requires HEADER_LEN <= |b.buffer| && ValidRr(x.rr) && Small(b) && ValidName(x.labels) && ValidName(first)
    requires BytesAt(b.buffer, off, SpanOf(b, x)) && (!x.full ==> Join(x.labels) == Join(first))
    requires WrittenAt(Finish(b, index), b.namePtr, first)
    requires b.namePtr + |Wire(first)| <= 65535 && b.namePtr < 16384
    ensures ReadRr(Finish(b, index), off) == Some(Record(Join(x.labels), x.rr))
  {
    var f := Finish(b, index);
    FinishKeeps(b, index, off, SpanOf(b, x));
    if x.full {
      ReadFullRecord(f, off, x.labels, x.rr);
    } else {
      ReadPointerRecord(f, off, b.namePtr, first, x.rr);
    }
  }

  lemma {:induction false} HeldAt(b: Builder, items: seq<Item>, i: nat)
    requires Holds(b, items) && i < |items|
    ensures ValidRr(items[i].rr) && b.index[i].rtype == items[i].rr.rtype && b.namePtr < 16384
    ensures ValidName(items[i].labels) && ValidName(items[0].labels)
    ensures items[0].full && b.namePtr == b.index[0].offset
    ensures !items[i].full ==> Join(items[i].labels) == Join(items[0].labels)
    ensures BytesAt(b.buffer, b.index[i].offset, SpanOf(b, items[i]))
  {
  }

  /** What Rr::parse finds of a record in the buffer of a builder. */
  lemma {:induction false} SpanParts(buffer: Bytes, off: nat, x: Item, ptr: nat)
    requires ValidName(x.labels) && ValidRr(x.rr) && off + 255 <= 65535 && ptr < 16384
    requires BytesAt(buffer, off, Span(WireOf(x.labels), Stored(if x.full then Full else Pointer(ptr), x.rr)))
    ensures var n := if x.full then |Wire(x.labels)| else 2;
            && off + 2 <= |buffer| && LabelLen(buffer, off) == Some(n)
            && ReadTail(buffer, off + n) == Some(x.rr)
            && n + 10 + |x.rr.rdata| == |Span(WireOf(x.labels), Stored(if x.full then Full else Pointer(ptr), x.rr))|
  {
    var name := if x.full then Wire(x.labels) else NameBytes([], Pointer(ptr));
    SplitAt(buffer, off, name, Tail(x.rr));
    ReadTailWritten(buffer, off, name, x.rr);
    NameLenIs(buffer, off, x, ptr, name);
  }

  lemma {:induction false} NameLenIs(buffer: Bytes, off: nat, x: Item, ptr: nat, name: Bytes)
    requires ValidName(x.labels) && off + 255 <= 65535 && ptr < 16384 && BytesAt(buffer, off, name)
    requires off + 2 <= |buffer|
    requires name == if x.full then Wire(x.labels) else NameBytes([], Pointer(ptr))
    ensures LabelLen(buffer, off) == Some(|name|)
    ensures !x.full ==> |name| == 2
  {
    if x.full {
      WireLength(x.labels);
      FullNameText(buffer, off, x.labels);
    } else {
      assert buffer[off] == buffer[off..off + 2][0];
    }
  }

  /** Each record is read back at the place that the index names. */
  lemma {:induction false} ReadBack(b: Builder, items: seq<Item>, index: seq<Ix>, i: nat)
    requires Holds(b, items) && i < |items| && Small(b)
    ensures ReadRr(Finish(b, index), b.index[i].offset) == Some(Record(Join(items[i].labels), items[i].rr))
  {
    HeldAt(b, items, i);
    FirstNameWritten(b, items, index);
    ReadSpan(b, items[i], items[0].labels, index, b.index[i].offset);
  }

  /** The first name in the buffer of a builder reads as the first owner. */
  lemma {:induction false} DefaultName(b: Builder, items: seq<Item>)
    requires Holds(b, items) && items != []
    ensures NameText(b.buffer, b.namePtr) == Some(Join(items[0].labels))
  {
    HeldAt(b, items, 0);
    var labels := items[0].labels;
    SplitAt(b.buffer, b.namePtr, Wire(labels), Tail(items[0].rr));
    WireLength(labels);
    FullNameText(b.buffer, b.namePtr, labels);
  }

  /** A record to be created. */
  datatype Named = Named(fqdn: Bytes, rr: Rr)

  /** How it is placed after the given ones. */
  function Placed(items: seq<Item>, n: Named, oneEntity: bool): Item {
    if items == [] || (!oneEntity && (n.fqdn == [] || n.fqdn != Join(items[0].labels)))
    then Item(Split(Trim(n.fqdn)), true, Clamped(n.rr))
    else Item(items[0].labels, false, Clamped(n.rr))
  }

  lemma {:induction false} PlacedForm(b: Builder, items: seq<Item>, n: Named, oneEntity: bool)
    requires Holds(b, items)
    ensures Placed(items, n, oneEntity).full <==> SpelledOut(b, n.fqdn, oneEntity)
    ensures SpelledOut(b, n.fqdn, oneEntity) ==> Placed(items, n, oneEntity).labels == Split(Trim(n.fqdn))
  {
    if items != [] { DefaultName(b, items); }
  }

  lemma {:induction false} WritableIsValid(fqdn: Bytes)
    requires Writable(Trim(fqdn))
    ensures ValidName(Split(Trim(fqdn))) && Join(Split(Trim(fqdn))) == Trim(Trim(fqdn))
  {
    var labels := Split(Trim(fqdn));
    JoinSplit(Trim(fqdn));
    TotalLenIsJoin(labels, 0);
  }

  /** When nothing is spelled out the name does not matter. */
  lemma {:induction false} PointerIgnoresName(b: Builder, wire: Bytes, wire': Bytes, r: Rr)
    ensures Append(b, wire, false, r) == Append(b, wire', false, r)
  {
  }

  lemma {:induction false} FirstIsValid(b: Builder, items: seq<Item>)
    requires Holds(b, items) && items != []
    ensures ValidName(items[0].labels)
  {
  }

  /** createRr adds the record with its owner: refused exactly when a name that is to be
   *  spelled out cannot be written, or for a second SOA.
   */
  lemma {:induction false} CreateRrHolds(b: Builder, items: seq<Item>, n: Named, oneEntity: bool)
    requires Holds(b, items) && ValidRr(n.rr) && (items == [] ==> |b.buffer| < 16384)
    ensures var b', x := CreateRr(b, n.fqdn, n.rr, oneEntity), Placed(items, n, oneEntity);
            && (b'.None? <==>
                  || (x.full && !Spellable(n.fqdn))
                  || (n.rr.rtype == TYPE_SOA && HasType(items, TYPE_SOA) && b.oneSoa))
            && (b'.Some? ==> Holds(b'.value, items + [x]))
  {
    var x := Placed(items, n, oneEntity);
    PlacedForm(b, items, n, oneEntity);
    if x.full {
      if Spellable(n.fqdn) {
        WritableIsValid(n.fqdn);
        AppendHolds(b, items, x, n.rr);
      }
    } else {
      FirstIsValid(b, items);
      PointerIgnoresName(b, WireOf(Split(Trim(n.fqdn))), WireOf(x.labels), n.rr);
      AppendHolds(b, items, x, n.rr);
    }
  }

  // ------------------------------------------------------------ the index

  function IxAt(buffer: Bytes, o: nat, i: nat): Ix
    requires o + 4 * i + 4 <= |buffer|
  {
    Ix(U16(buffer, o + 4 * i), U16(buffer, o + 4 * i + 2))
  }

  lemma {:induction false} IndexField(index: seq<Ix>, i: nat)
    requires i < |index|
    ensures IndexBytes(index)[4 * i..4 * i + 2] == BigEndian(index[i].rtype, 2)
    ensures IndexBytes(index)[4 * i + 2..4 * i + 4] == BigEndian(index[i].offset, 2)
  {
    var n := |index| - 1;
    if i == n {
    } else {
      IndexField(index[..n], i);
      var front := IndexBytes(index[..n]);
      assert IndexBytes(index)[4 * i..4 * i + 2] == front[4 * i..4 * i + 2];
      assert IndexBytes(index)[4 * i + 2..4 * i + 4] == front[4 * i + 2..4 * i + 4];
    }
  }

  lemma {:induction false} IndexWritten(b: Builder, index: seq<Ix>)
    requires HEADER_LEN <= |b.buffer|
    ensures |Finish(b, index)| == |b.buffer| + 4 * |index|
    ensures BytesAt(Finish(b, index), |b.buffer|, IndexBytes(index))
  {
    var f, ix := Finish(b, index), IndexBytes(index);
    assert f[|b.buffer|..|b.buffer| + |ix|] == ix;
  }

  lemma {:induction false} IxRead(f: Bytes, o: nat, index: seq<Ix>, i: nat, bytes: Bytes)
    requires i < |index| && bytes == IndexBytes(index) && BytesAt(f, o, bytes)
    requires index[i].rtype < Pow256(2) && index[i].offset < Pow256(2)
    ensures o + 4 * i + 4 <= |f| && IxAt(f, o, i) == index[i]
  {
    IndexField(index, i);
    NumberAt(f, o, bytes, 4 * i, 2, index[i].rtype);
    NumberAt(f, o, bytes, 4 * i + 2, 2, index[i].offset);
  }

  /** The bytes between the name and the data of a record: type, class IN, ttl and length. */
  lemma {:induction false} HeadLayout(rtype: nat, ttl: nat, len: nat)
    requires rtype < Pow256(2) && ttl < Pow256(4) && len < Pow256(2)
    ensures var h := Head(rtype, ttl, len);
            && Shifted(h[0], h[1]) == rtype && h[2] == 0 && h[3] == 1
            && Shifted(Shifted(Shifted(h[4], h[5]), h[6]), h[7]) == ttl
            && Shifted(h[8], h[9]) == len
  {
    HeadFields(rtype, ttl, len);
    BigEndianRoundTrip(rtype, 2);
    BigEndianRoundTrip(ttl, 4);
    BigEndianRoundTrip(len, 2);
    TwoBytes(BigEndian(rtype, 2));
    FourBytes(BigEndian(ttl, 4));
    TwoBytes(BigEndian(len, 2));
    ClassBytes(rtype, ttl, len);
  }

  lemma {:induction false} ClassBytes(rtype: nat, ttl: nat, len: nat)
    ensures Head(rtype, ttl, len)[2..4] == [0, 1]
  {
    assert BigEndian(1, 2) == [0, 1];
  }

  /** The bits of the flags byte. */
  lemma {:induction false} FlagsLayout(f: Flags)
    ensures FlagsByte(f) ==
            (if f.soa then 1 else 0) + (if f.ns then 2 else 0) + (if f.a then 4 else 0) + (if f.aaaa then 8 else 0) +
            (if f.cname then 16 else 0) + (if f.txt then 32 else 0) + (if f.tenantId then 128 else 0)
  {
    assert Bit(f.tenantId, 0) == if f.tenantId then 1 else 0;
    assert Bit(f.txt, Bit(false, Bit(f.tenantId, 0))) == (if f.txt then 1 else 0) + (if f.tenantId then 4 else 0);
  }

  /** The bytes of a finished entry around its records: the header, and at the place that it
   *  names the index, with the type before the offset.
   */
  lemma {:induction false} EntryLayout(b: Builder, index: seq<Ix>, i: nat)
    requires HEADER_LEN <= |b.buffer| < Pow256(2) && |b.index| == |index| < Pow256(2)
    requires i < |index| && index[i].rtype < Pow256(2) && index[i].offset < Pow256(2)
    ensures var f := Finish(b, index);
            && f[0] == 1 && f[1] == FlagsByte(b.flags) && Shifted(f[2], f[3]) == |index|
            && f[4] == b.labelLen % 256 && f[5] == b.zonelen % 256
            && var ix := Shifted(f[6], f[7]) + 4 * i;
               && ix + 4 <= |f|
               && Shifted(f[ix], f[ix + 1]) == index[i].rtype && Shifted(f[ix + 2], f[ix + 3]) == index[i].offset
  {
    var f, o := Finish(b, index), |b.buffer|;
    FinishHeader(b, index);
    IndexWritten(b, index);
    IxRead(f, o, index, i, IndexBytes(index));
    TwoBytes(f[2..4]);
    TwoBytes(f[6..8]);
    TwoBytes(f[o + 4 * i..o + 4 * i + 2]);
    TwoBytes(f[o + 4 * i + 2..o + 4 * i + 4]);
  }

  /** The header of a finished entry. */
  lemma {:induction false} FinishHeader(b: Builder, index: seq<Ix>)
    requires HEADER_LEN <= |b.buffer| && |b.buffer| < Pow256(2) && |b.index| < Pow256(2)
    ensures var f := Finish(b, index);
            && |f| >= HEADER_LEN
            && U16(f, 2) == |b.index| && U16(f, 6) == |b.buffer|
            && ReadFlags(f[1]) == b.flags && f[4] == b.labelLen % 256 && f[5] == b.zonelen % 256
  {
    var f, h := Finish(b, index), HeaderBytes(b);
    assert f[2..4] == h[2..4] == BigEndian(|b.index|, 2);
    assert f[6..8] == h[6..8] == BigEndian(|b.buffer|, 2);
    BigEndianRoundTrip(|b.index|, 2);
    BigEndianRoundTrip(|b.buffer|, 2);
    FlagsRoundTrip(b.flags);
  }

  /** The n index items at o, when the buffer holds them. */
  function IndexAt(buffer: Bytes, o: nat, n: nat): Option<seq<Ix>> {
    if o + 4 * n > |buffer| then None else Some(seq(n, i requires 0 <= i < n => IxAt(buffer, o, i)))
  }

  /** The records that the index names, in its order; None when one is malformed. */
  ghost function ReadEach(buffer: Bytes, index: seq<Ix>): Option<seq<Record>> {
    if index == [] then Some([])
    else
      var front, r := ReadEach(buffer, index[..|index| - 1]), ReadRr(buffer, index[|index| - 1].offset);
      if front.None? || r.None? then None else Some(front.value + [r.value])
  }

  /** Entry and its iterator: the records in the order of the stored index. */
  ghost function ReadEntry(buffer: Bytes): Option<seq<Record>> {
    if |buffer| < HEADER_LEN then None
    else
      var index := IndexAt(buffer, U16(buffer, 6), U16(buffer, 2));
      if index.None? then None else ReadEach(buffer, index.value)
  }

  ghost function RecordOf(buffer: Bytes, ix: Ix): Record {
    if ReadRr(buffer, ix.offset).Some? then ReadRr(buffer, ix.offset).value else Record([], Rr(0, 0, []))
  }

  ghost function RecordsOf(buffer: Bytes, index: seq<Ix>): seq<Record> {
    seq(|index|, i requires 0 <= i < |index| => RecordOf(buffer, index[i]))
  }

  function Without(s: seq<Ix>, j: nat): seq<Ix>
    requires j < |s|
  {
    s[..j] + s[j + 1..]
  }

  lemma {:induction false} WithoutOne(s: seq<Ix>, j: nat)
    requires j < |s|
    ensures multiset(Without(s, j)) == multiset(s) - multiset{s[j]}
  {
    assert s == s[..j] + [s[j]] + s[j + 1..];
  }

  lemma {:induction false} RecordsWithout(buffer: Bytes, s: seq<Ix>, j: nat)
    requires j < |s|
    ensures multiset(RecordsOf(buffer, s)) == multiset(RecordsOf(buffer, Without(s, j))) + multiset{RecordOf(buffer, s[j])}
  {
    var u, v := RecordsOf(buffer, s[..j]), RecordsOf(buffer, s[j + 1..]);
    assert RecordsOf(buffer, s) == u + [RecordOf(buffer, s[j])] + v;
    assert RecordsOf(buffer, Without(s, j)) == u + v;
  }

  /** Reading along a permuted index gives the same records, permuted. */
  lemma {:induction false} RecordsPermute(buffer: Bytes, a: seq<Ix>, c: seq<Ix>)
    requires multiset(a) == multiset(c)
    ensures multiset(RecordsOf(buffer, a)) == multiset(RecordsOf(buffer, c))
    decreases |a|
  {
    if a == [] {
      assert |c| == |multiset(c)| == |multiset(a)|;
    } else {
      assert a[0] in multiset(c);
      var j :| 0 <= j < |c| && c[j] == a[0];
      WithoutOne(a, 0);
      WithoutOne(c, j);
      RecordsPermute(buffer, Without(a, 0), Without(c, j));
      RecordsWithout(buffer, a, 0);
      RecordsWithout(buffer, c, j);
    }
  }

  lemma {:induction false} ReadIndexed(b: Builder, items: seq<Item>, index: seq<Ix>, j: nat)
    requires Holds(b, items) && Small(b) && multiset(index) == multiset(b.index) && j < |index|
    ensures index[j].rtype < Pow256(2) && index[j].offset < Pow256(2)
    ensures ReadRr(Finish(b, index), index[j].offset).Some?
    ensures RecordOf(Finish(b, index), index[j]).rr.rtype == index[j].rtype
  {
    assert index[j] in multiset(b.index);
    var i :| 0 <= i < |b.index| && b.index[i] == index[j];
    ReadBack(b, items, index, i);
    HeldAt(b, items, i);
  }

  lemma {:induction false} ReadLast(f: Bytes, front: seq<Ix>, ix: Ix, recs: seq<Record>)
    requires ReadEach(f, front) == Some(recs) && ReadRr(f, ix.offset).Some?
    ensures ReadEach(f, front + [ix]) == Some(recs + [RecordOf(f, ix)])
  {
    assert (front + [ix])[..|front|] == front;
  }

  lemma {:induction false} RecordsAppend(f: Bytes, index: seq<Ix>, n: nat)
    requires n < |index|
    ensures index[..n + 1] == index[..n] + [index[n]]
    ensures RecordsOf(f, index[..n + 1]) == RecordsOf(f, index[..n]) + [RecordOf(f, index[n])]
  {
  }

  lemma {:induction false} ReadIndex(b: Builder, items: seq<Item>, index: seq<Ix>, n: nat)
    requires Holds(b, items) && Small(b) && multiset(index) == multiset(b.index) && n <= |index|
    ensures ReadEach(Finish(b, index), index[..n]) == Some(RecordsOf(Finish(b, index), index[..n]))
    decreases n
  {
    var f := Finish(b, index);
    if n == 0 {
      assert RecordsOf(f, index[..0]) == [];
    } else {
      ReadIndex(b, items, index, n - 1);
      ReadIndexed(b, items, index, n - 1);
      RecordsAppend(f, index, n - 1);
      ReadLast(f, index[..n - 1], index[n - 1], RecordsOf(f, index[..n - 1]));
    }
  }

  /** The index of a finished entry is read as it was written. */
  lemma {:induction false} FinishedIndex(b: Builder, index: seq<Ix>)
    requires HEADER_LEN <= |b.buffer|
    requires forall i :: 0 <= i < |index| ==> index[i].rtype < Pow256(2) && index[i].offset < Pow256(2)
    ensures IndexAt(Finish(b, index), |b.buffer|, |index|) == Some(index)
  {
    IndexWritten(b, index);
    var f := Finish(b, index);
    forall i | 0 <= i < |index| ensures IxAt(f, |b.buffer|, i) == index[i] {
      IxRead(f, |b.buffer|, index, i, IndexBytes(index));
    }
    assert IndexAt(f, |b.buffer|, |index|).value == index;
  }

  lemma {:induction false} ReadAllIndexed(b: Builder, items: seq<Item>, index: seq<Ix>)
    requires Holds(b, items) && Small(b) && multiset(index) == multiset(b.index)
    ensures IndexAt(Finish(b, index), |b.buffer|, |index|) == Some(index)
    ensures ReadEach(Finish(b, index), index) == Some(RecordsOf(Finish(b, index), index))
  {
    forall j | 0 <= j < |index| ensures index[j].rtype < Pow256(2) && index[j].offset < Pow256(2) {
      ReadIndexed(b, items, index, j);
    }
    FinishedIndex(b, index);
    ReadIndex(b, items, index, |index|);
    assert index[..|index|] == index;
  }

  function Owned(items: seq<Item>): seq<Record> {
    seq(|items|, i requires 0 <= i < |items| => Record(Join(items[i].labels), items[i].rr))
  }

  /** Build, finish, read: Entry yields exactly the records that were created, in
   *  the order of the index; the header has their number and a flag for each of
   *  the types present.
   */
  lemma {:induction false} EntryRoundTrip(b: Builder, items: seq<Item>, index: seq<Ix>)
    returns (recs: seq<Record>)
    requires Holds(b, items) && Small(b) && multiset(index) == multiset(b.index)
    ensures ReadEntry(Finish(b, index)) == Some(recs)
    ensures multiset(recs) == multiset(Owned(items))
    ensures |recs| == |index| && forall j :: 0 <= j < |recs| ==> recs[j].rr.rtype == index[j].rtype
    ensures index == b.index ==> recs == Owned(items)
    ensures ReadFlags(Finish(b, index)[1]) == FlagsOf(items, b.flags.tenantId)
  {
    var f := Finish(b, index);
    assert |index| == |multiset(index)| == |b.index|;
    FinishHeader(b, index);
    ReadAllIndexed(b, items, index);
    recs := RecordsOf(f, index);
    RecordsPermute(f, index, b.index);
    RecordsInOrder(b, items, index);
    RecordTypes(b, items, index);
  }

  lemma {:induction false} RecordsInOrder(b: Builder, items: seq<Item>, index: seq<Ix>)
    requires Holds(b, items) && Small(b)
    ensures RecordsOf(Finish(b, index), b.index) == Owned(items)
  {
    var f := Finish(b, index);
    forall i | 0 <= i < |items| ensures RecordOf(f, b.index[i]) == Record(Join(items[i].labels), items[i].rr) {
      ReadBack(b, items, index, i);
    }
  }

  lemma {:induction false} RecordTypes(b: Builder, items: seq<Item>, index: seq<Ix>)
    requires Holds(b, items) && Small(b) && multiset(index) == multiset(b.index)
    ensures var recs := RecordsOf(Finish(b, index), index);
            forall j :: 0 <= j < |recs| ==> recs[j].rr.rtype == index[j].rtype
  {
    forall j | 0 <= j < |index| ensures RecordOf(Finish(b, index), index[j]).rr.rtype == index[j].rtype {
      ReadIndexed(b, items, index, j);
    }
  }

  // ------------------------------------------------------------ the SOA

  /** In a sorted entry any SOA comes first. */
  lemma {:induction false} SoaIsFirst(recs: seq<Record>, index: seq<Ix>)
    requires SortedByRank(index) && |recs| == |index|
    requires forall j :: 0 <= j < |recs| ==> recs[j].rr.rtype == index[j].rtype
    ensures (exists j :: 0 <= j < |recs| && recs[j].rr.rtype == TYPE_SOA) <==>
            recs != [] && recs[0].rr.rtype == TYPE_SOA
  {
    if j :| 0 <= j < |recs| && recs[j].rr.rtype == TYPE_SOA {
      assert Rank(index[0].rtype) <= Rank(index[j].rtype);
    }
  }

  /** Entry::getSoa looks for a SOA, but returns the first record. */
  method GetSoa(recs: seq<Record>) returns (soa: Option<Record>)
    ensures soa.Some? <==> exists j :: 0 <= j < |recs| && recs[j].rr.rtype == TYPE_SOA
    ensures soa.Some? ==> recs != [] && soa.value == recs[0]
  {
    var j := 0;
    while j < |recs|
      invariant 0 <= j <= |recs|
      invariant forall k :: 0 <= k < j ==> recs[k].rr.rtype != TYPE_SOA
    {
      if recs[j].rr.rtype == TYPE_SOA {
        return Some(recs[0]);
      }
      j := j + 1;
    }
    return None;
  }

  /** RrSoa::serial: the first of the five numbers that end the data. */
  function SerialOf(rdata: Bytes): nat
    requires |rdata| >= 20
  {
    FromBigEndian(rdata[|rdata| - 20..|rdata| - 16])
  }

  function WithSerial(rdata: Bytes, serial: nat): (r: Bytes)
    requires |rdata| >= 20
    ensures |r| == |rdata|
  {
    rdata[..|rdata| - 20] + BigEndian(serial, 4) + rdata[|rdata| - 16..]
  }

  lemma {:induction false} WithSerialReads(rdata: Bytes, serial: nat)
    requires |rdata| >= 20 && serial < Pow256(4)
    ensures SerialOf(WithSerial(rdata, serial)) == serial
    ensures forall i :: 0 <= i < |rdata| && !(|rdata| - 20 <= i < |rdata| - 16) ==> WithSerial(rdata, serial)[i] == rdata[i]
  {
    var r := WithSerial(rdata, serial);
    assert r[|r| - 20..|r| - 16] == BigEndian(serial, 4);
    BigEndianRoundTrip(serial, 4);
  }

  function Patch(buffer: Bytes, o: nat, bytes: Bytes): (r: Bytes)
    requires o + |bytes| <= |buffer|
    ensures |r| == |buffer|
  {
    buffer[..o] + bytes + buffer[o + |bytes|..]
  }

  lemma {:induction false} PatchElsewhere(buffer: Bytes, o: nat, patch: Bytes, at: nat, bytes: Bytes)
    requires BytesAt(buffer, at, bytes) && o + |patch| <= |buffer|
    requires at + |bytes| <= o || o + |patch| <= at
    ensures BytesAt(Patch(buffer, o, patch), at, bytes)
  {
    var p := Patch(buffer, o, patch);
    forall k | 0 <= k < |bytes| ensures p[at..at + |bytes|][k] == bytes[k] {
      assert p[at + k] == buffer[at + k] == buffer[at..at + |bytes|][k];
    }
  }

  lemma {:induction false} PatchInside(buffer: Bytes, at: nat, bytes: Bytes, i: nat, patch: Bytes)
    requires BytesAt(buffer, at, bytes) && i + |patch| <= |bytes|
    ensures BytesAt(Patch(buffer, at + i, patch), at, Patch(bytes, i, patch))
  {
    var p, q := Patch(buffer, at + i, patch), Patch(bytes, i, patch);
    forall k | 0 <= k < |q| ensures p[at..at + |q|][k] == q[k] {
      assert p[at..at + |q|][k] == p[at + k];
      assert bytes[k] == buffer[at..at + |bytes|][k] == buffer[at + k];
    }
  }

  lemma {:induction false} PatchEnd(head: Bytes, rdata: Bytes, patch: Bytes)
    requires |rdata| >= 20 && |patch| == 4
    ensures Patch(head + rdata, |head| + |rdata| - 20, patch) ==
            head + (rdata[..|rdata| - 20] + patch + rdata[|rdata| - 16..])
  {
    var whole, o := head + rdata, |head| + |rdata| - 20;
    assert whole[..o] == head + rdata[..|rdata| - 20];
    assert whole[o + 4..] == rdata[|rdata| - 16..];
  }

  /** The serial is 20 bytes from the end of the record. */
  lemma {:induction false} SpanWithSerial(wire: Bytes, form: NameForm, r: Rr, serial: nat)
    requires |r.rdata| >= 20
    ensures var span := Span(wire, Stored(form, r));
            && |span| >= 20
            && Patch(span, |span| - 20, BigEndian(serial, 4)) ==
               Span(wire, Stored(form, r.(rdata := WithSerial(r.rdata, serial))))
  {
    var head := NameBytes(wire, form) + Head(r.rtype, r.ttl, |r.rdata|);
    var rdata' := WithSerial(r.rdata, serial);
    SpanSplit(wire, form, r);
    SpanSplit(wire, form, r.(rdata := rdata'));
    PatchEnd(head, r.rdata, BigEndian(serial, 4));
  }

  lemma {:induction false} SpanSplit(wire: Bytes, form: NameForm, r: Rr)
    ensures Span(wire, Stored(form, r)) == NameBytes(wire, form) + Head(r.rtype, r.ttl, |r.rdata|) + r.rdata
  {
  }

  /** incrementSoaVersion: the serial of the builder's SOA becomes the serial of
   *  the SOA that is being replaced, plus one.
   */
  function Bump(b: Builder, soaLen: nat, oldSerial: nat): Builder
    requires 20 <= soaLen && b.soaOffset + soaLen <= |b.buffer|
  {
    b.(buffer := Patch(b.buffer, b.soaOffset + soaLen - 20, BigEndian((oldSerial + 1) % Pow256(4), 4)))
  }

  ghost predicate BumpsAt(b: Builder, b': Builder, items: seq<Item>, k: nat, serial: nat)
    requires k < |items| && k < |b.index|
  {
    var o := b.index[k].offset + |SpanOf(b, items[k])| - 20;
    && b' == b.(buffer := b'.buffer)
    && 0 <= o && o + 4 <= |b.buffer|
    && b'.buffer == Patch(b.buffer, o, BigEndian(serial, 4))
  }

  function WithItemSerial(x: Item, serial: nat): Item
    requires |x.rr.rdata| >= 20
  {
    x.(rr := x.rr.(rdata := WithSerial(x.rr.rdata, serial)))
  }

  lemma {:induction false} PatchSpan(buffer: Bytes, at: nat, wire: Bytes, form: NameForm, r: Rr, serial: nat, r': Rr)
    requires |r.rdata| >= 20 && r' == r.(rdata := WithSerial(r.rdata, serial))
    requires BytesAt(buffer, at, Span(wire, Stored(form, r)))
    ensures var len := |Span(wire, Stored(form, r))|;
            && 20 <= len == |Span(wire, Stored(form, r'))|
            && BytesAt(Patch(buffer, at + len - 20, BigEndian(serial, 4)), at, Span(wire, Stored(form, r')))
  {
    var span := Span(wire, Stored(form, r));
    SpanWithSerial(wire, form, r, serial);
    PatchInside(buffer, at, span, |span| - 20, BigEndian(serial, 4));
  }

  lemma {:induction false} BumpSoa(b: Builder, b': Builder, items: seq<Item>, k: nat, serial: nat)
    requires HoldsBytes(b, items) && k < |items| && |items[k].rr.rdata| >= 20
    requires BumpsAt(b, b', items, k, serial)
    ensures BytesAt(b'.buffer, b.index[k].offset, SpanOf(b', WithItemSerial(items[k], serial)))
    ensures |SpanOf(b', WithItemSerial(items[k], serial))| == |SpanOf(b, items[k])|
  {
    var x := items[k];
    assert BytesAt(b.buffer, b.index[k].offset, SpanOf(b, x));
    PatchSpan(b.buffer, b.index[k].offset, WireOf(x.labels), if x.full then Full else Pointer(b.namePtr), x.rr,
              serial, WithItemSerial(x, serial).rr);
  }

  /** The patched serial lies inside record k, so outside record i. */
  lemma {:induction false} SerialApart(b: Builder, items: seq<Item>, k: nat, i: nat)
    requires HoldsBytes(b, items) && k < |items| && |items[k].rr.rdata| >= 20 && i < |items| && i != k
    ensures var o := b.index[k].offset + |SpanOf(b, items[k])| - 20;
            && b.index[k].offset <= o
            && (b.index[i].offset + |SpanOf(b, items[i])| <= o || o + 4 <= b.index[i].offset)
            && BytesAt(b.buffer, b.index[i].offset, SpanOf(b, items[i]))
  {
    SpanSplit(WireOf(items[k].labels), if items[k].full then Full else Pointer(b.namePtr), items[k].rr);
  }

  lemma {:induction false} BumpOther(b: Builder, b': Builder, items: seq<Item>, k: nat, serial: nat, i: nat)
    requires HoldsBytes(b, items) && k < |items| && |items[k].rr.rdata| >= 20 && i < |items| && i != k
    requires BumpsAt(b, b', items, k, serial)
    ensures BytesAt(b'.buffer, b.index[i].offset, SpanOf(b', items[i]))
    ensures SpanOf(b', items[i]) == SpanOf(b, items[i])
  {
    SerialApart(b, items, k, i);
    PatchElsewhere(b.buffer, b.index[k].offset + |SpanOf(b, items[k])| - 20, BigEndian(serial, 4),
                   b.index[i].offset, SpanOf(b, items[i]));
  }

  /** Only the serial of the SOA changes: every other byte of every record stays. */
  lemma {:induction false} BumpBytes(b: Builder, b': Builder, items: seq<Item>, k: nat, serial: nat)
    requires HoldsBytes(b, items) && k < |items| && |items[k].rr.rdata| >= 20
    requires BumpsAt(b, b', items, k, serial)
    ensures HoldsBytes(b', items[k := WithItemSerial(items[k], serial)])
  {
    var items' := items[k := WithItemSerial(items[k], serial)];
    BumpSoa(b, b', items, k, serial);
    forall i | 0 <= i < |items|
      ensures BytesAt(b'.buffer, b.index[i].offset, SpanOf(b', items'[i]))
      ensures |SpanOf(b', items'[i])| == |SpanOf(b, items[i])|
    {
      if i != k { BumpOther(b, b', items, k, serial, i); }
    }
  }

  ghost predicate SameButData(items: seq<Item>, items': seq<Item>) {
    |items| == |items'| &&
    forall i :: 0 <= i < |items| ==>
      items'[i].labels == items[i].labels && items'[i].full == items[i].full && items'[i].rr.rtype == items[i].rr.rtype
  }

  lemma {:induction false} SameFirstSoa(items: seq<Item>, items': seq<Item>)
    requires SameButData(items, items')
    ensures FirstSoa(items) == FirstSoa(items')
  {
    if items == [] {
    } else {
      SameFirstSoa(items[..|items| - 1], items'[..|items| - 1]);
    }
  }

  lemma {:induction false} SameType(items: seq<Item>, items': seq<Item>, t: nat)
    requires SameButData(items, items')
    ensures HasType(items, t) <==> HasType(items', t)
  {
    if i :| 0 <= i < |items| && items[i].rr.rtype == t { assert items'[i].rr.rtype == t; }
    if i :| 0 <= i < |items'| && items'[i].rr.rtype == t { assert items[i].rr.rtype == t; }
  }

  lemma {:induction false} SameFlags(items: seq<Item>, items': seq<Item>, tenant: bool)
    requires SameButData(items, items')
    ensures FlagsOf(items, tenant) == FlagsOf(items', tenant)
  {
    forall t ensures HasType(items, t) <==> HasType(items', t) {
      SameType(items, items', t);
    }
  }

  /** Replacing bytes, not names or types, keeps all that the index and the header say. */
  lemma {:induction false} HoldsRewritten(b: Builder, b': Builder, items: seq<Item>, items': seq<Item>)
    requires Holds(b, items) && b' == b.(buffer := b'.buffer) && |b'.buffer| == |b.buffer|
    requires HoldsBytes(b', items') && SameButData(items, items')
    ensures Holds(b', items')
  {
    SameFirstSoa(items, items');
    SameFlags(items, items', b.flags.tenantId);
  }

  lemma {:induction false} SoaInBuffer(b: Builder, items: seq<Item>, k: nat)
    requires Holds(b, items) && k == FirstSoa(items) < |items| && |items[k].rr.rdata| >= 20
    ensures var len := |SpanOf(b, items[k])|;
            20 <= len && b.soaOffset == b.index[k].offset && b.soaOffset + len <= |b.buffer|
  {
    SpanSplit(WireOf(items[k].labels), if items[k].full then Full else Pointer(b.namePtr), items[k].rr);
    HeldAt(b, items, k);
  }

  lemma {:induction false} BumpIsPatch(b: Builder, items: seq<Item>, k: nat, len: nat, oldSerial: nat)
    requires k < |items| && k < |b.index| && 20 <= len == |SpanOf(b, items[k])|
    requires b.soaOffset == b.index[k].offset && b.soaOffset + len <= |b.buffer|
    ensures BumpsAt(b, Bump(b, len, oldSerial), items, k, (oldSerial + 1) % Pow256(4))
  {
  }

  /** The copied entry keeps every byte but the serial, which is the old one plus
   *  one (modulo 2^32).
   */
  lemma {:induction false} BumpHolds(b: Builder, items: seq<Item>, k: nat, len: nat, oldSerial: nat, items': seq<Item>)
    requires Holds(b, items) && k == FirstSoa(items) < |items| && |items[k].rr.rdata| >= 20
    requires len == |SpanOf(b, items[k])|
    requires items' == items[k := WithItemSerial(items[k], (oldSerial + 1) % Pow256(4))]
    ensures 20 <= len && b.soaOffset + len <= |b.buffer|
    ensures Holds(Bump(b, len, oldSerial), items')
  {
    SoaInBuffer(b, items, k);
    var serial, b' := (oldSerial + 1) % Pow256(4), Bump(b, len, oldSerial);
    BumpIsPatch(b, items, k, len, oldSerial);
    BumpBytes(b, b', items, k, serial);
    HoldsRewritten(b, b', items, items');
  }
}
