/** Whole entries: every list of records that is built and finished reads back, and the
 *  copy of a zone's apex differs from it in the serial only.
 */
module StoredEntries {
  import opened Bytes
  import opened Options
  import opened Labels
  import opened Names
  import opened Differences
  import opened Storage
  import opened Entries
  import opened Builders

  /** Creating records one after the other; None when one of them is refused. */
  ghost function BuildAll(b: Builder, ns: seq<Named>, oneEntity: bool): Option<Builder> {
    if ns == [] then Some(b)
    else
      var front, last := BuildAll(b, ns[..|ns| - 1], oneEntity), ns[|ns| - 1];
      if front.None? then None else Storage.CreateRr(front.value, last.fqdn, last.rr, oneEntity)
  }

  /** How they are placed. */
  function Items(ns: seq<Named>, oneEntity: bool): (items: seq<Item>)
    ensures |items| == |ns|
    ensures forall i :: 0 <= i < |ns| ==> items[i].rr == Clamped(ns[i].rr)
  {
    if ns == [] then []
    else
      var front := Items(ns[..|ns| - 1], oneEntity);
      front + [Placed(front, ns[|ns| - 1], oneEntity)]
  }

  /** No name that is spelled out is refused, nor a second SOA. */
  ghost predicate Accepted(ns: seq<Named>, oneEntity: bool, oneSoa: bool) {
    AllWritable(ns, Items(ns, oneEntity)) && (oneSoa ==> OneSoa(ns))
  }

  ghost predicate OneSoa(ns: seq<Named>) {
    forall i, j :: 0 <= i < j < |ns| ==> !(ns[i].rr.rtype == TYPE_SOA && ns[j].rr.rtype == TYPE_SOA)
  }

  lemma {:induction false} OneSoaAppend(front: seq<Named>, n: Named, items: seq<Item>)
    requires |items| == |front| && forall i :: 0 <= i < |front| ==> items[i].rr.rtype == front[i].rr.rtype
    ensures OneSoa(front + [n]) <==> OneSoa(front) && !(n.rr.rtype == TYPE_SOA && HasType(items, TYPE_SOA))
  {
    var ns := front + [n];
    assert forall i :: 0 <= i < |front| ==> ns[i] == front[i];
    if n.rr.rtype == TYPE_SOA && HasType(items, TYPE_SOA) {
      var i :| 0 <= i < |items| && items[i].rr.rtype == TYPE_SOA;
      assert ns[i].rr.rtype == TYPE_SOA && ns[|front|].rr.rtype == TYPE_SOA;
    } else if OneSoa(front) {
      forall i, j | 0 <= i < j < |ns| ensures !(ns[i].rr.rtype == TYPE_SOA && ns[j].rr.rtype == TYPE_SOA) {
        if j < |front| { assert ns[j] == front[j]; } else { assert items[i].rr.rtype == ns[i].rr.rtype; }
      }
    } else {
      var i, j :| 0 <= i < j < |front| && front[i].rr.rtype == TYPE_SOA && front[j].rr.rtype == TYPE_SOA;
      assert ns[i].rr.rtype == TYPE_SOA && ns[j].rr.rtype == TYPE_SOA;
    }
  }

  lemma {:induction false} AcceptedAppend(front: seq<Named>, n: Named, oneEntity: bool, oneSoa: bool)
    ensures var items := Items(front, oneEntity);
            && Items(front + [n], oneEntity) == items + [Placed(items, n, oneEntity)]
            && (Accepted(front + [n], oneEntity, oneSoa) <==>
                  && Accepted(front, oneEntity, oneSoa)
                  && !(Placed(items, n, oneEntity).full && !Spellable(n.fqdn))
                  && !(n.rr.rtype == TYPE_SOA && HasType(items, TYPE_SOA) && oneSoa))
  {
    var items := Items(front, oneEntity);
    OneSoaAppend(front, n, items);
    ItemsAppend(front, n, oneEntity);
    WritableAppend(front, n, items, Placed(items, n, oneEntity));
  }

  lemma {:induction false} ItemsAppend(front: seq<Named>, n: Named, oneEntity: bool)
    ensures Items(front + [n], oneEntity) == Items(front, oneEntity) + [Placed(Items(front, oneEntity), n, oneEntity)]
  {
    assert (front + [n])[..|front|] == front;
  }

  ghost predicate AllWritable(ns: seq<Named>, items: seq<Item>)
    requires |items| == |ns|
  {
    forall i :: 0 <= i < |ns| && items[i].full ==> Spellable(ns[i].fqdn)
  }

  lemma {:induction false} WritableAppend(front: seq<Named>, n: Named, items: seq<Item>, x: Item)
    requires |items| == |front|
    ensures AllWritable(front + [n], items + [x]) <==> AllWritable(front, items) && !(x.full && !Spellable(n.fqdn))
  {
    var ns, all := front + [n], items + [x];
    assert forall i :: 0 <= i < |front| ==> all[i] == items[i] && ns[i] == front[i];
    assert all[|front|] == x && ns[|front|] == n;
  }

  lemma {:induction false} AppendFrame(b: Builder, wire: Bytes, full: bool, r: Rr)
    ensures var b' := Append(b, wire, full, r);
            b'.Some? ==>
              && b'.value.oneSoa == b.oneSoa && b'.value.zonelen == b.zonelen
              && b'.value.flags.tenantId == b.flags.tenantId
  {
  }

  lemma {:induction false} CreateFrame(b: Builder, fqdn: Bytes, r: Rr, oneEntity: bool)
    ensures var b' := Storage.CreateRr(b, fqdn, r, oneEntity);
            b'.Some? ==>
              && b'.value.oneSoa == b.oneSoa && b'.value.zonelen == b.zonelen
              && b'.value.flags.tenantId == b.flags.tenantId
  {
    AppendFrame(b, WireOf(Split(Trim(fqdn))), SpelledOut(b, fqdn, oneEntity), r);
  }

  /** b' is b with the records added. */
  ghost predicate Built(b: Builder, b': Builder, items: seq<Item>) {
    && Holds(b', items) && (items == [] ==> b' == b)
    && b'.oneSoa == b.oneSoa && b'.zonelen == b.zonelen && b'.flags.tenantId == b.flags.tenantId
  }

  lemma {:induction false} BuiltStep(b: Builder, mid: Builder, items: seq<Item>, n: Named, oneEntity: bool)
    requires Built(b, mid, items) && |b.buffer| < 16384 && ValidRr(n.rr)
    ensures var next, x := Storage.CreateRr(mid, n.fqdn, n.rr, oneEntity), Placed(items, n, oneEntity);
            && (next.None? <==>
                  || (x.full && !Spellable(n.fqdn))
                  || (n.rr.rtype == TYPE_SOA && HasType(items, TYPE_SOA) && b.oneSoa))
            && (next.Some? ==> Built(b, next.value, items + [x]))
  {
    CreateRrHolds(mid, items, n, oneEntity);
    CreateFrame(mid, n.fqdn, n.rr, oneEntity);
  }

  lemma {:induction false} BuildLast(b: Builder, front: seq<Named>, n: Named, oneEntity: bool)
    ensures BuildAll(b, front + [n], oneEntity) ==
            var mid := BuildAll(b, front, oneEntity);
            if mid.None? then None else Storage.CreateRr(mid.value, n.fqdn, n.rr, oneEntity)
  {
    assert (front + [n])[..|front|] == front;
  }

  /** Building is refused exactly when a record is, and otherwise holds them all. */
  lemma {:induction false} BuildAllHolds(b: Builder, ns: seq<Named>, oneEntity: bool)
    requires Holds(b, []) && |b.buffer| < 16384 && forall i :: 0 <= i < |ns| ==> ValidRr(ns[i].rr)
    ensures BuildAll(b, ns, oneEntity).Some? <==> Accepted(ns, oneEntity, b.oneSoa)
    ensures BuildAll(b, ns, oneEntity).Some? ==> Built(b, BuildAll(b, ns, oneEntity).value, Items(ns, oneEntity))
    decreases |ns|
  {
    if ns == [] {
    } else {
      var front, n := ns[..|ns| - 1], ns[|ns| - 1];
      assert ns == front + [n];
      BuildAllHolds(b, front, oneEntity);
      AcceptedAppend(front, n, oneEntity, b.oneSoa);
      BuildLast(b, front, n, oneEntity);
      var mid := BuildAll(b, front, oneEntity);
      if mid.Some? { BuiltStep(b, mid.value, Items(front, oneEntity), n, oneEntity); }
    }
  }

  /** Round trip: for every list of records. Building is refused exactly for a name that
   *  cannot be written or a second SOA. Finishing fails exactly when it sorts two or more
   *  records of which one has a type outside of the table. Otherwise the entry reads as
   *  those records with their owners, the ttl limited.
   */
  lemma {:induction false} StoredEntryReads(tenant: Bytes, zonelen: nat, oneEntity: bool, oneSoa: bool, sort: bool,
                                            ns: seq<Named>)
    requires |tenant| <= TENANT_LEN && forall i :: 0 <= i < |ns| ==> ValidRr(ns[i].rr)
    ensures var built, items := BuildAll(NewBuilder(tenant, zonelen, oneSoa), ns, oneEntity), Items(ns, oneEntity);
            && (built.Some? <==> Accepted(ns, oneEntity, oneSoa))
            && (built.Some? ==>
                  && HEADER_LEN <= |built.value.buffer|
                  && var entry := Finished(built.value, sort);
                     && (entry.None? <==> sort && !Sortable(items))
                     && (entry.Some? && Small(built.value) ==>
                           Reads(entry.value, Owned(items), sort, tenant != [], zonelen)))
  {
    var b := NewBuilder(tenant, zonelen, oneSoa);
    NewBuilderHolds(tenant, zonelen, oneSoa);
    BuildAllHolds(b, ns, oneEntity);
    var built := BuildAll(b, ns, oneEntity);
    if built.Some? {
      var items := Items(ns, oneEntity);
      FinishFailsIff(built.value, items, sort);
      if Finished(built.value, sort).Some? && Small(built.value) { FinishedReads(built.value, items, sort); }
    }
  }

  /** A name as the server stores it: it can be written, and has no final dot. */
  predicate GoodName(fqdn: Bytes) {
    Writable(fqdn) && Trim(fqdn) == fqdn
  }

  lemma {:induction false} GoodNameText(fqdn: Bytes)
    requires GoodName(fqdn)
    ensures Join(Split(Trim(fqdn))) == fqdn
  {
    JoinSplit(fqdn);
  }

  /** The owners that are read are those that were given; all the first one when the
   *  records are known to have one owner.
   */
  lemma {:induction false} OwnersAreNames(ns: seq<Named>, oneEntity: bool, i: nat)
    requires i < |ns| && forall j :: 0 <= j < |ns| ==> GoodName(ns[j].fqdn)
    ensures Join(Items(ns, oneEntity)[i].labels) == if oneEntity then ns[0].fqdn else ns[i].fqdn
    decreases |ns|
  {
    var front, n := ns[..|ns| - 1], ns[|ns| - 1];
    GoodNameText(n.fqdn);
    if front == [] {
    } else if i < |front| {
      OwnersAreNames(front, oneEntity, i);
    } else {
      OwnersAreNames(front, oneEntity, 0);
    }
  }

  /** Two records, one of a type of 255 or more, are built but not finished. */
  lemma {:induction false} OutsideTableIsRefused(fqdn: Bytes, a: Bytes, b: Bytes)
    requires GoodName(fqdn) && |a| < 1000 && |b| < 1000
    ensures var ns := [Named(fqdn, Rr(257, 0, a)), Named(fqdn, Rr(1, 0, b))];
            var built := BuildAll(NewBuilder([], 0, true), ns, true);
            built.Some? && HEADER_LEN <= |built.value.buffer| && Finished(built.value, true) == None
  {
    var ns := [Named(fqdn, Rr(257, 0, a)), Named(fqdn, Rr(1, 0, b))];
    StoredEntryReads([], 0, true, true, true, ns);
    var items := Items(ns, true);
    assert items[0].rr.rtype == 257;
    assert ns[..1] == [ns[0]] && ns[..1][..0] == [];
    assert Items(ns[..1], true) == [Placed([], ns[0], true)];
    assert !items[1].full;
    NewBuilderHolds([], 0, true);
    BuildAllHolds(NewBuilder([], 0, true), ns, true);
  }

  // ------------------------------------------------------ the copy of an apex

  /** The records of a zone's apex: one owner, the SOA first, no other SOA. */
  ghost predicate ApexRecords(recs: seq<Record>) {
    && recs != [] && recs[0].rr.rtype == TYPE_SOA && |recs[0].rr.rdata| >= 20 && GoodName(recs[0].owner)
    && (forall i :: 0 <= i < |recs| ==>
          ValidRr(recs[i].rr) && recs[i].rr.ttl <= TTL_MAX && recs[i].owner == recs[0].owner)
    && (forall i :: 0 < i < |recs| ==> recs[i].rr.rtype != TYPE_SOA)
  }

  /** The same records with the serial raised by one. */
  function Incremented(recs: seq<Record>): seq<Record>
    requires recs != [] && |recs[0].rr.rdata| >= 20
  {
    var soa := recs[0].rr;
    recs[0 := recs[0].(rr := soa.(rdata := WithSerial(soa.rdata, (SerialOf(soa.rdata) + 1) % Pow256(4))))]
  }

  /** The records to be created again, with the owner of the first one. */
  function CopyOf(recs: seq<Record>): (ns: seq<Named>)
    ensures |ns| == |recs|
  {
    seq(|recs|, i requires 0 <= i < |recs| => Named(recs[0].owner, recs[i].rr))
  }

  /** Offsets into the finished entry need no more than 16 bits. */
  ghost predicate Fits(b: Builder, ns: seq<Named>, oneEntity: bool) {
    var built := BuildAll(b, ns, oneEntity);
    built.Some? ==> Small(built.value)
  }

  ghost predicate InTableOrOne(recs: seq<Record>) {
    |recs| < 2 || forall i :: 0 <= i < |recs| ==> recs[i].rr.rtype < TABLE_LEN
  }

  lemma {:induction false} ApexItems(recs: seq<Record>)
    requires ApexRecords(recs)
    ensures var ns := CopyOf(recs);
            && Accepted(ns, true, true)
            && Owned(Items(ns, true)) == recs
            && (Sortable(Items(ns, true)) <==> InTableOrOne(recs))
            && Items(ns, true)[0].full
  {
    var ns := CopyOf(recs);
    var items := Items(ns, true);
    ItemsPointBack(ns);
    forall i | 0 <= i < |recs| ensures Owned(items)[i] == recs[i] && items[i].rr.rtype == recs[i].rr.rtype {
      OwnersAreNames(ns, true, i);
    }
  }

  lemma {:induction false} ItemsPointBack(ns: seq<Named>)
    ensures forall i :: 0 <= i < |ns| ==> (Items(ns, true)[i].full <==> i == 0)
  {
    if ns == [] {
    } else {
      ItemsPointBack(ns[..|ns| - 1]);
    }
  }

  lemma {:induction false} SizeOfSpan(buffer: Bytes, off: nat, x: Item, ptr: nat, len: nat)
    requires ValidName(x.labels) && ValidRr(x.rr) && |x.rr.rdata| >= 20 && off + 255 <= 65535 && ptr < 16384
    requires len == |Span(WireOf(x.labels), Stored(if x.full then Full else Pointer(ptr), x.rr))|
    requires BytesAt(buffer, off, Span(WireOf(x.labels), Stored(if x.full then Full else Pointer(ptr), x.rr)))
    ensures SoaSize(buffer, off) == Some(len)
  {
    SpanParts(buffer, off, x, ptr);
  }

  lemma {:induction false} SoaAtFront(b: Builder, items: seq<Item>)
    requires Holds(b, items) && items != [] && items[0].rr.rtype == TYPE_SOA
    ensures FirstSoa(items) == 0 && b.soaOffset == b.index[0].offset && b.soaOffset != 0
  {
    FirstSoaIff(items);
    SoaOffsetIsSet(b, items);
  }

  /** The builder's own SOA is the first record. */
  lemma {:induction false} OwnSoa(b: Builder, items: seq<Item>, len: nat)
    requires Holds(b, items) && items != [] && items[0].rr.rtype == TYPE_SOA && |items[0].rr.rdata| >= 20
    requires len == |SpanOf(b, items[0])|
    ensures FirstSoa(items) == 0 && b.soaOffset != 0 && SoaSize(b.buffer, b.soaOffset) == Some(len)
  {
    SoaAtFront(b, items);
    HeldAt(b, items, 0);
    SizeOfSpan(b.buffer, b.soaOffset, items[0], b.namePtr, len);
  }

  lemma {:induction false} SerialInApex(existing: Bytes, recs: seq<Record>)
    requires ReadEntry(existing) == Some(recs) && recs != [] && recs[0].rr.rtype == TYPE_SOA && |recs[0].rr.rdata| >= 20
    ensures SerialIn(existing) == Some(SerialOf(recs[0].rr.rdata))
  {
  }

  lemma {:induction false} BumpedIs(b: Builder, existing: Bytes, len: nat, serial: nat)
    requires b.soaOffset != 0 && SoaSize(b.buffer, b.soaOffset) == Some(len) && SerialIn(existing) == Some(serial)
    ensures 20 <= len && b.soaOffset + len <= |b.buffer| && Bumped(b, existing) == Some(Bump(b, len, serial))
  {
  }

  /** Raising the serial in a copy of an apex. */
  lemma {:induction false} BumpedCopy(b: Builder, items: seq<Item>, serial: nat, existing: Bytes, items': seq<Item>)
    returns (b': Builder)
    requires Holds(b, items) && items != [] && items[0].rr.rtype == TYPE_SOA && |items[0].rr.rdata| >= 20
    requires SerialIn(existing) == Some(serial) && Small(b)
    requires items' == items[0 := WithItemSerial(items[0], (serial + 1) % Pow256(4))]
    ensures Bumped(b, existing) == Some(b') && Holds(b', items')
    ensures Small(b') && b'.flags == b.flags && b'.zonelen == b.zonelen
  {
    var len := |SpanOf(b, items[0])|;
    OwnSoa(b, items, len);
    BumpedIs(b, existing, len, serial);
    BumpHolds(b, items, 0, len, serial, items');
    b' := Bump(b, len, serial);
  }

  lemma {:induction false} IncrementedItems(items: seq<Item>, recs: seq<Record>, items': seq<Item>)
    requires recs != [] && |recs[0].rr.rdata| >= 20 && Owned(items) == recs && |items| == |recs|
    requires items[0].rr == recs[0].rr
    requires items' == items[0 := WithItemSerial(items[0], (SerialOf(recs[0].rr.rdata) + 1) % Pow256(4))]
    ensures Owned(items') == Incremented(recs)
  {
    forall i | 0 <= i < |recs| ensures Owned(items')[i] == Incremented(recs)[i] {
      assert Owned(items)[i] == recs[i];
    }
  }

  /** The copy of an apex: None exactly when finish cannot sort it, otherwise all the
   *  records with the serial raised by one.
   */
  ghost predicate IsCopy(entry: Option<Bytes>, recs: seq<Record>, tenant: bool)
    requires recs != [] && |recs[0].rr.rdata| >= 20
  {
    && (entry.None? <==> !InTableOrOne(recs))
    && (entry.Some? ==> Reads(entry.value, Incremented(recs), true, tenant, 0))
  }

  lemma {:induction false} CopyReads(b: Builder, items: seq<Item>, recs: seq<Record>, tenant: bool)
    requires recs != [] && |recs[0].rr.rdata| >= 20
    requires Owned(items) == Incremented(recs) && (Sortable(items) <==> InTableOrOne(recs))
    requires Holds(b, items) && Small(b) && b.flags.tenantId == tenant && b.zonelen == 0
    ensures HEADER_LEN <= |b.buffer| && IsCopy(Finished(b, true), recs, tenant)
  {
    FinishedCopy(b, items);
  }

  lemma {:induction false} CopyFacts(items: seq<Item>, recs: seq<Record>, serial: nat) returns (items': seq<Item>)
    requires recs != [] && |recs[0].rr.rdata| >= 20 && Owned(items) == recs && |items| == |recs|
    requires items[0].rr == recs[0].rr && (Sortable(items) <==> InTableOrOne(recs))
    requires serial == SerialOf(recs[0].rr.rdata)
    ensures items' == items[0 := WithItemSerial(items[0], (serial + 1) % Pow256(4))]
    ensures Owned(items') == Incremented(recs) && (Sortable(items') <==> InTableOrOne(recs))
  {
    items' := items[0 := WithItemSerial(items[0], (serial + 1) % Pow256(4))];
    IncrementedItems(items, recs, items');
    StillSortable(items, items');
  }

  lemma {:induction false} StillSortable(items: seq<Item>, items': seq<Item>)
    requires |items'| == |items| && forall i :: 0 <= i < |items| ==> items'[i].rr.rtype == items[i].rr.rtype
    ensures Sortable(items') <==> Sortable(items)
  {
  }

  lemma {:induction false} FinishedCopy(b: Builder, items: seq<Item>)
    requires Holds(b, items) && Small(b)
    ensures Finished(b, true).None? <==> !Sortable(items)
    ensures Finished(b, true).Some? ==>
              Reads(Finished(b, true).value, Owned(items), true, b.flags.tenantId, b.zonelen)
  {
    FinishFailsIff(b, items, true);
    if Finished(b, true).Some? { FinishedReads(b, items, true); }
  }

  /** One round of the loop that creates the records again. */
  method CopyOne(sb: StorageBuilder, fqdn: Bytes, rr: Rr, ghost b: Builder, ghost front: seq<Named>) returns (ok: bool)
    requires BuildAll(b, front, true) == Some(sb.View())
    modifies sb
    ensures BuildAll(b, front + [Named(fqdn, rr)], true) == if ok then Some(sb.View()) else None
  {
    BuildLast(b, front, Named(fqdn, rr), true);
    ok := sb.CreateRr(fqdn, rr, true);
  }

  /** The loop; when it fails, so does creating some of the first records. */
  method CopyAll(recs: seq<Record>, tenant: Bytes) returns (sb: StorageBuilder, ok: bool)
    requires recs != []
    ensures fresh(sb) && sb.sort
    ensures ok ==> BuildAll(NewBuilder(tenant, 0, true), CopyOf(recs), true) == Some(sb.View())
    ensures !ok ==> exists n :: 0 <= n <= |recs| && BuildAll(NewBuilder(tenant, 0, true), CopyOf(recs)[..n], true).None?
  {
    sb := new StorageBuilder(tenant, 0, true, true);
    ghost var b, ns := NewBuilder(tenant, 0, true), CopyOf(recs);
    var n := 0;
    ok := true;
    while n < |recs| && ok
      invariant 0 <= n <= |recs|
      invariant BuildAll(b, ns[..n], true) == if ok then Some(sb.View()) else None
      modifies sb
      decreases |recs| - n, ok
    {
      assert ns[..n + 1] == ns[..n] + [Named(recs[0].owner, recs[n].rr)];
      ok := CopyOne(sb, recs[0].owner, recs[n].rr, b, ns[..n]);
      n := n + 1;
    }
    assert ok ==> ns[..n] == ns;
  }

  lemma {:induction false} ItemsPrefix(ns: seq<Named>, oneEntity: bool, n: nat)
    requires n <= |ns|
    ensures Items(ns[..n], oneEntity) == Items(ns, oneEntity)[..n]
    decreases |ns|
  {
    if n == |ns| {
      assert ns[..n] == ns;
    } else {
      var front := ns[..|ns| - 1];
      ItemsPrefix(front, oneEntity, n);
      assert front[..n] == ns[..n];
      assert Items(ns, oneEntity)[..n] == Items(front, oneEntity)[..n];
    }
  }

  lemma {:induction false} AcceptedPrefix(ns: seq<Named>, oneEntity: bool, oneSoa: bool, n: nat)
    requires n <= |ns| && Accepted(ns, oneEntity, oneSoa)
    ensures Accepted(ns[..n], oneEntity, oneSoa)
  {
    ItemsPrefix(ns, oneEntity, n);
  }

  lemma {:induction false} CopySucceeds(recs: seq<Record>, tenant: Bytes, n: nat)
    requires ApexRecords(recs) && |tenant| <= TENANT_LEN && n <= |recs|
    ensures BuildAll(NewBuilder(tenant, 0, true), CopyOf(recs)[..n], true).Some?
  {
    ApexItems(recs);
    AcceptedPrefix(CopyOf(recs), true, true, n);
    NewBuilderHolds(tenant, 0, true);
    BuildAllHolds(NewBuilder(tenant, 0, true), CopyOf(recs)[..n], true);
  }

  /** The copy of the apex entry that every accepted update writes (onResourceRecord):
   *  all its records again, with the serial of its SOA raised by one and every
   *  other byte of them unchanged; None exactly when finish cannot sort them.
   */
  method CopyAndIncrement(existing: Bytes, tenant: Bytes) returns (entry: Option<Bytes>)
    requires |tenant| <= TENANT_LEN
    ensures var recs := ReadEntry(existing);
            recs.Some? && ApexRecords(recs.value) && Fits(NewBuilder(tenant, 0, true), CopyOf(recs.value), true) ==>
              IsCopy(entry, recs.value, tenant != [])
  {
    var recs := ReadRecords(existing);
    if recs.None? || recs.value == [] {
      return None;
    }
    var sb, copied := CopyAll(recs.value, tenant);
    if ApexRecords(recs.value) {
      forall n | 0 <= n <= |recs.value|
        ensures BuildAll(NewBuilder(tenant, 0, true), CopyOf(recs.value)[..n], true).Some?
      {
        CopySucceeds(recs.value, tenant, n);
      }
    }
    if ApexRecords(recs.value) && Fits(NewBuilder(tenant, 0, true), CopyOf(recs.value), true) {
      ghost var built, b' := CopyIsReady(existing, recs.value, tenant);
    }
    if !copied {
      return None;
    }
    var raised := sb.IncrementSoaVersion(existing);
    if !raised || |sb.buffer| < HEADER_LEN {
      return None;
    }
    entry := sb.Finish();
  }

  lemma {:induction false} CopyIsReady(existing: Bytes, recs: seq<Record>, tenant: Bytes)
    returns (built: Builder, b': Builder)
    requires ReadEntry(existing) == Some(recs) && ApexRecords(recs) && |tenant| <= TENANT_LEN
    requires Fits(NewBuilder(tenant, 0, true), CopyOf(recs), true)
    ensures BuildAll(NewBuilder(tenant, 0, true), CopyOf(recs), true) == Some(built)
    ensures Bumped(built, existing) == Some(b')
    ensures HEADER_LEN <= |b'.buffer| && IsCopy(Finished(b', true), recs, tenant != [])
  {
    ApexItems(recs);
    built := CopyBuilt(recs, tenant);
    SerialInApex(existing, recs);
    b' := CopyIsRaised(built, Items(CopyOf(recs), true), recs, existing);
  }

  lemma {:induction false} CopyIsRaised(built: Builder, items: seq<Item>, recs: seq<Record>, existing: Bytes)
    returns (b': Builder)
    requires recs != [] && recs[0].rr.rtype == TYPE_SOA && |recs[0].rr.rdata| >= 20
    requires Owned(items) == recs && (Sortable(items) <==> InTableOrOne(recs))
    requires Holds(built, items) && Small(built) && built.zonelen == 0
    requires SerialIn(existing) == Some(SerialOf(recs[0].rr.rdata))
    ensures Bumped(built, existing) == Some(b')
    ensures HEADER_LEN <= |b'.buffer| && IsCopy(Finished(b', true), recs, built.flags.tenantId)
  {
    var serial := SerialOf(recs[0].rr.rdata);
    FirstItem(items, recs);
    var items' := CopyFacts(items, recs, serial);
    b' := RaisedReads(built, items, items', serial, recs, existing);
  }

  lemma {:induction false} FirstItem(items: seq<Item>, recs: seq<Record>)
    requires recs != [] && Owned(items) == recs
    ensures |items| == |recs| && items[0].rr == recs[0].rr
  {
    assert Owned(items)[0].rr == items[0].rr;
  }

  lemma {:induction false} RaisedReads(built: Builder, items: seq<Item>, items': seq<Item>, serial: nat,
                                       recs: seq<Record>, existing: Bytes) returns (b': Builder)
    requires items != [] && items[0].rr.rtype == TYPE_SOA && |items[0].rr.rdata| >= 20
    requires recs != [] && |recs[0].rr.rdata| >= 20
    requires Holds(built, items) && Small(built) && built.zonelen == 0 && SerialIn(existing) == Some(serial)
    requires items' == items[0 := WithItemSerial(items[0], (serial + 1) % Pow256(4))]
    requires Owned(items') == Incremented(recs) && (Sortable(items') <==> InTableOrOne(recs))
    ensures Bumped(built, existing) == Some(b')
    ensures HEADER_LEN <= |b'.buffer| && IsCopy(Finished(b', true), recs, built.flags.tenantId)
  {
    b' := BumpedCopy(built, items, serial, existing, items');
    CopyReads(b', items', recs, built.flags.tenantId);
  }

  lemma {:induction false} CopyBuilt(recs: seq<Record>, tenant: Bytes) returns (built: Builder)
    requires ApexRecords(recs) && |tenant| <= TENANT_LEN && Accepted(CopyOf(recs), true, true)
    ensures BuildAll(NewBuilder(tenant, 0, true), CopyOf(recs), true) == Some(built)
    ensures Holds(built, Items(CopyOf(recs), true)) && built.zonelen == 0 && built.flags.tenantId == (tenant != [])
  {
    NewBuilderHolds(tenant, 0, true);
    BuildAllHolds(NewBuilder(tenant, 0, true), CopyOf(recs), true);
    built := BuildAll(NewBuilder(tenant, 0, true), CopyOf(recs), true).value;
  }
}
