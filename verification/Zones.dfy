/** Versioned zones: every accepted update raises the SOA serial by one and stores
 *  one difference block (src/lib/RestApi.cpp, onResourceRecord and addDiff).
 */
module Zones {
  import opened Bytes
  import opened Options
  import opened Keys
  import opened Scans
  import opened Names
  import opened Differences
  import opened Storage
  import opened Builders
  import opened StoredEntries
  import opened Blocks

  /** A data record of a zone: owner and record. */
  type Owned = (Bytes, Rr)

  /** `first`, `versions` and `kept` are history: the serial the zone was created with,
   *  the data of every version since, and whether all updates kept copies.
   */
  datatype Zone =
    Zone(soa: Soa, entries: map<Bytes, seq<Rr>>, first: nat, versions: seq<set<Owned>>, kept: bool)

  /** `store` is the DIFF family; `diffs` says which blocks its values are meant to be. */
  datatype Server = Server(zones: map<Bytes, Zone>, diffs: map<DiffRef, Block>, store: map<DiffRef, Bytes>)

  function Records(rrs: seq<Rr>): set<Rr> {
    set r | r in rrs
  }

  /** The records other than a SOA. */
  function DataOf(rrs: seq<Rr>): set<Rr> {
    set r | r in rrs && r.rtype != TYPE_SOA
  }

  function OwnedBy(name: Bytes, rrs: set<Rr>): set<Owned> {
    set r | r in rrs :: (name, r)
  }

  /** All data records of a zone. */
  function Content(entries: map<Bytes, seq<Rr>>): set<Owned> {
    set n, r | n in entries && r in entries[n] && r.rtype != TYPE_SOA :: (n, r)
  }

  function Existing(entries: map<Bytes, seq<Rr>>, name: Bytes): Option<seq<Rr>> {
    if name in entries then Some(entries[name]) else None
  }

  function EntryOf(entries: map<Bytes, seq<Rr>>, name: Bytes): seq<Rr> {
    if name in entries then entries[name] else []
  }

  // ------------------------------------------------------------ requests

  datatype Request =
    | Post(rrs: seq<Rr>)
    | Put(rrs: seq<Rr>)
    | Patch(rrs: seq<Rr>, append: bool)
    | Delete(types: Option<set<nat>>)

  /** The new content of an entry, where None removes it, and the SOA that comes with it. */
  datatype Verdict = Refused(code: nat) | Accepted(content: Option<seq<Rr>>, soa: Option<SoaRest>)

  /** A, NS, PTR, MX, TXT, AAAA and SRV; the source's number of PTR is 11. */
  const APPENDABLE: set<nat> := {1, 2, 11, 15, 16, 28, 33}

  function Types(rrs: seq<Rr>): set<nat> {
    set i | 0 <= i < |rrs| :: rrs[i].rtype
  }

  /** StorageBuilder::exists: same type and data, whatever the ttl. */
  predicate HasData(rrs: seq<Rr>, r: Rr) {
    exists i :: 0 <= i < |rrs| && rrs[i].rtype == r.rtype && rrs[i].rdata == r.rdata
  }

  predicate Carried(merged: seq<Rr>, r: Rr, types: set<nat>, append: bool) {
    r.rtype !in types || (append && r.rtype in APPENDABLE && !HasData(merged, r))
  }

  /** What PATCH makes of the new records and the first n old ones. */
  function Merge(rrs: seq<Rr>, old_: seq<Rr>, append: bool): seq<Rr> {
    if old_ == [] then rrs
    else
      var merged, r := Merge(rrs, old_[..|old_| - 1], append), old_[|old_| - 1];
      if Carried(merged, r, Types(rrs), append) then merged + [r] else merged
  }

  function NotOf(rrs: seq<Rr>, types: set<nat>): seq<Rr> {
    if rrs == [] then []
    else NotOf(rrs[..|rrs| - 1], types) + if rrs[|rrs| - 1].rtype in types then [] else [rrs[|rrs| - 1]]
  }

  /** createRr limits the ttl. */
  function Limited(rrs: seq<Rr>): (r: seq<Rr>)
    ensures |r| == |rrs| && forall i :: 0 <= i < |rrs| ==> r[i] == Clamped(rrs[i])
  {
    seq(|rrs|, i requires 0 <= i < |rrs| => Clamped(rrs[i]))
  }

  /** finish can sort the entry. */
  predicate Sorts(rrs: seq<Rr>) {
    |rrs| < 2 || forall i :: 0 <= i < |rrs| ==> rrs[i].rtype < TABLE_LEN
  }

  /** No exception while the body is built: no refused name, no second SOA, a sortable list. */
  predicate Builds(name: Bytes, rrs: seq<Rr>) {
    && (rrs != [] ==> Writable(name)) && Sorts(rrs)
    && forall i, j :: 0 <= i < j < |rrs| ==> !(rrs[i].rtype == TYPE_SOA && rrs[j].rtype == TYPE_SOA)
  }

  /** The SOA of a body, but for its serial. */
  function SoaOf(rrs: seq<Rr>): Option<SoaRest> {
    if rrs == [] then None
    else if rrs[0].rtype == TYPE_SOA && |rrs[0].rdata| >= 20 then Some(SoaFrom(rrs[0]).rest)
    else SoaOf(rrs[1..])
  }

  function IfSorts(rrs: seq<Rr>, content: Option<seq<Rr>>): Verdict {
    if Sorts(rrs) then Accepted(content, None) else Refused(500)
  }

  function Decide(apex: bool, name: Bytes, old_: Option<seq<Rr>>, req: Request): Verdict {
    if apex && (req.Post? || req.Delete?) then Refused(400)
    else if !req.Delete? && !Builds(name, req.rrs) then Refused(500)
    else
      match req
      case Post(rrs) => if old_.Some? then Refused(409) else Accepted(Some(Limited(rrs)), None)
      case Put(rrs) => if apex then PutApex(Limited(rrs)) else Accepted(Some(Limited(rrs)), None)
      case Patch(rrs, append) =>
        // At the apex the new SOA is never set, and using it fails.
        if apex then Refused(500)
        else if old_.None? then Accepted(Some(Limited(rrs)), None)
        else var merged := Merge(Limited(rrs), old_.value, append); IfSorts(merged, Some(merged))
      case Delete(types) =>
        if old_.None? then Refused(404)
        else if types.None? then Accepted(None, None)
        else var rest := NotOf(old_.value, types.value); IfSorts(rest, if rest == [] then None else Some(rest))
  }

  /** The entry of the apex is kept apart from its SOA. */
  function PutApex(rrs: seq<Rr>): Verdict {
    var soa := SoaOf(rrs);
    if soa.None? then Refused(500) else Accepted(Some(NotOf(rrs, {TYPE_SOA})), soa)
  }

  /** Without append, PATCH replaces exactly the types it mentions. */
  lemma {:induction false} PatchReplacesTypes(rrs: seq<Rr>, old_: seq<Rr>, r: Rr)
    ensures r in Merge(rrs, old_, false) <==> r in rrs || (r in old_ && r.rtype !in Types(rrs))
  {
    if old_ == [] {
    } else {
      PatchReplacesTypes(rrs, old_[..|old_| - 1], r);
      assert old_ == old_[..|old_| - 1] + [old_[|old_| - 1]];
    }
  }

  /** With append, PATCH has the data of the new records and of the old ones, but for
   *  the types it mentions and may not append to.
   */
  lemma {:induction false} PatchAppends(rrs: seq<Rr>, old_: seq<Rr>, r: Rr)
    ensures HasData(Merge(rrs, old_, true), r) <==>
              HasData(rrs, r) || (HasData(old_, r) && (r.rtype !in Types(rrs) || r.rtype in APPENDABLE))
  {
    if old_ == [] {
    } else {
      var front, last := old_[..|old_| - 1], old_[|old_| - 1];
      var merged := Merge(rrs, front, true);
      assert old_ == front + [last];
      PatchAppends(rrs, front, r);
      HasDataLast(front, last, r);
      HasDataLast(merged, last, r);
      if !Carried(merged, last, Types(rrs), true) && last.rtype == r.rtype && last.rdata == r.rdata {
        SameData(merged, last, r);
      }
    }
  }

  lemma {:induction false} HasDataLast(front: seq<Rr>, last: Rr, r: Rr)
    ensures HasData(front + [last], r) <==> HasData(front, r) || (last.rtype == r.rtype && last.rdata == r.rdata)
  {
    var all := front + [last];
    assert all[|front|] == last && forall i :: 0 <= i < |front| ==> all[i] == front[i];
    if i :| 0 <= i < |front| && front[i].rtype == r.rtype && front[i].rdata == r.rdata {
      assert all[i].rtype == r.rtype;
    }
  }

  lemma {:induction false} SameData(rrs: seq<Rr>, a: Rr, b: Rr)
    requires a.rtype == b.rtype && a.rdata == b.rdata
    ensures HasData(rrs, a) <==> HasData(rrs, b)
  {
  }

  ghost predicate GoodRr(r: Rr) {
    ValidRr(r) && (r.rtype == TYPE_SOA ==> |r.rdata| >= 20)
  }

  ghost predicate StoredRr(r: Rr) {
    GoodRr(r) && r.ttl <= TTL_MAX
  }

  ghost predicate GoodRrs(rrs: seq<Rr>) {
    forall i :: 0 <= i < |rrs| ==> GoodRr(rrs[i])
  }

  /** The records of a body, all for one name. */
  function BodyOf(name: Bytes, rrs: seq<Rr>): (ns: seq<Named>)
    ensures |ns| == |rrs| && forall i :: 0 <= i < |rrs| ==> ns[i] == Named(name, rrs[i])
  {
    seq(|rrs|, i requires 0 <= i < |rrs| => Named(name, rrs[i]))
  }

  lemma {:induction false} BodyIsWritable(name: Bytes, rrs: seq<Rr>, oneEntity: bool)
    requires Trim(name) == name
    ensures AllWritable(BodyOf(name, rrs), Items(BodyOf(name, rrs), oneEntity)) <==> rrs == [] || Writable(name)
    decreases |rrs|
  {
    if rrs == [] {
    } else {
      var n, ns := |rrs| - 1, BodyOf(name, rrs);
      BodyIsWritable(name, rrs[..n], oneEntity);
      assert ns[..n] == BodyOf(name, rrs[..n]) && ns == ns[..n] + [ns[n]];
      var front := Items(ns[..n], oneEntity);
      WritableAppend(ns[..n], ns[n], front, Placed(front, ns[n], oneEntity));
      assert Spellable(name) <==> Writable(name);
    }
  }

  /** A body is refused exactly when the builder makes no sorted entry of it. */
  lemma {:induction false} BuildsIff(name: Bytes, rrs: seq<Rr>, tenant: Bytes, zonelen: nat, oneEntity: bool)
    requires |tenant| <= TENANT_LEN && GoodRrs(rrs) && Trim(name) == name
    ensures var built := BuildAll(NewBuilder(tenant, zonelen, true), BodyOf(name, rrs), oneEntity);
            Builds(name, rrs) <==>
              built.Some? && HEADER_LEN <= |built.value.buffer| && Finished(built.value, true).Some?
  {
    var ns := BodyOf(name, rrs);
    StoredEntryReads(tenant, zonelen, oneEntity, true, true, ns);
    BodyIsWritable(name, rrs, oneEntity);
    BodyHasOneSoa(name, rrs);
    BodySorts(rrs, ns, Items(ns, oneEntity));
  }

  lemma {:induction false} BodyHasOneSoa(name: Bytes, rrs: seq<Rr>)
    ensures OneSoa(BodyOf(name, rrs)) <==>
            forall i, j :: 0 <= i < j < |rrs| ==> !(rrs[i].rtype == TYPE_SOA && rrs[j].rtype == TYPE_SOA)
  {
    var ns := BodyOf(name, rrs);
    assert forall i :: 0 <= i < |rrs| ==> ns[i].rr == rrs[i];
  }

  lemma {:induction false} BodySorts(rrs: seq<Rr>, ns: seq<Named>, items: seq<Item>)
    requires |items| == |ns| == |rrs|
    requires forall i :: 0 <= i < |rrs| ==> ns[i].rr == rrs[i] && items[i].rr == Clamped(ns[i].rr)
    ensures Sortable(items) <==> Sorts(rrs)
  {
    assert forall i :: 0 <= i < |rrs| ==> items[i].rr.rtype == rrs[i].rtype;
  }

  /** The records of an entry as it is stored. */
  ghost predicate StoredRrs(rrs: seq<Rr>) {
    forall i :: 0 <= i < |rrs| ==> StoredRr(rrs[i])
  }

  /** Merging invents no record. */
  lemma {:induction false} MergeGood(rrs: seq<Rr>, old_: seq<Rr>, append: bool)
    requires StoredRrs(rrs) && StoredRrs(old_)
    ensures StoredRrs(Merge(rrs, old_, append))
    ensures old_ != [] && rrs == [] ==> Merge(rrs, old_, append) != []
    ensures forall r :: r in Merge(rrs, old_, append) ==> r in rrs || r in old_
    ensures forall r :: r in Merge(rrs, old_, append) && r.rtype !in Types(rrs) ==> r in old_
  {
    if old_ == [] {
      forall r | r in rrs ensures r.rtype in Types(rrs) {
        var i :| 0 <= i < |rrs| && rrs[i] == r;
      }
    } else {
      MergeGood(rrs, old_[..|old_| - 1], append);
    }
  }

  lemma {:induction false} NotOfGood(rrs: seq<Rr>, types: set<nat>)
    requires StoredRrs(rrs)
    ensures StoredRrs(NotOf(rrs, types))
    ensures forall r :: r in NotOf(rrs, types) <==> r in rrs && r.rtype !in types
  {
    if rrs == [] {
    } else {
      NotOfGood(rrs[..|rrs| - 1], types);
      assert rrs == rrs[..|rrs| - 1] + [rrs[|rrs| - 1]];
    }
  }

  ghost predicate GoodRequest(req: Request) {
    req.Delete? || GoodRrs(req.rrs)
  }

  lemma {:induction false} LimitedGood(rrs: seq<Rr>)
    requires GoodRrs(rrs)
    ensures StoredRrs(Limited(rrs))
  {
  }

  lemma {:induction false} SoaOfGood(rrs: seq<Rr>)
    requires StoredRrs(rrs)
    ensures var soa := SoaOf(rrs); soa.Some? ==> ValidRest(soa.value)
  {
    if rrs == [] {
    } else {
      SoaOfGood(rrs[1..]);
    }
  }

  ghost predicate ValidRest(rest: SoaRest) {
    rest.ttl <= TTL_MAX && |rest.timers| == 16 && |rest.names| + 20 < Pow256(2)
  }

  /** An entry that may be stored under the name. */
  ghost predicate GoodEntry(name: Bytes, rrs: seq<Rr>) {
    StoredRrs(rrs) && Sorts(rrs) && (rrs != [] ==> Writable(name))
  }

  lemma {:induction false} NotOfSorts(rrs: seq<Rr>, types: set<nat>)
    requires Sorts(rrs)
    ensures Sorts(NotOf(rrs, types)) && |NotOf(rrs, types)| <= |rrs|
    ensures forall i :: 0 <= i < |NotOf(rrs, types)| ==> NotOf(rrs, types)[i] in rrs
  {
    if rrs == [] {
    } else {
      NotOfSorts(rrs[..|rrs| - 1], types);
    }
  }

  /** What is accepted can be stored, SOA and all. */
  lemma {:induction false} DecideGood(apex: bool, name: Bytes, old_: Option<seq<Rr>>, req: Request)
    requires GoodRequest(req) && (old_.Some? ==> GoodEntry(name, old_.value))
    ensures var v := Decide(apex, name, old_, req);
            v.Accepted? ==>
              && (v.content.Some? ==> GoodEntry(name, v.content.value))
              && (v.soa.Some? <==> apex)
              && (v.soa.Some? ==> ValidRest(v.soa.value))
              && (apex ==> v.content.Some?)
  {
    if !req.Delete? { LimitedGood(req.rrs); }
    match req
    case Post(rrs) =>
    case Put(rrs) =>
      SoaOfGood(Limited(rrs));
      NotOfGood(Limited(rrs), {TYPE_SOA});
      if Builds(name, rrs) { NotOfSorts(Limited(rrs), {TYPE_SOA}); }
    case Patch(rrs, append) =>
      if old_.Some? { MergeGood(Limited(rrs), old_.value, append); }
    case Delete(types) =>
      if old_.Some? && types.Some? { NotOfGood(old_.value, types.value); }
  }

  // ------------------------------------------------------------- updates

  function Replaced(entries: map<Bytes, seq<Rr>>, name: Bytes, content: Option<seq<Rr>>): map<Bytes, seq<Rr>> {
    if content.Some? then entries[name := content.value] else entries - {name}
  }

  /** An accepted update of one entry, with the block of addDiff: it deletes only what was
   *  there and adds only what is there now, and it leads from the old data to the new,
   *  if the update keeps copies.
   */
  ghost predicate UpdateStep(s: Server, s': Server, zone: Bytes, name: Bytes, content: Option<seq<Rr>>, rest: SoaRest) {
    && zone in s.zones
    && zone in s'.zones
    && var z, z' := s.zones[zone], s'.zones[zone];
       && z.soa.serial + 1 < Pow256(4)
       && (name != zone ==> rest == z.soa.rest)
       && z'.entries == Replaced(z.entries, name, content)
       && z'.soa == Soa(z.soa.serial + 1, rest)
       && z'.first == z.first
       && z'.versions == z.versions + [Content(z'.entries)]
       && z'.kept == (z.kept && KeepsCopies(EntryOf(z.entries, name), EntryOf(z'.entries, name)))
       && s'.zones == s.zones[zone := z']
       && var key := DiffRef(zone, z.soa.serial + 1);
          && key in s'.diffs
          && s'.diffs == s.diffs[key := s'.diffs[key]]
          && BlockOf(s'.diffs[key], zone, z, z', name)
  }

  ghost predicate BlockOf(b: Block, zone: Bytes, z: Zone, z': Zone, name: Bytes) {
    && b.zone == zone && b.oldSoa == z.soa && b.newSoa == z'.soa && b.owner == name
    && var was, now := EntryOf(z.entries, name), EntryOf(z'.entries, name);
       && (forall r :: r in b.deleted ==> r in DataOf(was))
       && (forall r :: r in b.added ==> r in DataOf(now))
       && (KeepsCopies(was, now) ==> LeadsTo(DataOf(was), DataOf(now), b.deleted, b.added))
  }

  /** One block is written, and its bytes read as the block, unless it is too long for the
   *  offsets of an entry.
   */
  ghost predicate Writes(s: Server, s': Server, key: DiffRef) {
    && key in s'.diffs && key in s'.store && s'.store == s.store[key := s'.store[key]]
    && IsStored(s'.store[key], s'.diffs[key])
  }

  ghost predicate IsStored(bytes: Bytes, b: Block) {
    GoodBlock(b) && (BlockFits(b) ==> Encodes(bytes, b))
  }

  /** A new zone, created with its SOA and the other records of its apex. */
  ghost predicate CreateStep(s: Server, s': Server, zone: Bytes, soa: Soa, rrs: seq<Rr>) {
    && zone !in s.zones && GoodName(zone) && ValidSoa(soa)
    && var z := Zone(soa, map[zone := rrs], soa.serial, [Content(map[zone := rrs])], true);
       s' == Server(s.zones[zone := z], s.diffs, s.store)
  }

  ghost predicate Step(s: Server, s': Server) {
    || s' == s
    || (exists zone, soa, rrs :: CreateStep(s, s', zone, soa, rrs))
    || (exists zone, name, content, rest ::
          UpdateStep(s, s', zone, name, content, rest) && Writes(s, s', DiffRef(zone, s'.zones[zone].soa.serial)))
  }

  /** A run: a sequence of states, from the empty server on. */
  ghost predicate IsRun(run: seq<Server>) {
    && run != [] && run[0] == Server(map[], map[], map[])
    && forall i :: 0 < i < |run| ==> Step(run[i - 1], run[i])
  }

  // ----------------------------------------------------------- invariant

  function Removed(b: Block): set<Owned> {
    OwnedBy(b.owner, Records(b.deleted))
  }

  function Added(b: Block): set<Owned> {
    OwnedBy(b.owner, Records(b.added))
  }

  /** The block that leads from version v - 1 to version v of the zone. */
  ghost predicate BlockInv(z: Zone, b: Block, v: nat)
    requires z.first < v && v - z.first < |z.versions|
  {
    && b.oldSoa.serial == v - 1 && b.newSoa.serial == v
    && (z.kept ==> z.versions[v - z.first] == (z.versions[v - 1 - z.first] - Removed(b)) + Added(b))
  }

  /** The zone's blocks are exactly those of its versions after the first. */
  ghost predicate ZoneInv(s: Server, zone: Bytes)
    requires zone in s.zones
  {
    var z := s.zones[zone];
    && GoodName(zone)
    && z.first <= z.soa.serial < Pow256(4)
    && |z.versions| == z.soa.serial - z.first + 1
    && z.versions[|z.versions| - 1] == Content(z.entries)
    && (forall v: nat :: DiffRef(zone, v) in s.diffs <==> z.first < v <= z.soa.serial)
    && (forall v: nat :: z.first < v <= z.soa.serial ==> BlockInv(z, s.diffs[DiffRef(zone, v)], v))
  }

  ghost predicate Inv(s: Server) {
    && (forall zone :: zone in s.zones ==> ZoneInv(s, zone))
    && (forall r :: r in s.diffs ==> r.zone in s.zones)
  }

  lemma {:induction false} ContentReplaced(entries: map<Bytes, seq<Rr>>, name: Bytes, content: Option<seq<Rr>>)
    ensures var entries' := Replaced(entries, name, content);
            Content(entries') ==
            (Content(entries) - OwnedBy(name, DataOf(EntryOf(entries, name)))) +
            OwnedBy(name, DataOf(EntryOf(entries', name)))
  {
    var entries' := Replaced(entries, name, content);
    forall n, r
      ensures (n, r) in Content(entries') <==>
              (n, r) in (Content(entries) - OwnedBy(name, DataOf(EntryOf(entries, name)))) +
                        OwnedBy(name, DataOf(EntryOf(entries', name)))
    {
      assert (n, r) in Content(entries) <==> n in entries && r in entries[n] && r.rtype != TYPE_SOA;
      assert (n, r) in Content(entries') <==> n in entries' && r in entries'[n] && r.rtype != TYPE_SOA;
    }
  }

  /** The stored block turns the old version's data into the new version's. */
  lemma {:induction false} UpdateBlock(entries: map<Bytes, seq<Rr>>, name: Bytes, content: Option<seq<Rr>>, b: Block)
    requires b.owner == name
    requires var entries' := Replaced(entries, name, content);
             LeadsTo(DataOf(EntryOf(entries, name)), DataOf(EntryOf(entries', name)), b.deleted, b.added)
    ensures Content(Replaced(entries, name, content)) == (Content(entries) - Removed(b)) + Added(b)
  {
    var entries' := Replaced(entries, name, content);
    ContentReplaced(entries, name, content);
    var was, now := DataOf(EntryOf(entries, name)), DataOf(EntryOf(entries', name));
    forall n, r
      ensures (n, r) in Content(entries') <==> (n, r) in (Content(entries) - Removed(b)) + Added(b)
    {
      assert (n, r) in OwnedBy(name, was) <==> n == name && r in was;
      assert (n, r) in OwnedBy(name, now) <==> n == name && r in now;
      assert (n, r) in Removed(b) <==> n == name && r in b.deleted;
      assert (n, r) in Added(b) <==> n == name && r in b.added;
      assert (name, r) in Content(entries) <==> r in was;
      assert r in now <==> (r in was && r !in b.deleted) || r in b.added by {
        assert r in (was - set x | x in b.deleted) + (set x | x in b.added) <==> r in now;
      }
    }
  }

  lemma {:induction false} UpdateZoneInv(s: Server, s': Server, zone: Bytes, name: Bytes,
                                         content: Option<seq<Rr>>, rest: SoaRest)
    requires Inv(s) && UpdateStep(s, s', zone, name, content, rest)
    ensures ZoneInv(s', zone)
  {
    var z, z' := s.zones[zone], s'.zones[zone];
    var n := z.soa.serial + 1;
    var b := s'.diffs[DiffRef(zone, n)];
    assert ZoneInv(s, zone);
    NewBlock(zone, z, z', name, content, b);
    forall v: nat | z'.first < v <= z'.soa.serial ensures BlockInv(z', s'.diffs[DiffRef(zone, v)], v) {
      if v < n {
        EarlierBlock(z, z', s.diffs[DiffRef(zone, v)], v);
      }
    }
  }

  lemma {:induction false} EarlierBlock(z: Zone, z': Zone, b: Block, v: nat)
    requires z.first < v && v - z.first < |z.versions| && BlockInv(z, b, v)
    requires z'.first == z.first && z.versions <= z'.versions && (z'.kept ==> z.kept)
    ensures BlockInv(z', b, v)
  {
  }

  lemma {:induction false} NewBlock(zone: Bytes, z: Zone, z': Zone, name: Bytes, content: Option<seq<Rr>>, b: Block)
    requires BlockOf(b, zone, z, z', name) && z'.entries == Replaced(z.entries, name, content)
    requires z.first <= z.soa.serial && |z.versions| == z.soa.serial - z.first + 1
    requires z.versions[|z.versions| - 1] == Content(z.entries)
    requires z'.soa.serial == z.soa.serial + 1 && z'.first == z.first
    requires z'.versions == z.versions + [Content(z'.entries)]
    requires z'.kept ==> KeepsCopies(EntryOf(z.entries, name), EntryOf(z'.entries, name))
    ensures BlockInv(z', b, z'.soa.serial)
  {
    if z'.kept { UpdateBlock(z.entries, name, content, b); }
  }

  lemma {:induction false} OtherZoneInv(s: Server, s': Server, zone: Bytes, other: Bytes)
    requires other in s.zones && ZoneInv(s, other) && other != zone
    requires other in s'.zones && s'.zones[other] == s.zones[other]
    requires forall v: nat :: DiffRef(other, v) in s'.diffs <==> DiffRef(other, v) in s.diffs
    requires forall v: nat :: DiffRef(other, v) in s.diffs ==> s'.diffs[DiffRef(other, v)] == s.diffs[DiffRef(other, v)]
    ensures ZoneInv(s', other)
  {
    var z := s.zones[other];
    forall v: nat | z.first < v <= z.soa.serial ensures BlockInv(z, s'.diffs[DiffRef(other, v)], v) {
      assert DiffRef(other, v) in s.diffs;
    }
  }

  lemma {:induction false} CreateInv(s: Server, s': Server, zone: Bytes, soa: Soa, rrs: seq<Rr>)
    requires Inv(s) && CreateStep(s, s', zone, soa, rrs)
    ensures Inv(s')
  {
    forall other | other in s'.zones ensures ZoneInv(s', other) {
      if other != zone {
        OtherZoneInv(s, s', zone, other);
      } else {
        assert forall v: nat :: DiffRef(zone, v) !in s.diffs;
      }
    }
  }

  lemma {:induction false} UpdateInv(s: Server, s': Server, zone: Bytes, name: Bytes,
                                     content: Option<seq<Rr>>, rest: SoaRest)
    requires Inv(s) && UpdateStep(s, s', zone, name, content, rest)
    ensures Inv(s')
  {
    forall other | other in s'.zones ensures ZoneInv(s', other) {
      if other != zone {
        OtherZoneInv(s, s', zone, other);
      } else {
        UpdateZoneInv(s, s', zone, name, content, rest);
      }
    }
  }

  lemma {:induction false} StepInv(s: Server, s': Server)
    requires Inv(s) && Step(s, s')
    ensures Inv(s')
  {
    if s' == s {
    } else if zone, soa, rrs :| CreateStep(s, s', zone, soa, rrs) {
      CreateInv(s, s', zone, soa, rrs);
    } else {
      var zone, name, content, rest :| UpdateStep(s, s', zone, name, content, rest) &&
                                       Writes(s, s', DiffRef(zone, s'.zones[zone].soa.serial));
      UpdateInv(s, s', zone, name, content, rest);
    }
  }

  lemma {:induction false} RunInv(run: seq<Server>)
    requires IsRun(run)
    ensures Inv(run[|run| - 1])
  {
    if |run| == 1 {
    } else {
      RunInv(run[..|run| - 1]);
      StepInv(run[|run| - 2], run[|run| - 1]);
    }
  }

  /** Every block is in the store, as far as it can be. */
  ghost predicate StoreInv(s: Server) {
    && s.store.Keys == s.diffs.Keys
    && forall key :: key in s.diffs ==> s.diffs[key].zone == key.zone && IsStored(s.store[key], s.diffs[key])
  }

  lemma {:induction false} WritesInv(s: Server, s': Server, key: DiffRef)
    requires StoreInv(s) && Writes(s, s', key)
    requires s'.diffs == s.diffs[key := s'.diffs[key]] && s'.diffs[key].zone == key.zone
    ensures StoreInv(s')
  {
  }

  lemma {:induction false} StoreStepInv(s: Server, s': Server)
    requires StoreInv(s) && Step(s, s')
    ensures StoreInv(s')
  {
    if s' == s {
    } else if zone, soa, rrs :| CreateStep(s, s', zone, soa, rrs) {
    } else {
      var zone, name, content, rest :| UpdateStep(s, s', zone, name, content, rest) &&
                                       Writes(s, s', DiffRef(zone, s'.zones[zone].soa.serial));
      WritesInv(s, s', DiffRef(zone, s'.zones[zone].soa.serial));
    }
  }

  /** Over every run, what is stored of a block reads as the block. */
  lemma {:induction false} StoreIsDiffs(run: seq<Server>)
    requires IsRun(run)
    ensures StoreInv(run[|run| - 1])
  {
    if |run| == 1 {
    } else {
      StoreIsDiffs(run[..|run| - 1]);
      StoreStepInv(run[|run| - 2], run[|run| - 1]);
    }
  }

  /** Over every run: one block per version after the first, with contiguous
   *  serials up to the current one, each leading from one version to the next.
   */
  lemma {:induction false} SerialsAreContiguous(run: seq<Server>, zone: Bytes, v: nat)
    requires IsRun(run) && zone in run[|run| - 1].zones
    ensures var s := run[|run| - 1];
            var z := s.zones[zone];
            && (DiffRef(zone, v) in s.diffs <==> z.first < v <= z.soa.serial)
            && z.first <= z.soa.serial
            && |z.versions| == z.soa.serial - z.first + 1
            && z.versions[z.soa.serial - z.first] == Content(z.entries)
            && (z.first < v <= z.soa.serial ==>
                  var b := s.diffs[DiffRef(zone, v)];
                  && b.oldSoa.serial == v - 1 && b.newSoa.serial == v
                  && (z.kept ==> z.versions[v - z.first] == (z.versions[v - 1 - z.first] - Removed(b)) + Added(b)))
  {
    RunInv(run);
    var s := run[|run| - 1];
    assert ZoneInv(s, zone);
    if s.zones[zone].first < v <= s.zones[zone].soa.serial {
      assert BlockInv(s.zones[zone], s.diffs[DiffRef(zone, v)], v);
    }
  }

  // ------------------------------------------------------------ the REST API

  /** How an entry's records are stored: the first with the full name, the others
   *  with a pointer to it.
   */
  function StoreForms(rrs: seq<Rr>): (r: seq<Stored>)
    ensures |r| == |rrs| && forall i :: 0 <= i < |rrs| ==> r[i].rr == rrs[i]
  {
    seq(|rrs|, i requires 0 <= i < |rrs| => Stored(if i == 0 then Full else Pointer(HEADER_LEN), rrs[i]))
  }

  lemma {:induction false} StoreFormsData(rrs: seq<Rr>)
    requires StoredRrs(rrs)
    ensures ValidEntry(StoreForms(rrs))
    ensures Data(StoreForms(rrs)) == DataOf(rrs)
    ensures Rrs(StoreForms(rrs)) == rrs
  {
    var s := StoreForms(rrs);
    forall r ensures r in Data(s) <==> r in DataOf(rrs) {
      if r in DataOf(rrs) {
        var i :| 0 <= i < |rrs| && rrs[i] == r;
        assert s[i].rr == r;
      }
    }
  }

  lemma {:induction false} NotThins(old_: seq<Rr>, new_: seq<Rr>)
    requires KeepsCopies(old_, new_) && StoredRrs(old_) && StoredRrs(new_)
    ensures !Thins(StoreForms(old_), StoreForms(new_))
  {
    StoreFormsData(old_);
    StoreFormsData(new_);
    if r :| Thinned(StoreForms(old_), StoreForms(new_), r) {
      KeptIsNotThinned(StoreForms(old_), StoreForms(new_), r);
    }
  }

  /** The difference of two versions of an entry. */
  method EntryDiff(name: Bytes, was: seq<Rr>, now: seq<Rr>) returns (deleted: seq<Rr>, added: seq<Rr>)
    requires GoodEntry(name, was) && GoodEntry(name, now)
    ensures (forall r :: r in deleted ==> r in DataOf(was)) && (forall r :: r in added ==> r in DataOf(now))
    ensures KeepsCopies(was, now) ==> LeadsTo(DataOf(was), DataOf(now), deleted, added)
  {
    StoreFormsData(was);
    StoreFormsData(now);
    var wire := if Writable(name) then Wire(Split(name)) else [0];
    deleted, added := CreateDiff(wire, StoreForms(was), StoreForms(now));
    if KeepsCopies(was, now) { NotThins(was, now); }
  }

  lemma {:induction false} DiffStorable(was: seq<Rr>, rrs: seq<Rr>)
    requires StoredRrs(was) && forall r :: r in rrs ==> r in DataOf(was)
    ensures DataRrs(rrs)
    ensures rrs != [] ==> was != []
  {
    forall i | 0 <= i < |rrs| ensures ValidRr(rrs[i]) && rrs[i].ttl <= TTL_MAX && rrs[i].rtype != TYPE_SOA {
      assert rrs[i] in rrs;
      assert rrs[i] in was;
    }
    if rrs != [] {
      assert rrs[0] in rrs;
    }
  }

  ghost predicate ValidZone(zone: Bytes, z: Zone) {
    && GoodName(zone) && ValidSoa(z.soa)
    && forall name :: name in z.entries ==> GoodEntry(name, z.entries[name])
  }

  /** addDiff: the block of an update, and its bytes. */
  method MakeBlock(zone: Bytes, z: Zone, z': Zone, name: Bytes) returns (b: Block, bytes: Bytes)
    requires ValidZone(zone, z) && ValidZone(zone, z') && Trim(name) == name
    ensures BlockOf(b, zone, z, z', name)
    ensures IsStored(bytes, b)
  {
    var was, now := EntryOf(z.entries, name), EntryOf(z'.entries, name);
    var deleted, added := EntryDiff(name, was, now);
    b := Block(zone, z.soa, deleted, z'.soa, added, name);
    DiffStorable(was, deleted);
    DiffStorable(now, added);
    var stored := WriteBlock(b);
    bytes := stored.value;
  }

  ghost predicate ValidZones(zones: map<Bytes, Zone>) {
    forall zone :: zone in zones ==> ValidZone(zone, zones[zone])
  }

  lemma {:induction false} StaysValid(zones: map<Bytes, Zone>, zone: Bytes, z': Zone)
    requires ValidZones(zones) && ValidZone(zone, z')
    ensures ValidZones(zones[zone := z'])
  {
  }

  function NextVersion(z: Zone, name: Bytes, content: Option<seq<Rr>>, rest: SoaRest): Zone {
    var entries := Replaced(z.entries, name, content);
    Zone(Soa(z.soa.serial + 1, rest), entries, z.first, z.versions + [Content(entries)],
         z.kept && KeepsCopies(EntryOf(z.entries, name), EntryOf(entries, name)))
  }

  lemma {:induction false} NextIsValid(zone: Bytes, z: Zone, name: Bytes, content: Option<seq<Rr>>, rest: SoaRest)
    requires ValidZone(zone, z) && z.soa.serial + 1 < Pow256(4) && ValidRest(rest)
    requires content.Some? ==> GoodEntry(name, content.value)
    ensures ValidZone(zone, NextVersion(z, name, content, rest))
  {
  }

  method MakeVersion(zone: Bytes, z: Zone, name: Bytes, content: Option<seq<Rr>>, rest: SoaRest)
    returns (z': Zone, b: Block, bytes: Bytes)
    requires ValidZone(zone, z) && Trim(name) == name && ValidRest(rest) && z.soa.serial + 1 < Pow256(4)
    requires content.Some? ==> GoodEntry(name, content.value)
    ensures z' == NextVersion(z, name, content, rest) && ValidZone(zone, z')
    ensures BlockOf(b, zone, z, z', name)
    ensures IsStored(bytes, b)
  {
    z' := NextVersion(z, name, content, rest);
    NextIsValid(zone, z, name, content, rest);
    b, bytes := MakeBlock(zone, z, z', name);
  }

  function Updated(s: Server, zone: Bytes, z': Zone, b: Block, bytes: Bytes): Server {
    var key := DiffRef(zone, z'.soa.serial);
    Server(s.zones[zone := z'], s.diffs[key := b], s.store[key := bytes])
  }

  lemma {:induction false} UpdateIsStep(s: Server, s': Server, zone: Bytes, name: Bytes, content: Option<seq<Rr>>,
                                        rest: SoaRest, z': Zone, b: Block, bytes: Bytes)
    requires zone in s.zones && s.zones[zone].soa.serial + 1 < Pow256(4)
    requires name != zone ==> rest == s.zones[zone].soa.rest
    requires z' == NextVersion(s.zones[zone], name, content, rest) && BlockOf(b, zone, s.zones[zone], z', name)
    requires s' == Updated(s, zone, z', b, bytes)
    ensures UpdateStep(s, s', zone, name, content, rest)
  {
  }

  lemma {:induction false} UpdateWrites(s: Server, s': Server, zone: Bytes, z': Zone, b: Block, bytes: Bytes)
    requires IsStored(bytes, b) && s' == Updated(s, zone, z', b, bytes)
    ensures Writes(s, s', DiffRef(zone, z'.soa.serial))
  {
  }

  lemma {:induction false} UpdateIsAnswer(s: Server, s': Server, zone: Bytes, name: Bytes, v: Verdict, rest: SoaRest,
                                          z': Zone, b: Block, bytes: Bytes)
    requires zone in s.zones && s.zones[zone].soa.serial + 1 < Pow256(4)
    requires v.Accepted? && rest == RestOf(s.zones[zone], v) && (name != zone ==> rest == s.zones[zone].soa.rest)
    requires z' == NextVersion(s.zones[zone], name, v.content, rest)
    requires BlockOf(b, zone, s.zones[zone], z', name) && s' == Updated(s, zone, z', b, bytes)
    requires IsStored(bytes, b)
    ensures Answered(s, s', zone, name, v, if name in s.zones[zone].entries then 200 else 201)
  {
    UpdateIsStep(s, s', zone, name, v.content, rest, z', b, bytes);
    UpdateWrites(s, s', zone, z', b, bytes);
    AnsweredIs(s, s', zone, name, v, rest);
  }

  lemma {:induction false} AnsweredIs(s: Server, s': Server, zone: Bytes, name: Bytes, v: Verdict, rest: SoaRest)
    requires zone in s.zones && v.Accepted? && rest == RestOf(s.zones[zone], v)
    requires UpdateStep(s, s', zone, name, v.content, rest)
    requires Writes(s, s', DiffRef(zone, s.zones[zone].soa.serial + 1))
    ensures Answered(s, s', zone, name, v, if name in s.zones[zone].entries then 200 else 201)
  {
  }

  function Judge(z: Zone, zone: Bytes, name: Bytes, req: Request): Verdict {
    Decide(name == zone, name, Existing(z.entries, name), req)
  }

  function RestOf(z: Zone, v: Verdict): SoaRest
    requires v.Accepted?
  {
    if v.soa.Some? then v.soa.value else z.soa.rest
  }

  ghost predicate GoodVerdict(z: Zone, zone: Bytes, name: Bytes, v: Verdict) {
    v.Accepted? ==>
      && (v.content.Some? ==> GoodEntry(name, v.content.value))
      && ValidRest(RestOf(z, v)) && (name != zone ==> RestOf(z, v) == z.soa.rest)
  }

  lemma {:induction false} JudgeGood(z: Zone, zone: Bytes, name: Bytes, req: Request)
    requires ValidZone(zone, z) && GoodRequest(req)
    ensures GoodVerdict(z, zone, name, Judge(z, zone, name, req))
  {
    DecideGood(name == zone, name, Existing(z.entries, name), req);
  }

  /** A refused request changes nothing; an accepted one is an update, and writes its block. */
  ghost predicate Answered(s: Server, s': Server, zone: Bytes, name: Bytes, v: Verdict, code: nat)
    requires zone in s.zones
  {
    match v
    case Refused(reason) => code == reason && s' == s
    case Accepted(content, soa) =>
      && code == (if name in s.zones[zone].entries then 200 else 201)
      && UpdateStep(s, s', zone, name, content, RestOf(s.zones[zone], v))
      && Writes(s, s', DiffRef(zone, s.zones[zone].soa.serial + 1))
  }

  // ---------------------------------------------- what a request asks for

  /** The list has a record of that type with that data. */
  ghost predicate Shows(rrs: seq<Rr>, t: nat, data: Bytes) {
    exists i :: 0 <= i < |rrs| && rrs[i].rtype == t && rrs[i].rdata == data
  }

  /** The records of a request as they are stored: the same ones, with a ttl of at most 2^31 - 1. */
  ghost predicate SameButTtl(now: seq<Rr>, rrs: seq<Rr>) {
    && |now| == |rrs|
    && forall i :: 0 <= i < |rrs| ==>
         && now[i].rtype == rrs[i].rtype && now[i].rdata == rrs[i].rdata
         && now[i].ttl == if rrs[i].ttl < 0x7FFF_FFFF then rrs[i].ttl else 0x7FFF_FFFF
  }

  /** Only the entry of the name differs, and the serial is one higher. */
  ghost predicate OnlyChanges(z: Zone, z': Zone, name: Bytes) {
    && z'.entries - {name} == z.entries - {name}
    && z'.soa.serial == z.soa.serial + 1
  }

  ghost predicate PostServed(z: Zone, z': Zone, zone: Bytes, name: Bytes, rrs: seq<Rr>, code: nat) {
    if name == zone then code == 400
    else if !Builds(name, rrs) then code == 500
    else if name in z.entries then code == 409
    else
      && code == 201 && OnlyChanges(z, z', name) && z'.soa.rest == z.soa.rest
      && name in z'.entries && SameButTtl(z'.entries[name], rrs)
  }

  /** The SOA comes from the i-th record of the body. */
  ghost predicate SoaTaken(rest: SoaRest, r: Rr) {
    && r.rtype == TYPE_SOA && |r.rdata| >= 20
    && rest.names == r.rdata[..|r.rdata| - 20] && rest.timers == r.rdata[|r.rdata| - 16..]
    && rest.ttl == if r.ttl < 0x7FFF_FFFF then r.ttl else 0x7FFF_FFFF
  }

  ghost predicate PutServed(z: Zone, z': Zone, zone: Bytes, name: Bytes, rrs: seq<Rr>, code: nat) {
    if !Builds(name, rrs) then code == 500
    else if name != zone then
      && code == (if name in z.entries then 200 else 201)
      && OnlyChanges(z, z', name) && z'.soa.rest == z.soa.rest
      && name in z'.entries && SameButTtl(z'.entries[name], rrs)
    else if forall i :: 0 <= i < |rrs| ==> rrs[i].rtype != TYPE_SOA then code == 500
    else
      && code == (if name in z.entries then 200 else 201) && OnlyChanges(z, z', name)
      && (exists i :: 0 <= i < |rrs| && SoaTaken(z'.soa.rest, rrs[i]))
      && name in z'.entries
      && (forall t, data :: Shows(z'.entries[name], t, data) <==> t != TYPE_SOA && Shows(rrs, t, data))
  }

  /** The merged entry: the data of the new records, and the old data of types that they do
   *  not mention, or that may be appended to if that is asked for. New records win, and old
   *  ones of other types are kept as they are.
   */
  ghost predicate Patched(now: seq<Rr>, was: seq<Rr>, rrs: seq<Rr>, append: bool) {
    && |rrs| <= |now| && SameButTtl(now[..|rrs|], rrs)
    && (forall i :: |rrs| <= i < |now| ==> now[i] in was)
    && (forall r :: r in was && r.rtype !in Types(rrs) ==> r in now)
    && (forall t, data :: Shows(now, t, data) <==>
          || Shows(rrs, t, data)
          || (Shows(was, t, data) && (t !in Types(rrs) || (append && t in {1, 2, 11, 15, 16, 28, 33}))))
  }

  ghost predicate PatchServed(z: Zone, z': Zone, zone: Bytes, name: Bytes, rrs: seq<Rr>, append: bool, code: nat) {
    if !Builds(name, rrs) || name == zone then code == 500
    else if name !in z.entries then
      && code == 201 && OnlyChanges(z, z', name) && z'.soa.rest == z.soa.rest
      && name in z'.entries && SameButTtl(z'.entries[name], rrs)
    else
      && (code == 200 || code == 500)
      && (code == 500 ==> exists now :: Patched(now, z.entries[name], rrs, append) && TooLarge(now))
      && (code == 200 ==>
            && OnlyChanges(z, z', name) && z'.soa.rest == z.soa.rest
            && name in z'.entries && Patched(z'.entries[name], z.entries[name], rrs, append)
            && !TooLarge(z'.entries[name]))
  }

  /** Two or more records, of which one has a type that the sorting table does not have. */
  predicate TooLarge(rrs: seq<Rr>) {
    |rrs| >= 2 && exists i :: 0 <= i < |rrs| && rrs[i].rtype >= 255
  }

  ghost predicate DeleteServed(z: Zone, z': Zone, zone: Bytes, name: Bytes, types: Option<set<nat>>, code: nat) {
    if name == zone then code == 400
    else if name !in z.entries then code == 404
    else
      && code == 200 && OnlyChanges(z, z', name) && z'.soa.rest == z.soa.rest
      && (types.None? ==> name !in z'.entries)
      && (types.Some? ==>
            && (name in z'.entries ==> z'.entries[name] != [])
            && forall r :: r in EntryOf(z'.entries, name) <==> r in z.entries[name] && r.rtype !in types.value)
  }

  /** What a request asks for, verb by verb. */
  ghost predicate Served(z: Zone, z': Zone, zone: Bytes, name: Bytes, req: Request, code: nat) {
    match req
    case Post(rrs) => PostServed(z, z', zone, name, rrs, code)
    case Put(rrs) => PutServed(z, z', zone, name, rrs, code)
    case Patch(rrs, append) => PatchServed(z, z', zone, name, rrs, append, code)
    case Delete(types) => DeleteServed(z, z', zone, name, types, code)
  }

  /** How the zone follows from an accepted verdict. */
  ghost predicate Takes(z: Zone, z': Zone, name: Bytes, v: Verdict, code: nat) {
    match v
    case Refused(reason) => code == reason
    case Accepted(content, soa) =>
      && code == (if name in z.entries then 200 else 201)
      && z'.entries == Replaced(z.entries, name, content)
      && z'.soa == Soa(z.soa.serial + 1, if soa.Some? then soa.value else z.soa.rest)
  }

  lemma {:induction false} AnsweredTakes(s: Server, s': Server, zone: Bytes, name: Bytes, v: Verdict, code: nat)
    requires zone in s.zones && zone in s'.zones && Answered(s, s', zone, name, v, code)
    ensures Takes(s.zones[zone], s'.zones[zone], name, v, code)
  {
  }

  lemma {:induction false} LimitedIsSame(rrs: seq<Rr>)
    ensures SameButTtl(Limited(rrs), rrs)
  {
  }

  lemma {:induction false} SameShows(now: seq<Rr>, rrs: seq<Rr>, t: nat, data: Bytes)
    requires SameButTtl(now, rrs)
    ensures Shows(now, t, data) <==> Shows(rrs, t, data)
  {
    if i :| 0 <= i < |rrs| && rrs[i].rtype == t && rrs[i].rdata == data {
      assert now[i].rtype == t;
    }
  }

  lemma {:induction false} ReplacedOnly(entries: map<Bytes, seq<Rr>>, name: Bytes, content: Option<seq<Rr>>)
    ensures Replaced(entries, name, content) - {name} == entries - {name}
  {
  }

  lemma {:induction false} PostIsServed(z: Zone, z': Zone, zone: Bytes, name: Bytes, rrs: seq<Rr>, code: nat)
    requires Takes(z, z', name, Judge(z, zone, name, Post(rrs)), code)
    ensures PostServed(z, z', zone, name, rrs, code)
  {
    LimitedIsSame(rrs);
    ReplacedOnly(z.entries, name, Some(Limited(rrs)));
  }

  lemma {:induction false} PutIsServed(z: Zone, z': Zone, zone: Bytes, name: Bytes, rrs: seq<Rr>, code: nat)
    requires GoodRrs(rrs) && Takes(z, z', name, Judge(z, zone, name, Put(rrs)), code)
    ensures PutServed(z, z', zone, name, rrs, code)
  {
    if !Builds(name, rrs) {
    } else if name != zone {
      LimitedIsSame(rrs);
      ReplacedOnly(z.entries, name, Some(Limited(rrs)));
    } else {
      ApexIsServed(z, z', name, rrs, code);
    }
  }

  lemma {:induction false} ApexIsServed(z: Zone, z': Zone, name: Bytes, rrs: seq<Rr>, code: nat)
    requires GoodRrs(rrs) && Builds(name, rrs) && Takes(z, z', name, PutApex(Limited(rrs)), code)
    ensures PutServed(z, z', name, name, rrs, code)
  {
    var now := Limited(rrs);
    LimitedGood(rrs);
    LimitedIsSame(rrs);
    SoaOfIff(now);
    if SoaOf(now).None? {
      assert forall i :: 0 <= i < |rrs| ==> now[i].rtype == rrs[i].rtype;
    } else {
      var i :| 0 <= i < |now| && now[i].rtype == TYPE_SOA && |now[i].rdata| >= 20 && SoaOf(now) == Some(SoaFrom(now[i]).rest);
      assert SoaTaken(z'.soa.rest, rrs[i]);
      ReplacedOnly(z.entries, name, Some(NotOf(now, {TYPE_SOA})));
      forall t, data ensures Shows(z'.entries[name], t, data) <==> t != TYPE_SOA && Shows(rrs, t, data) {
        NotOfShows(now, t, data);
        SameShows(now, rrs, t, data);
      }
    }
  }

  /** The first SOA that is long enough counts. */
  lemma {:induction false} SoaOfIff(rrs: seq<Rr>)
    requires StoredRrs(rrs)
    ensures SoaOf(rrs).None? <==> forall i :: 0 <= i < |rrs| ==> rrs[i].rtype != TYPE_SOA
    ensures SoaOf(rrs).Some? ==>
              exists i :: 0 <= i < |rrs| && rrs[i].rtype == TYPE_SOA && |rrs[i].rdata| >= 20 &&
                          SoaOf(rrs) == Some(SoaFrom(rrs[i]).rest)
  {
    if rrs == [] {
    } else if rrs[0].rtype == TYPE_SOA {
    } else {
      var rest := rrs[1..];
      assert forall i :: 0 <= i < |rest| ==> rest[i] == rrs[i + 1];
      SoaOfIff(rest);
      if SoaOf(rest).Some? {
        var i :| 0 <= i < |rest| && rest[i].rtype == TYPE_SOA && |rest[i].rdata| >= 20 &&
                 SoaOf(rest) == Some(SoaFrom(rest[i]).rest);
        assert rrs[i + 1].rtype == TYPE_SOA;
      } else {
        forall i | 0 <= i < |rrs| ensures rrs[i].rtype != TYPE_SOA {
          if i > 0 { assert rest[i - 1].rtype != TYPE_SOA; }
        }
      }
    }
  }

  lemma {:induction false} NotOfShows(rrs: seq<Rr>, t: nat, data: Bytes)
    requires StoredRrs(rrs)
    ensures Shows(NotOf(rrs, {TYPE_SOA}), t, data) <==> t != TYPE_SOA && Shows(rrs, t, data)
  {
    NotOfGood(rrs, {TYPE_SOA});
    var r := NotOf(rrs, {TYPE_SOA});
    if i :| 0 <= i < |r| && r[i].rtype == t && r[i].rdata == data {
      assert r[i] in r;
    }
    if t != TYPE_SOA {
      if i :| 0 <= i < |rrs| && rrs[i].rtype == t && rrs[i].rdata == data {
        assert rrs[i] in r;
      }
    }
  }

  lemma {:induction false} DeleteIsServed(z: Zone, z': Zone, zone: Bytes, name: Bytes, types: Option<set<nat>>,
                                          code: nat)
    requires (name in z.entries ==> GoodEntry(name, z.entries[name]))
    requires Takes(z, z', name, Judge(z, zone, name, Delete(types)), code)
    ensures DeleteServed(z, z', zone, name, types, code)
  {
    if name != zone && name in z.entries {
      if types.Some? {
        NotOfGood(z.entries[name], types.value);
        NotOfSorts(z.entries[name], types.value);
        var rest := NotOf(z.entries[name], types.value);
        ReplacedOnly(z.entries, name, if rest == [] then None else Some(rest));
      } else {
        ReplacedOnly(z.entries, name, None);
      }
    }
  }

  lemma {:induction false} PatchIsServed(z: Zone, z': Zone, zone: Bytes, name: Bytes, rrs: seq<Rr>, append: bool,
                                         code: nat)
    requires GoodRrs(rrs) && (name in z.entries ==> GoodEntry(name, z.entries[name]))
    requires Takes(z, z', name, Judge(z, zone, name, Patch(rrs, append)), code)
    ensures PatchServed(z, z', zone, name, rrs, append, code)
  {
    if !Builds(name, rrs) || name == zone {
    } else if name !in z.entries {
      LimitedIsSame(rrs);
      ReplacedOnly(z.entries, name, Some(Limited(rrs)));
    } else {
      var was, merged := z.entries[name], Merge(Limited(rrs), z.entries[name], append);
      MergeIsPatched(rrs, was, append);
      ReplacedOnly(z.entries, name, Some(merged));
      assert TooLarge(merged) <==> !Sorts(merged);
    }
  }

  lemma {:induction false} MergeFront(rrs: seq<Rr>, old_: seq<Rr>, append: bool)
    ensures var m := Merge(rrs, old_, append);
            rrs <= m && forall i :: |rrs| <= i < |m| ==> m[i] in old_
    ensures forall r :: r in old_ && r.rtype !in Types(rrs) ==> r in Merge(rrs, old_, append)
  {
    if old_ == [] {
    } else {
      MergeFront(rrs, old_[..|old_| - 1], append);
    }
  }

  lemma {:induction false} ShowsLast(front: seq<Rr>, last: Rr, t: nat, data: Bytes)
    ensures Shows(front + [last], t, data) <==> Shows(front, t, data) || (last.rtype == t && last.rdata == data)
  {
    var all := front + [last];
    assert all[|front|] == last && forall i :: 0 <= i < |front| ==> all[i] == front[i];
    if i :| 0 <= i < |front| && front[i].rtype == t && front[i].rdata == data {
      assert all[i].rtype == t;
    }
  }

  lemma {:induction false} HasDataShows(rrs: seq<Rr>, r: Rr)
    ensures HasData(rrs, r) <==> Shows(rrs, r.rtype, r.rdata)
  {
  }

  lemma {:induction false} MergeShows(rrs: seq<Rr>, old_: seq<Rr>, append: bool, t: nat, data: Bytes)
    ensures Shows(Merge(rrs, old_, append), t, data) <==>
            || Shows(rrs, t, data)
            || (Shows(old_, t, data) && (t !in Types(rrs) || (append && t in {1, 2, 11, 15, 16, 28, 33})))
  {
    if old_ == [] {
    } else {
      var front, last := old_[..|old_| - 1], old_[|old_| - 1];
      var merged := Merge(rrs, front, append);
      assert old_ == front + [last];
      MergeShows(rrs, front, append, t, data);
      ShowsLast(front, last, t, data);
      ShowsLast(merged, last, t, data);
      HasDataShows(merged, last);
    }
  }

  lemma {:induction false} MergeIsPatched(rrs: seq<Rr>, was: seq<Rr>, append: bool)
    ensures Patched(Merge(Limited(rrs), was, append), was, rrs, append)
  {
    var new_ := Limited(rrs);
    var m := Merge(new_, was, append);
    LimitedIsSame(rrs);
    MergeFront(new_, was, append);
    assert m[..|rrs|] == new_;
    SameTypes(new_, rrs);
    forall t, data
      ensures Shows(m, t, data) <==>
              || Shows(rrs, t, data)
              || (Shows(was, t, data) && (t !in Types(rrs) || (append && t in {1, 2, 11, 15, 16, 28, 33})))
    {
      MergeShows(new_, was, append, t, data);
      SameShows(new_, rrs, t, data);
    }
  }

  lemma {:induction false} SameTypes(now: seq<Rr>, rrs: seq<Rr>)
    requires SameButTtl(now, rrs)
    ensures Types(now) == Types(rrs)
  {
    forall t ensures t in Types(now) <==> t in Types(rrs) {
      if t in Types(rrs) {
        var i :| 0 <= i < |rrs| && rrs[i].rtype == t;
        assert now[i].rtype == t;
      }
      if t in Types(now) {
        var i :| 0 <= i < |now| && now[i].rtype == t;
        assert rrs[i].rtype == t;
      }
    }
  }

  lemma {:induction false} RequestIsServed(z: Zone, z': Zone, zone: Bytes, name: Bytes, req: Request, code: nat)
    requires ValidZone(zone, z) && GoodRequest(req) && Takes(z, z', name, Judge(z, zone, name, req), code)
    ensures Served(z, z', zone, name, req, code)
  {
    match req
    case Post(rrs) => PostIsServed(z, z', zone, name, rrs, code);
    case Put(rrs) => PutIsServed(z, z', zone, name, rrs, code);
    case Patch(rrs, append) => PatchIsServed(z, z', zone, name, rrs, append, code);
    case Delete(types) => DeleteIsServed(z, z', zone, name, types, code);
  }

  /** The zones and the DIFF family, as the request handler updates them. */
  class ZoneStore {
    var zones: map<Bytes, Zone>
    var diffs: map<DiffRef, Block>
    var store: map<DiffRef, Bytes>

    ghost function View(): Server
      reads this
    {
      Server(zones, diffs, store)
    }

    ghost predicate Valid()
      reads this
    {
      ValidZones(zones)
    }

    /** Its part after the verdict: the entry, the SOA and the block are written. */
    method Update(zone: Bytes, name: Bytes, content: Option<seq<Rr>>, rest: SoaRest)
      returns (ghost b: Block, ghost bytes: Bytes)
      requires Valid() && zone in zones && Trim(name) == name && ValidRest(rest)
      requires zones[zone].soa.serial + 1 < Pow256(4)
      requires content.Some? ==> GoodEntry(name, content.value)
      requires name != zone ==> rest == zones[zone].soa.rest
      modifies this
      ensures Valid()
      ensures View() == Updated(old(View()), zone, NextVersion(old(zones)[zone], name, content, rest), b, bytes)
      ensures BlockOf(b, zone, old(zones)[zone], NextVersion(old(zones)[zone], name, content, rest), name)
      ensures IsStored(bytes, b)
    {
      var z', block, stored := MakeVersion(zone, zones[zone], name, content, rest);
      var key := DiffRef(zone, z'.soa.serial);
      StaysValid(zones, zone, z');
      b, bytes := block, stored;
      zones, diffs, store := zones[zone := z'], diffs[key := block], store[key := stored];
    }

    method Respond(zone: Bytes, name: Bytes, verdict: Verdict) returns (code: nat)
      requires Valid() && zone in zones && Trim(name) == name
      requires zones[zone].soa.serial + 1 < Pow256(4)
      requires GoodVerdict(zones[zone], zone, name, verdict)
      modifies this
      ensures Valid()
      ensures Answered(old(View()), View(), zone, name, verdict, code)
    {
      if verdict.Refused? {
        return verdict.code;
      }
      code := if name in zones[zone].entries then 200 else 201;
      var rest := RestOf(zones[zone], verdict);
      ghost var z' := NextVersion(zones[zone], name, verdict.content, rest);
      ghost var b, bytes := Update(zone, name, verdict.content, rest);
      UpdateIsAnswer(old(View()), View(), zone, name, verdict, rest, z', b, bytes);
    }

    /** onResourceRecord for a name of the given zone. */
    method OnResourceRecord(zone: Bytes, name: Bytes, req: Request) returns (code: nat)
      requires Valid() && zone in zones && GoodRequest(req) && Trim(name) == name
      requires zones[zone].soa.serial + 1 < Pow256(4)
      modifies this
      ensures Valid()
      ensures Answered(old(View()), View(), zone, name, Judge(old(zones)[zone], zone, name, req), code)
      ensures zone in zones && Served(old(zones)[zone], zones[zone], zone, name, req, code)
      ensures code !in {200, 201} ==> View() == old(View())
    {
      var z := zones[zone];
      JudgeGood(z, zone, name, req);
      code := Respond(zone, name, Judge(z, zone, name, req));
      AnsweredTakes(old(View()), View(), zone, name, Judge(z, zone, name, req), code);
      RequestIsServed(z, zones[zone], zone, name, req, code);
    }
  }
}
