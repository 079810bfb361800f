/** Finding the zone of a name (src/lib/RocksDbResource.cpp, lookupEntryAndSoa).
 *
 *  An entry without SOA records how long its zone's name is, so that the lookup
 *  can jump from the entry to the apex instead of asking for every name between.
 */
module Lookup {
  import opened Bytes
  import opened Options
  import opened Differences
  import opened Names

  /** What the lookup needs of a stored entry: the SOA flag and zonelen of its
   *  header; `rrs` stands for the rest.
   */
  datatype Entry = Entry(soa: bool, zonelen: nat, rrs: seq<Rr>)

  type Db = map<Bytes, Entry>

  /** RrAndSoa. OutOfRange stands for the exception of string_view::substr. */
  datatype RrAndSoa =
    | NotFound
    | OutOfRange
    | Same(entry: Entry)
    | Found(zone: Bytes, rr: Option<Entry>, soa: Entry)

  predicate IsApex(db: Db, name: Bytes) {
    name in db && db[name].soa
  }

  /** The entry of a name inside a zone. */
  predicate IsLeaf(db: Db, name: Bytes) {
    name in db && !db[name].soa
  }

  // ------------------------------------------------------ the plain walk

  /** The nearest enclosing zone, found by removing one label at a time. */
  function Nearest(db: Db, name: Bytes): (z: Option<Bytes>)
    ensures z.Some? ==> IsApex(db, z.value) && 0 < |z.value| <= |name|
    decreases |name|
  {
    if name == [] then None
    else if IsApex(db, name) then Some(name)
    else Nearest(db, AfterSegment(name))
  }

  function PlainLookup(db: Db, fqdn: Bytes): RrAndSoa {
    var zone := Nearest(db, fqdn);
    if zone.None? then NotFound
    else if zone.value == fqdn then Same(db[fqdn])
    else Found(zone.value, Get(db, fqdn), db[zone.value])
  }

  function Get(db: Db, name: Bytes): Option<Entry> {
    if name in db then Some(db[name]) else None
  }

  // ------------------------------------------------------- the fast walk

  /** A leaf whose zonelen is the length of its own name. */
  predicate PointsToSelf(db: Db, name: Bytes) {
    IsLeaf(db, name) && db[name].zonelen == |name|
  }

  ghost predicate NoSelfPointers(db: Db) {
    forall name :: name in db && name != [] ==> !PointsToSelf(db, name)
  }

  /** The key of the next round of the loop, when there is one. */
  function Jump(db: Db, key: Bytes): Option<Bytes>
    requires key != [] && !IsApex(db, key)
  {
    if key !in db then Some(AfterSegment(key))
    else if db[key].zonelen > |key| then None
    else Some(key[|key| - db[key].zonelen..])
  }

  /** A round shortens the key, unless the entry points to itself: then the key
   *  stays as it is and the loop never ends.
   */
  lemma {:induction false} JumpShortensIff(db: Db, key: Bytes)
    requires key != [] && !IsApex(db, key) && Jump(db, key).Some?
    ensures |Jump(db, key).value| < |key| <==> !PointsToSelf(db, key)
    ensures PointsToSelf(db, key) ==> Jump(db, key).value == key
  {
    if PointsToSelf(db, key) { assert key[0..] == key; }
  }

  datatype Outcome = Nowhere | Throws | At(zone: Bytes)

  /** Where the loop ends when it starts at `key`. */
  ghost function FastZone(db: Db, key: Bytes): Outcome
    requires NoSelfPointers(db)
    decreases |key|
  {
    if key == [] then Nowhere
    else if IsApex(db, key) then At(key)
    else if Jump(db, key).None? then Throws
    else
      JumpShortensIff(db, key);
      FastZone(db, Jump(db, key).value)
  }

  ghost function FastLookup(db: Db, fqdn: Bytes): RrAndSoa
    requires NoSelfPointers(db)
  {
    match FastZone(db, fqdn)
    case Nowhere => NotFound
    case Throws => OutOfRange
    case At(zone) =>
      FastZoneIsApex(db, fqdn);
      if zone == fqdn then Same(db[fqdn]) else Found(zone, Get(db, fqdn), db[zone])
  }

  lemma {:induction false} FastZoneIsApex(db: Db, key: Bytes)
    requires NoSelfPointers(db)
    ensures FastZone(db, key).At? ==>
              IsApex(db, FastZone(db, key).zone) && 0 < |FastZone(db, key).zone| <= |key|
    ensures FastZone(db, key) == At(key) <==> key != [] && IsApex(db, key)
    decreases |key|
  {
    if key == [] || IsApex(db, key) || Jump(db, key).None? {
    } else {
      JumpShortensIff(db, key);
      FastZoneIsApex(db, Jump(db, key).value);
    }
  }

  // ------------------------------------------------------ why both agree

  /** Every leaf records the length of its nearest zone. */
  ghost predicate ZonelensAreExact(db: Db) {
    forall name :: IsLeaf(db, name) ==> ExactZonelen(db, name)
  }

  predicate ExactZonelen(db: Db, name: Bytes)
    requires name in db
  {
    Nearest(db, name).Some? && db[name].zonelen == |Nearest(db, name).value|
  }

  /** `z` is `name`, or what is left of it after removing labels. */
  ghost predicate IsAbove(z: Bytes, name: Bytes)
    decreases |name|
  {
    z == name || (name != [] && IsAbove(z, AfterSegment(name)))
  }

  lemma {:induction false} AboveIsSuffix(z: Bytes, name: Bytes)
    requires IsAbove(z, name)
    ensures |z| <= |name| && name[|name| - |z|..] == z
    ensures z == name || |z| < |name|
    decreases |name|
  {
    if z == name {
    } else {
      var rest := AfterSegment(name);
      AboveIsSuffix(z, rest);
      assert name[|name| - |rest|..] == rest;
      SubSlice(name, |name| - |rest|, |rest|, |rest| - |z|, |rest|);
    }
  }

  lemma {:induction false} NearestIsAbove(db: Db, name: Bytes)
    ensures Nearest(db, name).Some? ==> IsAbove(Nearest(db, name).value, name)
    ensures Nearest(db, name).Some? && !IsApex(db, name) ==> |Nearest(db, name).value| < |name|
    decreases |name|
  {
    if name == [] {
    } else {
      NearestIsAbove(db, AfterSegment(name));
    }
  }

  /** `z` is `name`, or the text after one of its dots. */
  predicate Encloses(z: Bytes, name: Bytes) {
    && |z| <= |name| && name[|name| - |z|..] == z
    && (|z| < |name| ==> name[|name| - |z| - 1] == DOT)
  }

  lemma {:induction false} AboveIsEnclosing(z: Bytes, name: Bytes)
    requires z != []
    ensures IsAbove(z, name) <==> Encloses(z, name)
    decreases |name|
  {
    if z == name || name == [] {
    } else {
      AboveIsEnclosing(z, AfterSegment(name));
      if Encloses(z, name) { EnclosesRest(z, name); }
      if Encloses(z, AfterSegment(name)) { RestEncloses(z, name); }
    }
  }

  lemma {:induction false} EnclosesRest(z: Bytes, name: Bytes)
    requires Encloses(z, name) && |z| < |name|
    ensures Encloses(z, AfterSegment(name))
  {
    var n, dot := SegmentLen(name), |name| - |z| - 1;
    assert n <= dot && n < |name|;
    assert name[n + 1..][dot - n..] == name[dot + 1..];
  }

  lemma {:induction false} RestEncloses(z: Bytes, name: Bytes)
    requires z != [] && name != [] && Encloses(z, AfterSegment(name))
    ensures Encloses(z, name)
  {
    var n, at := SegmentLen(name), |name| - |z|;
    assert name[n + 1..][at - n - 1..] == name[at..];
  }

  ghost predicate HasZone(db: Db, name: Bytes) {
    exists y :: y != [] && Encloses(y, name) && IsApex(db, y)
  }

  /** The zone with the longest name of those that enclose `name`. */
  ghost predicate IsZoneOf(db: Db, name: Bytes, z: Bytes) {
    && z != [] && Encloses(z, name) && IsApex(db, z)
    && forall y :: y != [] && Encloses(y, name) && IsApex(db, y) ==> |y| <= |z|
  }

  lemma {:induction false} NearestIsLongest(db: Db, name: Bytes, y: Bytes)
    requires y != [] && IsAbove(y, name) && IsApex(db, y)
    ensures Nearest(db, name).Some? && |y| <= |Nearest(db, name).value|
    decreases |name|
  {
    if IsApex(db, name) {
      AboveIsSuffix(y, name);
    } else {
      NearestIsLongest(db, AfterSegment(name), y);
    }
  }

  /** The plain walk finds the zone of a name, if and only if it has one. */
  lemma {:induction false} NearestIsZone(db: Db, name: Bytes)
    ensures Nearest(db, name).Some? <==> HasZone(db, name)
    ensures Nearest(db, name).Some? ==> IsZoneOf(db, name, Nearest(db, name).value)
  {
    var z := Nearest(db, name);
    if z.Some? {
      NearestIsAbove(db, name);
      AboveIsEnclosing(z.value, name);
    }
    forall y | y != [] && Encloses(y, name) && IsApex(db, y) ensures z.Some? && |y| <= |z.value| {
      AboveIsEnclosing(y, name);
      NearestIsLongest(db, name, y);
    }
  }

  lemma {:induction false} ExactIsNotSelf(db: Db)
    requires ZonelensAreExact(db)
    ensures NoSelfPointers(db)
  {
    forall name | name in db && name != [] ensures !PointsToSelf(db, name) {
      if IsLeaf(db, name) { NearestIsAbove(db, name); }
    }
  }

  /** From an exact leaf the jump lands on its zone. */
  lemma {:induction false} LeafJumpsToZone(db: Db, name: Bytes)
    requires IsLeaf(db, name) && name != [] && ExactZonelen(db, name)
    ensures Jump(db, name) == Nearest(db, name)
  {
    NearestIsAbove(db, name);
    AboveIsSuffix(Nearest(db, name).value, name);
  }

  function ToOutcome(z: Option<Bytes>): Outcome {
    if z.Some? then At(z.value) else Nowhere
  }

  lemma {:induction false} FastZoneIsNearest(db: Db, key: Bytes)
    requires ZonelensAreExact(db) && NoSelfPointers(db)
    ensures FastZone(db, key) == ToOutcome(Nearest(db, key))
    decreases |key|
  {
    if key == [] || IsApex(db, key) {
    } else {
      if key in db {
        LeafJumpsToZone(db, key);
      } else {
        FastZoneIsNearest(db, AfterSegment(key));
      }
    }
  }

  /** The loop finds what the plain walk finds. */
  lemma {:induction false} FastIsPlain(db: Db, fqdn: Bytes)
    requires ZonelensAreExact(db)
    ensures NoSelfPointers(db)
    ensures FastLookup(db, fqdn) == PlainLookup(db, fqdn)
  {
    ExactIsNotSelf(db);
    FastZoneIsNearest(db, fqdn);
  }

  /** The answer for a name, from the entries alone. */
  ghost predicate Answers(db: Db, fqdn: Bytes, r: RrAndSoa) {
    match r
    case NotFound => !HasZone(db, fqdn)
    case OutOfRange => false
    case Same(e) => IsZoneOf(db, fqdn, fqdn) && e == db[fqdn]
    case Found(zone, rr, soa) =>
      && zone != fqdn && IsZoneOf(db, fqdn, zone) && soa == db[zone]
      && (if fqdn in db then rr == Some(db[fqdn]) else rr == None)
  }

  lemma {:induction false} PlainAnswers(db: Db, fqdn: Bytes)
    ensures Answers(db, fqdn, PlainLookup(db, fqdn))
  {
    NearestIsZone(db, fqdn);
  }

  /** lookupEntryAndSoa. */
  method LookupEntryAndSoa(db: Db, fqdn: Bytes) returns (r: RrAndSoa)
    requires NoSelfPointers(db)
    ensures r == FastLookup(db, fqdn)
    ensures ZonelensAreExact(db) ==> r == PlainLookup(db, fqdn) && Answers(db, fqdn, r)
  {
    if ZonelensAreExact(db) { FastIsPlain(db, fqdn); }
    PlainAnswers(db, fqdn);
    FastZoneIsApex(db, fqdn);
    var rr: Option<Entry> := None;
    var key := fqdn;
    var first := true;
    while key != []
      invariant FastZone(db, key) == FastZone(db, fqdn)
      invariant first ==> key == fqdn && rr == None
      invariant !first ==> !IsApex(db, fqdn) && rr == Get(db, fqdn)
      decreases |key|
    {
      if key in db {
        var e := db[key];
        if e.soa {
          if first {
            return Same(e);
          }
          return Found(key, rr, e);
        }
        if e.zonelen > |key| {
          return OutOfRange;
        }
        JumpShortensIff(db, key);
        key := key[|key| - e.zonelen..];
        if first {
          rr := Some(e);
        }
      } else {
        key := AfterSegment(key);
      }
      first := false;
    }
    return NotFound;
  }

  // --------------------------------------------- what keeps zonelens exact

  /** No leaf below `name` belongs to a zone with a shorter name. A caller can check
   *  this before it makes `name` a zone.
   */
  ghost predicate NoLeafIsCaptured(db: Db, name: Bytes) {
    forall n :: IsLeaf(db, n) && n != name && IsAbove(name, n) ==> |name| < db[n].zonelen
  }

  /** A new apex takes over the names whose zone was further up. */
  lemma {:induction false} NearestAfterApex(db: Db, name: Bytes, e: Entry, n: Bytes)
    requires name != [] && !IsApex(db, name) && e.soa
    ensures Nearest(db[name := e], n) ==
            if IsAbove(name, n) && (Nearest(db, n).None? || |Nearest(db, n).value| < |name|)
            then Some(name) else Nearest(db, n)
    decreases |n|
  {
    if n == [] {
    } else if n == name {
      NearestIsAbove(db, n);
    } else if IsApex(db, n) {
      if IsAbove(name, n) { AboveIsSuffix(name, n); }
    } else {
      NearestAfterApex(db, name, e, AfterSegment(n));
    }
  }

  /** Nothing changes when the same names are apexes. */
  lemma {:induction false} NearestSame(db: Db, db': Db, n: Bytes)
    requires forall x :: x != [] ==> (IsApex(db, x) <==> IsApex(db', x))
    ensures Nearest(db, n) == Nearest(db', n)
    decreases |n|
  {
    if n == [] || IsApex(db, n) {
    } else {
      NearestSame(db, db', AfterSegment(n));
    }
  }

  /** Making a name a zone keeps the zonelens exact if and only if it captures no leaf. */
  lemma {:induction false} NewApexIsSafeIff(db: Db, name: Bytes, e: Entry)
    requires ZonelensAreExact(db) && name != [] && !IsApex(db, name) && e.soa
    ensures ZonelensAreExact(db[name := e]) <==> NoLeafIsCaptured(db, name)
  {
    var db' := db[name := e];
    forall n | IsLeaf(db, n) && n != name
      ensures IsLeaf(db', n)
      ensures ExactZonelen(db', n) <==> (IsAbove(name, n) ==> |name| < db[n].zonelen)
    {
      NearestAfterApex(db, name, e, n);
      OtherLength(db, name, n);
    }
  }

  lemma {:induction false} OtherLength(db: Db, name: Bytes, n: Bytes)
    requires IsLeaf(db, n) && ExactZonelen(db, n) && !IsApex(db, name)
    ensures IsAbove(name, n) ==> db[n].zonelen != |name|
  {
    if IsAbove(name, n) {
      AboveIsSuffix(name, n);
      NearestIsAbove(db, n);
      AboveIsSuffix(Nearest(db, n).value, n);
    }
  }

  ghost predicate AgreeOn(db: Db, fqdn: Bytes)
    requires NoSelfPointers(db)
  {
    FastLookup(db, fqdn) == PlainLookup(db, fqdn)
  }

  ghost predicate LookupsAgree(db: Db)
    requires NoSelfPointers(db)
  {
    forall fqdn :: AgreeOn(db, fqdn)
  }

  lemma {:induction false} NewApexHasNoSelfPointers(db: Db, name: Bytes, e: Entry)
    requires NoSelfPointers(db) && e.soa
    ensures NoSelfPointers(db[name := e])
  {
    var db' := db[name := e];
    forall n | n in db' && n != [] ensures !PointsToSelf(db', n) {
      if n != name { assert !PointsToSelf(db, n); }
    }
  }

  /** The loop takes a captured leaf to its old zone, the plain walk to the new one. */
  lemma {:induction false} CapturedLeafGoesAstray(db: Db, name: Bytes, e: Entry, n: Bytes)
    requires ZonelensAreExact(db) && name != [] && !IsApex(db, name) && e.soa
    requires IsLeaf(db, n) && n != name && IsAbove(name, n) && db[n].zonelen <= |name|
    ensures var db' := db[name := e];
            && NoSelfPointers(db')
            && FastLookup(db', n) == Found(Nearest(db, n).value, Some(db[n]), db[Nearest(db, n).value])
            && PlainLookup(db', n) == Found(name, Some(db[n]), e)
            && Nearest(db, n).value != name
  {
    var db', zone := db[name := e], Nearest(db, n).value;
    ExactIsNotSelf(db);
    NewApexHasNoSelfPointers(db, name, e);
    OtherLength(db, name, n);
    NearestAfterApex(db, name, e, n);
    LeafJumpsToZone(db, n);
    NearestIsAbove(db, n);
    assert FastZone(db', zone) == At(zone);
    assert Jump(db', n) == Some(zone);
  }

  /** After a name became a zone, every lookup still finds what the plain walk finds
   *  if and only if no leaf was captured.
   */
  lemma {:induction false} NewApexKeepsLookupsIff(db: Db, name: Bytes, e: Entry)
    requires ZonelensAreExact(db) && name != [] && !IsApex(db, name) && e.soa
    ensures NoSelfPointers(db[name := e])
    ensures LookupsAgree(db[name := e]) <==> NoLeafIsCaptured(db, name)
  {
    var db' := db[name := e];
    ExactIsNotSelf(db);
    NewApexHasNoSelfPointers(db, name, e);
    if NoLeafIsCaptured(db, name) {
      NewApexIsSafeIff(db, name, e);
      forall fqdn ensures AgreeOn(db', fqdn) {
        FastIsPlain(db', fqdn);
      }
    } else {
      var n :| IsLeaf(db, n) && n != name && IsAbove(name, n) && db[n].zonelen <= |name|;
      CapturedLeafGoesAstray(db, name, e, n);
      assert !AgreeOn(db', n);
    }
  }

  /** Writing a leaf with the length of its zone, an apex over an apex, or removing a
   *  leaf, keeps the zonelens exact.
   */
  lemma {:induction false} LeafWriteIsSafe(db: Db, name: Bytes, e: Entry)
    requires ZonelensAreExact(db) && !IsApex(db, name) && !e.soa
    requires Nearest(db, name).Some? && e.zonelen == |Nearest(db, name).value|
    ensures ZonelensAreExact(db[name := e])
  {
    var db' := db[name := e];
    forall n | IsLeaf(db', n) ensures ExactZonelen(db', n) {
      NearestSame(db, db', n);
      if n != name { assert IsLeaf(db, n); }
    }
  }

  lemma {:induction false} ApexWriteIsSafe(db: Db, name: Bytes, e: Entry)
    requires ZonelensAreExact(db) && IsApex(db, name) && e.soa
    ensures ZonelensAreExact(db[name := e])
  {
    var db' := db[name := e];
    forall n | IsLeaf(db', n) ensures ExactZonelen(db', n) {
      NearestSame(db, db', n);
      assert IsLeaf(db, n);
    }
  }

  lemma {:induction false} LeafRemoveIsSafe(db: Db, name: Bytes)
    requires ZonelensAreExact(db) && !IsApex(db, name)
    ensures ZonelensAreExact(db - {name})
  {
    var db' := db - {name};
    forall n | IsLeaf(db', n) ensures ExactZonelen(db', n) {
      NearestSame(db, db', n);
      assert IsLeaf(db, n);
    }
  }

  /** No walk ever asks for the empty name. */
  lemma {:induction false} RootWriteIsSafe(db: Db, e: Entry)
    requires ZonelensAreExact(db) && e.soa
    ensures ZonelensAreExact(db[[] := e])
  {
    var db' := db[[] := e];
    forall n | IsLeaf(db', n) ensures ExactZonelen(db', n) {
      NearestSame(db, db', n);
      assert IsLeaf(db, n);
    }
  }

  /** The new zone b.c takes the name a.b.c away from its zone c, but the loop still
   *  jumps from a.b.c to c.
   */
  lemma {:induction false} CapturedLeafIsMisplaced()
    ensures var c: Bytes, bc: Bytes, abc: Bytes := [99], [98, DOT, 99], [97, DOT, 98, DOT, 99];
            var apex, leaf := Entry(true, 0, []), Entry(false, 1, []);
            var before := map[c := apex, abc := leaf];
            var after := before[bc := apex];
            && ZonelensAreExact(before) && NoSelfPointers(after)
            && PlainLookup(after, abc) == Found(bc, Some(leaf), apex)
            && FastLookup(after, abc) == Found(c, Some(leaf), apex)
  {
    var c: Bytes, bc: Bytes, abc: Bytes := [99], [98, DOT, 99], [97, DOT, 98, DOT, 99];
    var apex, leaf := Entry(true, 0, []), Entry(false, 1, []);
    var before := map[c := apex, abc := leaf];
    var after := before[bc := apex];
    Segments();
    assert Nearest(before, c) == Some(c);
    assert Nearest(before, bc) == Some(c);
    assert Nearest(before, abc) == Some(c);
    assert Nearest(after, bc) == Some(bc);
    assert Nearest(after, abc) == Some(bc);
    assert abc[|abc| - 1..] == c;
    assert FastZone(after, c) == At(c);
    assert Jump(after, abc) == Some(c);
  }

  lemma {:induction false} Segments()
    ensures AfterSegment([97, DOT, 98, DOT, 99]) == [98, DOT, 99]
    ensures AfterSegment([98, DOT, 99]) == [99]
  {
    assert SegmentLen([97, DOT, 98, DOT, 99]) == 1;
    assert SegmentLen([98, DOT, 99]) == 1;
  }

  // ------------------------------------------------------------- requests

  datatype Request =
    | Put(fqdn: Bytes, soa: bool, rrs: seq<Rr>)
    | Delete(fqdn: Bytes, types: Option<set<nat>>)
    | NewZone(fqdn: Bytes, rrs: seq<Rr>)

  /** The records that a deletion leaves: without given types it leaves none. */
  function Left(rrs: seq<Rr>, types: Option<set<nat>>): (left: seq<Rr>)
    ensures forall r :: r in left <==> r in rrs && types.Some? && r.rtype !in types.value
  {
    if rrs == [] then []
    else
      var front, last := rrs[..|rrs| - 1], rrs[|rrs| - 1];
      assert rrs == front + [last];
      Left(front, types) + if types.Some? && last.rtype !in types.value then [last] else []
  }

  /** What the endpoints `rr` and `zone` do to the entries, with the plain walk. */
  function Apply(db: Db, req: Request): Db {
    match req
    case Put(fqdn, soa, rrs) => (
      match PlainLookup(db, fqdn)
      case Same(_) => if soa then db[fqdn := Entry(true, 0, rrs)] else db
      case Found(zone, _, _) => db[fqdn := Entry(soa, |zone|, rrs)]
      case _ => db)
    case Delete(fqdn, types) => (
      match PlainLookup(db, fqdn)
      case Found(zone, Some(e), _) =>
        var left := Left(e.rrs, types);
        if left == [] then db - {fqdn} else db[fqdn := Entry(false, |zone|, left)]
      case _ => db)
    case NewZone(fqdn, rrs) =>
      if fqdn in db then db else db[fqdn := Entry(true, 0, rrs)]
  }

  /** The name that a request turns into a zone, if any. */
  function NewApex(db: Db, req: Request): Option<Bytes> {
    match req
    case Put(fqdn, soa, _) => if soa && PlainLookup(db, fqdn).Found? then Some(fqdn) else None
    case Delete(_, _) => None
    case NewZone(fqdn, _) => if fqdn == [] || fqdn in db then None else Some(fqdn)
  }

  /** A request keeps the zonelens exact if and only if it makes no zone, or one that
   *  captures no leaf.
   */
  lemma {:induction false} RequestIsSafeIff(db: Db, req: Request)
    requires ZonelensAreExact(db)
    ensures ZonelensAreExact(Apply(db, req)) <==>
            NewApex(db, req).Some? ==> NoLeafIsCaptured(db, NewApex(db, req).value)
  {
    var fqdn := req.fqdn;
    NearestIsAbove(db, fqdn);
    match req
    case Put(_, soa, rrs) =>
      match PlainLookup(db, fqdn) {
        case Same(_) => if soa { ApexWriteIsSafe(db, fqdn, Entry(true, 0, rrs)); }
        case Found(zone, _, _) =>
          if soa {
            NewApexIsSafeIff(db, fqdn, Entry(true, |zone|, rrs));
          } else {
            NotApex(db, fqdn);
            LeafWriteIsSafe(db, fqdn, Entry(false, |zone|, rrs));
          }
        case _ =>
      }
    case Delete(_, types) =>
      match PlainLookup(db, fqdn) {
        case Found(zone, Some(e), _) =>
          NotApex(db, fqdn);
          LeafRemoveIsSafe(db, fqdn);
          LeafWriteIsSafe(db, fqdn, Entry(false, |zone|, Left(e.rrs, types)));
        case _ =>
      }
    case NewZone(_, rrs) =>
      if fqdn == [] {
        RootWriteIsSafe(db, Entry(true, 0, rrs));
      } else if fqdn !in db {
        NewApexIsSafeIff(db, fqdn, Entry(true, 0, rrs));
      }
  }

  lemma {:induction false} NotApex(db: Db, fqdn: Bytes)
    requires PlainLookup(db, fqdn).Found?
    ensures !IsApex(db, fqdn) && fqdn != []
  {
  }

  function Run(db: Db, reqs: seq<Request>): Db
    decreases |reqs|
  {
    if reqs == [] then db else Run(Apply(db, reqs[0]), reqs[1..])
  }

  /** No request of the run makes a zone that captures a leaf. */
  ghost predicate CapturesNothing(db: Db, reqs: seq<Request>)
    decreases |reqs|
  {
    reqs != [] ==>
      && (NewApex(db, reqs[0]).Some? ==> NoLeafIsCaptured(db, NewApex(db, reqs[0]).value))
      && CapturesNothing(Apply(db, reqs[0]), reqs[1..])
  }

  /** After every run that captures nothing, every lookup finds the nearest zone. */
  lemma {:induction false} RunKeepsLookups(db: Db, reqs: seq<Request>, fqdn: Bytes)
    requires ZonelensAreExact(db) && CapturesNothing(db, reqs)
    ensures ZonelensAreExact(Run(db, reqs)) && NoSelfPointers(Run(db, reqs))
    ensures FastLookup(Run(db, reqs), fqdn) == PlainLookup(Run(db, reqs), fqdn)
    decreases |reqs|
  {
    if reqs == [] {
      FastIsPlain(db, fqdn);
    } else {
      RequestIsSafeIff(db, reqs[0]);
      RunKeepsLookups(Apply(db, reqs[0]), reqs[1..], fqdn);
    }
  }

  /** Every other name keeps its entry, or has none. */
  ghost predicate OnlyChanges(db: Db, db': Db, name: Bytes) {
    forall n :: n != name ==> (n in db <==> n in db') && (n in db ==> db'[n] == db[n])
  }

  /** The entries, as the two endpoints change them. */
  class EntryStore {
    var db: Db

    /** PUT and PATCH of a record set: the new entry gets the length of the zone that
     *  the lookup found; the apex must keep a SOA.
     */
    method PutRr(fqdn: Bytes, soa: bool, rrs: seq<Rr>) returns (rcode: nat)
      requires ZonelensAreExact(db)
      modifies this
      ensures db == Apply(old(db), Put(fqdn, soa, rrs))
      ensures rcode == 404 <==> Nearest(old(db), fqdn).None?
      ensures NewApex(old(db), Put(fqdn, soa, rrs)).None? ==> ZonelensAreExact(db)
      ensures rcode == 500 <==> fqdn != [] && IsApex(old(db), fqdn) && !soa
      ensures rcode == 201 <==> Nearest(old(db), fqdn).Some? && fqdn !in old(db)
      ensures rcode in {200, 201} ==> OnlyChanges(old(db), db, fqdn)
      ensures rcode in {200, 201} ==> fqdn in db && db[fqdn].soa == soa && db[fqdn].rrs == rrs
      ensures rcode !in {200, 201} ==> rcode in {404, 500} && db == old(db)
    {
      RequestIsSafeIff(db, Put(fqdn, soa, rrs));
      ExactIsNotSelf(db);
      var existing := LookupEntryAndSoa(db, fqdn);
      if existing.Same? {
        if soa {
          db := db[fqdn := Entry(true, 0, rrs)];
          rcode := 200;
        } else {
          rcode := 500;
        }
      } else if existing.Found? {
        db := db[fqdn := Entry(soa, |existing.zone|, rrs)];
        rcode := if existing.rr.Some? then 200 else 201;
      } else {
        rcode := 404;
      }
    }

    /** DELETE of a record set, or of the given types of it. The rest is written back with
     *  the length of the zone; an entry without any rest is removed.
     */
    method DeleteRr(fqdn: Bytes, types: Option<set<nat>>) returns (rcode: nat)
      requires ZonelensAreExact(db)
      modifies this
      ensures db == Apply(old(db), Delete(fqdn, types))
      ensures ZonelensAreExact(db)
      ensures rcode == 200 <==> IsLeaf(old(db), fqdn) && Nearest(old(db), fqdn).Some?
      ensures rcode != 200 ==> db == old(db)
      ensures rcode == 200 ==> OnlyChanges(old(db), db, fqdn)
      ensures rcode == 200 && fqdn !in db ==> forall r :: r in old(db)[fqdn].rrs ==> types.Some? ==> r.rtype in types.value
      ensures rcode == 200 && fqdn in db ==>
                && db[fqdn].rrs != []
                && forall r :: r in db[fqdn].rrs <==> r in old(db)[fqdn].rrs && types.Some? && r.rtype !in types.value
    {
      RequestIsSafeIff(db, Delete(fqdn, types));
      ExactIsNotSelf(db);
      var existing := LookupEntryAndSoa(db, fqdn);
      if existing.Same? {
        rcode := 400;
      } else if existing.Found? && existing.rr.Some? {
        var left := Left(existing.rr.value.rrs, types);
        db := if left == [] then db - {fqdn} else db[fqdn := Entry(false, |existing.zone|, left)];
        rcode := 200;
      } else {
        rcode := 404;
      }
    }

    /** POST of a zone. A name that has an entry already is refused. */
    method CreateZone(fqdn: Bytes, rrs: seq<Rr>) returns (rcode: nat)
      requires ZonelensAreExact(db)
      modifies this
      ensures db == Apply(old(db), NewZone(fqdn, rrs))
      ensures rcode == 409 <==> fqdn in old(db)
      ensures rcode == 409 ==> db == old(db)
      ensures rcode != 409 ==> rcode == 201 && db == old(db)[fqdn := Entry(true, 0, rrs)]
      ensures fqdn !in old(db) && fqdn != [] ==> (ZonelensAreExact(db) <==> NoLeafIsCaptured(old(db), fqdn))
    {
      RequestIsSafeIff(db, NewZone(fqdn, rrs));
      if fqdn in db {
        rcode := 409;
      } else {
        db := db[fqdn := Entry(true, 0, rrs)];
        rcode := 201;
      }
    }
  }
}
