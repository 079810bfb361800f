/** Incremental zone transfer over TCP: the reply of DnsEngine::doIxfr and the
 *  receiver of section 4 of RFC 1995, with the stages of Slave::handleIxfrPayloads.
 */
module Ixfr {
  import opened Bytes
  import opened Options
  import opened Keys
  import opened Scans
  import opened Differences
  import opened Names
  import opened Storage
  import opened Entries
  import opened StoredEntries
  import opened Blocks
  import opened Zones

  function Flatten(blocks: seq<Block>): seq<Rec> {
    if blocks == [] then [] else Flatten(blocks[..|blocks| - 1]) + BlockRecs(blocks[|blocks| - 1])
  }

  datatype Answer = FormatError | NameError | ServerFailure | FullTransfer | Reply(recs: seq<Rec>)

  /** The DIFF family as its iterator sees it, for what is stored. */
  ghost predicate Lists(db: seq<DiffRef>, store: map<DiffRef, Bytes>) {
    DiffFamily(db) && forall r :: r in db <==> r in store
  }

  /** The serial that the client says it has: the last SOA in the authority section. */
  function FromSerial(authority: seq<Rec>): nat {
    if authority == [] then 0
    else if authority[|authority| - 1].SoaRec? then authority[|authority| - 1].soa.serial
    else FromSerial(authority[..|authority| - 1])
  }

  /** The serial of the last SOA of the section, or 0 when it has none. */
  ghost predicate IsClientSerial(authority: seq<Rec>, from: nat) {
    && ((forall i :: 0 <= i < |authority| ==> authority[i].DataRec?) ==> from == 0)
    && (forall i :: IsLastSoa(authority, i) ==> from == authority[i].soa.serial)
  }

  ghost predicate IsLastSoa(authority: seq<Rec>, i: int) {
    0 <= i < |authority| && authority[i].SoaRec? && forall j :: i < j < |authority| ==> authority[j].DataRec?
  }

  lemma {:induction false} LastSoaIsSerial(authority: seq<Rec>, i: int)
    requires IsLastSoa(authority, i)
    ensures FromSerial(authority) == authority[i].soa.serial
    decreases |authority|
  {
    var n := |authority| - 1;
    if i == n {
    } else {
      assert IsLastSoa(authority[..n], i);
      LastSoaIsSerial(authority[..n], i);
    }
  }

  lemma {:induction false} NoSoaIsZero(authority: seq<Rec>)
    requires forall i :: 0 <= i < |authority| ==> authority[i].DataRec?
    ensures FromSerial(authority) == 0
  {
    if authority == [] {
    } else {
      NoSoaIsZero(authority[..|authority| - 1]);
    }
  }

  lemma {:induction false} FromSerialIsLast(authority: seq<Rec>)
    ensures IsClientSerial(authority, FromSerial(authority))
  {
    forall i | IsLastSoa(authority, i) ensures FromSerial(authority) == authority[i].soa.serial {
      LastSoaIsSerial(authority, i);
    }
    if forall i :: 0 <= i < |authority| ==> authority[i].DataRec? {
      NoSoaIsZero(authority);
    }
  }

  /** Whatever surrounds it, the last SOA counts. */
  lemma {:induction false} LastSoaCounts(pre: seq<Rec>, owner: Bytes, soa: Soa, post: seq<Rec>)
    requires forall i :: 0 <= i < |post| ==> post[i].DataRec?
    ensures FromSerial(pre + [SoaRec(owner, soa)] + post) == soa.serial
  {
    var authority := pre + [SoaRec(owner, soa)] + post;
    assert authority[|pre|] == SoaRec(owner, soa);
    assert forall j :: |pre| < j < |authority| ==> authority[j] == post[j - |pre| - 1];
    LastSoaIsSerial(authority, |pre|);
  }

  /** What is sent of a stored value; None when it is malformed, or does not start with a SOA. */
  ghost function SentOf(bytes: Bytes): Option<seq<Rec>> {
    var recs := ReadEntry(bytes);
    if recs.None? || (recs.value != [] && recs.value[0].rr.rtype != TYPE_SOA) then None
    else Some(RecsOf(recs.value))
  }

  /** The same of all values with the given keys. */
  ghost function SentAt(store: map<DiffRef, Bytes>, refs: seq<DiffRef>): Option<seq<Rec>>
    requires forall i :: 0 <= i < |refs| ==> refs[i] in store
  {
    if refs == [] then Some([])
    else
      var front, last := SentAt(store, refs[..|refs| - 1]), SentOf(store[refs[|refs| - 1]]);
      if front.None? || last.None? then None else Some(front.value + last.value)
  }

  ghost function Sent(store: map<DiffRef, Bytes>, db: seq<DiffRef>, zone: Bytes, from: nat): Option<seq<Rec>>
    requires Lists(db, store)
  {
    WantedAreStored(store, db, zone, from);
    SentAt(store, Wanted(db, zone, from))
  }

  lemma {:induction false} WantedAreStored(store: map<DiffRef, Bytes>, db: seq<DiffRef>, zone: Bytes, from: nat)
    requires Lists(db, store)
    ensures forall i :: 0 <= i < |Wanted(db, zone, from)| ==> Wanted(db, zone, from)[i] in store
  {
    var w := Wanted(db, zone, from);
    WantedIsExact(db, zone, from);
    assert forall i :: 0 <= i < |w| ==> w[i] in w;
  }

  ghost function AnswerTo(s: Server, db: seq<DiffRef>, zone: Bytes, authority: seq<Rec>): Answer
    requires Lists(db, s.store)
  {
    if authority == [] then FormatError
    else if zone !in s.zones then NameError
    else
      var soa, from := SoaRec(zone, s.zones[zone].soa), FromSerial(authority);
      if soa.soa.serial <= from then Reply([soa])
      else if Wanted(db, zone, from) == [] then FullTransfer
      else
        var sent := Sent(s.store, db, zone, from);
        if sent.None? then ServerFailure else Reply([soa] + sent.value + [soa])
  }

  method FindSerial(authority: seq<Rec>) returns (from: nat)
    ensures from == FromSerial(authority)
    ensures IsClientSerial(authority, from)
  {
    FromSerialIsLast(authority);
    from := 0;
    var n := 0;
    while n < |authority|
      invariant 0 <= n <= |authority|
      invariant from == FromSerial(authority[..n])
    {
      if authority[n].SoaRec? {
        from := authority[n].soa.serial;
      }
      n := n + 1;
      assert authority[..n][..n - 1] == authority[..n - 1];
    }
    assert authority[..n] == authority;
  }

  /** The callback of the scan. */
  method SendOne(bytes: Bytes) returns (sent: Option<seq<Rec>>)
    ensures sent == SentOf(bytes)
  {
    var recs := ReadRecords(bytes);
    if recs.None? || (recs.value != [] && recs.value[0].rr.rtype != TYPE_SOA) {
      return None;
    }
    sent := Some(RecsOf(recs.value));
  }

  /** The scan with its callback, which stops at the first value that cannot be sent. */
  method SendBlocks(store: map<DiffRef, Bytes>, refs: seq<DiffRef>) returns (sent: Option<seq<Rec>>)
    requires forall i :: 0 <= i < |refs| ==> refs[i] in store
    ensures sent == SentAt(store, refs)
  {
    sent := Some([]);
    var i := 0;
    while i < |refs|
      invariant 0 <= i <= |refs|
      invariant sent == SentAt(store, refs[..i]) && sent.Some?
    {
      assert refs[..i + 1][..i] == refs[..i];
      var one := SendOne(store[refs[i]]);
      if one.None? {
        SentPrefix(store, refs, i + 1);
        return None;
      }
      sent := Some(sent.value + one.value);
      i := i + 1;
    }
    assert refs[..i] == refs;
  }

  /** A value that cannot be sent: it does not read as an entry, or not as one that starts
   *  with a SOA.
   */
  ghost predicate Unsendable(bytes: Bytes) {
    var recs := ReadEntry(bytes);
    recs.None? || (recs.value != [] && recs.value[0].rr.rtype != TYPE_SOA)
  }

  ghost function AllUnsendable(store: map<DiffRef, Bytes>): set<DiffRef> {
    set r | r in store && Unsendable(store[r])
  }

  lemma {:induction false} UnsendableIsNotSent(store: map<DiffRef, Bytes>, r: DiffRef)
    requires r in store
    ensures SentOf(store[r]).None? <==> r in AllUnsendable(store)
  {
  }

  ghost predicate AnyIn(refs: seq<DiffRef>, bad: set<DiffRef>) {
    exists i :: 0 <= i < |refs| && refs[i] in bad
  }

  lemma {:induction false} AnyInLast(refs: seq<DiffRef>, bad: set<DiffRef>)
    requires refs != []
    ensures AnyIn(refs, bad) <==> AnyIn(refs[..|refs| - 1], bad) || refs[|refs| - 1] in bad
  {
    var front := refs[..|refs| - 1];
    if i :| 0 <= i < |refs| && refs[i] in bad {
      if i < |front| { assert front[i] in bad; }
    }
  }

  /** All is sent, or some value cannot be. */
  lemma {:induction false} SentIff(store: map<DiffRef, Bytes>, refs: seq<DiffRef>, bad: set<DiffRef>)
    requires forall i :: 0 <= i < |refs| ==> refs[i] in store && (SentOf(store[refs[i]]).None? <==> refs[i] in bad)
    ensures SentAt(store, refs).None? <==> AnyIn(refs, bad)
  {
    if refs == [] {
    } else {
      var n := |refs| - 1;
      SentIff(store, refs[..n], bad);
      AnyInLast(refs, bad);
    }
  }

  lemma {:induction false} SentPrefix(store: map<DiffRef, Bytes>, refs: seq<DiffRef>, n: nat)
    requires n <= |refs| && forall i :: 0 <= i < |refs| ==> refs[i] in store
    requires SentAt(store, refs[..n]) == None
    ensures SentAt(store, refs) == None
    decreases |refs| - n
  {
    if n == |refs| {
      assert refs[..n] == refs;
    } else {
      assert refs[..n + 1][..n] == refs[..n];
      SentPrefix(store, refs, n + 1);
    }
  }

  /** No block of the zone, from the client's serial on, is stored. */
  ghost predicate NoneStored(s: Server, zone: Bytes, from: nat) {
    forall r :: r in s.store ==> !(r.zone == zone && from <= r.serial)
  }

  ghost predicate SomeUnsendable(s: Server, zone: Bytes, from: nat) {
    exists r :: r in AllUnsendable(s.store) && r.zone == zone && from <= r.serial
  }

  /** The answer to each kind of request, from the state alone. */
  ghost predicate Answers(s: Server, zone: Bytes, authority: seq<Rec>, from: nat, answer: Answer) {
    if authority == [] then answer == FormatError
    else if zone !in s.zones then answer == NameError
    else
      var soa := s.zones[zone].soa;
      if soa.serial <= from then answer == Reply([SoaRec(zone, soa)])
      else if NoneStored(s, zone, from) then answer == FullTransfer
      else if SomeUnsendable(s, zone, from) then answer == ServerFailure
      else
        && answer.Reply? && |answer.recs| >= 2
        && answer.recs[0] == answer.recs[|answer.recs| - 1] == SoaRec(zone, soa)
  }

  lemma {:induction false} AnswerIsRight(s: Server, db: seq<DiffRef>, zone: Bytes, authority: seq<Rec>)
    requires Lists(db, s.store)
    ensures Answers(s, zone, authority, FromSerial(authority), AnswerTo(s, db, zone, authority))
  {
    if authority != [] && zone in s.zones && FromSerial(authority) < s.zones[zone].soa.serial {
      var from := FromSerial(authority);
      NothingStoredIff(s, db, zone, from);
      WantedAreStored(s.store, db, zone, from);
      forall r | r in s.store ensures SentOf(s.store[r]).None? <==> r in AllUnsendable(s.store) {
        UnsendableIsNotSent(s.store, r);
      }
      SentIff(s.store, Wanted(db, zone, from), AllUnsendable(s.store));
      UnsendableIff(s.store, db, zone, from, AllUnsendable(s.store));
    }
  }

  lemma {:induction false} NothingStoredIff(s: Server, db: seq<DiffRef>, zone: Bytes, from: nat)
    requires Lists(db, s.store)
    ensures Wanted(db, zone, from) == [] <==> NoneStored(s, zone, from)
  {
    var w := Wanted(db, zone, from);
    WantedIsExact(db, zone, from);
    if w != [] { assert w[0] in w; }
  }

  lemma {:induction false} UnsendableIff(store: map<DiffRef, Bytes>, db: seq<DiffRef>, zone: Bytes, from: nat,
                                         bad: set<DiffRef>)
    requires Lists(db, store) && forall r :: r in bad ==> r in store
    ensures var w := Wanted(db, zone, from);
            (exists i :: 0 <= i < |w| && w[i] in bad) <==> exists r :: r in bad && r.zone == zone && from <= r.serial
  {
    var w := Wanted(db, zone, from);
    WantedIsExact(db, zone, from);
    if r :| r in bad && r.zone == zone && from <= r.serial {
      assert r in w;
    }
    if i :| 0 <= i < |w| && w[i] in bad {
      assert w[i] in w;
    }
  }

  method DoIxfr(s: Server, db: seq<DiffRef>, zone: Bytes, authority: seq<Rec>) returns (answer: Answer)
    requires Lists(db, s.store) && NulFree(zone) && FromSerial(authority) < Pow256(4)
    ensures answer == AnswerTo(s, db, zone, authority)
    ensures Answers(s, zone, authority, FromSerial(authority), answer)
  {
    AnswerIsRight(s, db, zone, authority);
    if authority == [] {
      return FormatError;
    }
    var from := FindSerial(authority);
    if zone !in s.zones {
      return NameError;
    }
    var currentSoa := SoaRec(zone, s.zones[zone].soa);
    if from >= currentSoa.soa.serial {
      return Reply([currentSoa]);
    }
    var refs := IterateDiffs(db, zone, from);
    if refs == [] {
      return FullTransfer;
    }
    WantedAreStored(s.store, db, zone, from);
    var sent := SendBlocks(s.store, refs);
    if sent.None? {
      return ServerFailure;
    }
    return Reply([currentSoa] + sent.value + [currentSoa]);
  }

  // ------------------------------------------------------------ the receiver

  datatype Stage = NeedFirstSoa | HaveFirstSoa | HaveDelSoa | HaveAddSoa | HaveFinalSoa

  datatype Receiver =
    | Receiver(stage: Stage, isIxfr: bool, current: nat, prev: nat, zone: set<Owned>)
    | Failed

  function HandleSoa(c: Receiver, serial: nat): Receiver
    requires c.Receiver?
  {
    if serial == c.current then
      c.(stage := if c.isIxfr && c.stage == HaveDelSoa then HaveAddSoa else HaveFinalSoa, prev := serial)
    else if serial > c.current || !c.isIxfr then Failed
    else if c.stage == HaveFirstSoa || c.stage == HaveAddSoa then c.(stage := HaveDelSoa, prev := serial)
    else if c.stage == HaveDelSoa then
      if serial <= c.prev then Failed else c.(stage := HaveAddSoa, prev := serial)
    else c.(prev := serial)
  }

  function Handle(c: Receiver, r: Rec): Receiver {
    if c.Failed? || c.stage == HaveFinalSoa then Failed
    else if c.stage == NeedFirstSoa then
      if r.SoaRec? then c.(stage := HaveFirstSoa, current := r.soa.serial) else Failed
    else
      match r
      case SoaRec(_, soa) => HandleSoa(c, soa.serial)
      case DataRec(owner, rr) =>
        match c.stage
        case HaveAddSoa => c.(zone := c.zone + {(owner, rr)})
        case HaveDelSoa => c.(zone := c.zone - {(owner, rr)})
        case HaveFirstSoa =>
          // A full transfer in reply to the request: start over.
          c.(isIxfr := false, stage := HaveAddSoa, zone := (if c.isIxfr then {} else c.zone) + {(owner, rr)})
  }

  function HandleAll(c: Receiver, recs: seq<Rec>): Receiver {
    if recs == [] then c else Handle(HandleAll(c, recs[..|recs| - 1]), recs[|recs| - 1])
  }

  lemma {:induction false} HandleAppend(c: Receiver, a: seq<Rec>, b: seq<Rec>)
    ensures HandleAll(c, a + b) == HandleAll(HandleAll(c, a), b)
    decreases |b|
  {
    if b == [] {
      assert a + b == a;
    } else {
      HandleAppend(c, a, b[..|b| - 1]);
      assert (a + b)[..|a + b| - 1] == a + b[..|b| - 1];
    }
  }

  lemma {:induction false} HandleOne(c: Receiver, r: Rec)
    ensures HandleAll(c, [r]) == Handle(c, r)
  {
    assert [r][..0] == [];
  }

  lemma {:induction false} HandleNext(c: Receiver, owner: Bytes, front: seq<Rr>, last: Rr)
    ensures HandleAll(c, DataRecs(owner, front + [last])) ==
            Handle(HandleAll(c, DataRecs(owner, front)), DataRec(owner, last))
  {
    assert DataRecs(owner, front + [last])[..|front|] == DataRecs(owner, front);
  }

  lemma {:induction false} HandleDelete(c: Receiver, some: set<Owned>, owner: Bytes, rr: Rr)
    requires c.Receiver? && c.stage == HaveDelSoa
    ensures Handle(c.(zone := c.zone - some), DataRec(owner, rr)) == c.(zone := c.zone - (some + {(owner, rr)}))
  {
    assert c.zone - some - {(owner, rr)} == c.zone - (some + {(owner, rr)});
  }

  lemma {:induction false} HandleAdd(c: Receiver, some: set<Owned>, owner: Bytes, rr: Rr)
    requires c.Receiver? && c.stage == HaveAddSoa
    ensures Handle(c.(zone := c.zone + some), DataRec(owner, rr)) == c.(zone := c.zone + (some + {(owner, rr)}))
  {
    assert c.zone + some + {(owner, rr)} == c.zone + (some + {(owner, rr)});
  }

  lemma {:induction false} HandleDeletes(c: Receiver, owner: Bytes, rrs: seq<Rr>)
    requires c.Receiver? && c.stage == HaveDelSoa
    ensures HandleAll(c, DataRecs(owner, rrs)) == c.(zone := c.zone - OwnedBy(owner, Records(rrs)))
  {
    if rrs == [] {
      assert c.zone - OwnedBy(owner, Records(rrs)) == c.zone;
    } else {
      var front, last := rrs[..|rrs| - 1], rrs[|rrs| - 1];
      HandleDeletes(c, owner, front);
      assert rrs == front + [last];
      HandleNext(c, owner, front, last);
      OwnedSplit(owner, front, last);
      HandleDelete(c, OwnedBy(owner, Records(front)), owner, last);
    }
  }

  lemma {:induction false} HandleAdds(c: Receiver, owner: Bytes, rrs: seq<Rr>)
    requires c.Receiver? && c.stage == HaveAddSoa
    ensures HandleAll(c, DataRecs(owner, rrs)) == c.(zone := c.zone + OwnedBy(owner, Records(rrs)))
  {
    if rrs == [] {
      assert c.zone + OwnedBy(owner, Records(rrs)) == c.zone;
    } else {
      var front, last := rrs[..|rrs| - 1], rrs[|rrs| - 1];
      HandleAdds(c, owner, front);
      assert rrs == front + [last];
      HandleNext(c, owner, front, last);
      OwnedSplit(owner, front, last);
      HandleAdd(c, OwnedBy(owner, Records(front)), owner, last);
    }
  }

  lemma {:induction false} OwnedSplit(owner: Bytes, front: seq<Rr>, last: Rr)
    ensures OwnedBy(owner, Records(front + [last])) == OwnedBy(owner, Records(front)) + {(owner, last)}
  {
    assert forall r :: r in Records(front + [last]) <==> r in Records(front) || r == last;
  }

  /** A block deletes, then adds, and leaves the receiver ready for the next one. */
  lemma {:induction false} HandleBlock(c: Receiver, b: Block)
    requires c.Receiver? && c.isIxfr && (c.stage == HaveFirstSoa || c.stage == HaveAddSoa)
    requires b.oldSoa.serial < b.newSoa.serial <= c.current
    ensures HandleAll(c, BlockRecs(b)) ==
            c.(stage := HaveAddSoa, prev := b.newSoa.serial, zone := (c.zone - Removed(b)) + Added(b))
  {
    var c1 := c.(stage := HaveDelSoa, prev := b.oldSoa.serial);
    var c2 := c1.(zone := c.zone - Removed(b));
    var c3 := c2.(stage := HaveAddSoa, prev := b.newSoa.serial);
    var r1, r2 := [SoaRec(b.zone, b.oldSoa)], DataRecs(b.owner, b.deleted);
    var r3, r4 := [SoaRec(b.zone, b.newSoa)], DataRecs(b.owner, b.added);
    HandleOne(c, SoaRec(b.zone, b.oldSoa));
    HandleDeletes(c1, b.owner, b.deleted);
    HandleAppend(c, r1, r2);
    HandleOne(c2, SoaRec(b.zone, b.newSoa));
    HandleAppend(c, r1 + r2, r3);
    HandleAdds(c3, b.owner, b.added);
    HandleAppend(c, r1 + r2 + r3, r4);
  }

  // ------------------------------------------------------------ the theorem

  /** The effect of blocks on the data of a zone: delete, then add, block by block. */
  function ApplyBlocks(zone: set<Owned>, blocks: seq<Block>): set<Owned> {
    if blocks == [] then zone
    else
      var b := blocks[|blocks| - 1];
      (ApplyBlocks(zone, blocks[..|blocks| - 1]) - Removed(b)) + Added(b)
  }

  /** Every block raises the serial, to the current one at most. */
  ghost predicate Forward(blocks: seq<Block>, current: nat) {
    forall i :: 0 <= i < |blocks| ==> blocks[i].oldSoa.serial < blocks[i].newSoa.serial <= current
  }

  /** The receiver takes a stream of blocks apart exactly as it was put together. */
  lemma {:induction false} HandleFlatten(c: Receiver, blocks: seq<Block>)
    requires c.Receiver? && c.isIxfr && c.stage == HaveFirstSoa
    requires Forward(blocks, c.current)
    ensures HandleAll(c, Flatten(blocks)) ==
            if blocks == [] then c
            else c.(stage := HaveAddSoa, prev := blocks[|blocks| - 1].newSoa.serial, zone := ApplyBlocks(c.zone, blocks))
  {
    if blocks == [] {
    } else {
      var front, b := blocks[..|blocks| - 1], blocks[|blocks| - 1];
      HandleFlatten(c, front);
      HandleAppend(c, Flatten(front), BlockRecs(b));
      HandleBlock(HandleAll(c, Flatten(front)), b);
    }
  }

  /** The blocks of the versions lo..hi, all of which are stored. */
  ghost predicate StoredRange(diffs: map<DiffRef, Block>, zone: Bytes, lo: nat, hi: int) {
    forall v: nat :: lo <= v <= hi ==> DiffRef(zone, v) in diffs
  }

  function BlockRange(diffs: map<DiffRef, Block>, zone: Bytes, lo: nat, hi: int): (r: seq<Block>)
    requires lo <= hi + 1 && StoredRange(diffs, zone, lo, hi)
    ensures |r| == hi + 1 - lo
    ensures forall i :: 0 <= i < |r| ==> r[i] == diffs[DiffRef(zone, lo + i)]
    decreases hi + 1 - lo
  {
    if hi < lo then [] else BlockRange(diffs, zone, lo, hi - 1) + [diffs[DiffRef(zone, hi)]]
  }

  ghost predicate ExactSerials(refs: seq<DiffRef>, zone: Bytes, lo: nat, hi: int) {
    forall r :: r in refs <==> r.zone == zone && lo <= r.serial <= hi
  }

  lemma {:induction false} LastRef(refs: seq<DiffRef>, zone: Bytes, lo: nat, hi: nat)
    requires lo <= hi && AscendingSerials(refs) && ExactSerials(refs, zone, lo, hi)
    ensures refs != [] && refs[|refs| - 1] == DiffRef(zone, hi)
    ensures ExactSerials(refs[..|refs| - 1], zone, lo, hi - 1)
  {
    var n := |refs| - 1;
    assert DiffRef(zone, hi) in refs;
    var k :| 0 <= k < |refs| && refs[k] == DiffRef(zone, hi);
    assert refs[n] in refs;
    assert k == n;
    forall r ensures r in refs[..n] <==> r in refs && r != refs[n] {
      if r in refs[..n] {
        var i :| 0 <= i < n && refs[i] == r;
        assert refs[i].serial < refs[n].serial;
      }
    }
  }

  lemma FirstRef(refs: seq<DiffRef>)
    ensures refs != [] ==> refs[0] in refs
  {
  }

  /** The blocks that the given values are meant to be. */
  function BlocksAt(diffs: map<DiffRef, Block>, refs: seq<DiffRef>): seq<Block>
    requires forall i :: 0 <= i < |refs| ==> refs[i] in diffs
  {
    if refs == [] then [] else BlocksAt(diffs, refs[..|refs| - 1]) + [diffs[refs[|refs| - 1]]]
  }

  ghost predicate AllFit(diffs: map<DiffRef, Block>, refs: seq<DiffRef>) {
    forall i :: 0 <= i < |refs| ==> refs[i] in diffs && BlockFits(diffs[refs[i]])
  }

  /** A stored block that fits is sent as it is. */
  lemma {:induction false} SentIsBlock(bytes: Bytes, b: Block)
    requires IsStored(bytes, b) && BlockFits(b)
    ensures SentOf(bytes) == Some(BlockRecs(b))
  {
    RecordsAreBlock(b);
    assert BlockRecords(b)[0] == Record(b.zone, SoaRr(b.oldSoa));
  }

  lemma {:induction false} FlattenAppend(blocks: seq<Block>, b: Block)
    ensures Flatten(blocks + [b]) == Flatten(blocks) + BlockRecs(b)
  {
    assert (blocks + [b])[..|blocks|] == blocks;
  }

  /** What is read and sent of the store is the sequence of the blocks. */
  lemma {:induction false} SentIsFlatten(s: Server, refs: seq<DiffRef>)
    requires StoreInv(s) && AllFit(s.diffs, refs)
    requires forall i :: 0 <= i < |refs| ==> refs[i] in s.store
    ensures SentAt(s.store, refs) == Some(Flatten(BlocksAt(s.diffs, refs)))
  {
    if refs == [] {
    } else {
      var front, last := refs[..|refs| - 1], refs[|refs| - 1];
      SentIsFlatten(s, front);
      SentIsBlock(s.store[last], s.diffs[last]);
      FlattenAppend(BlocksAt(s.diffs, front), s.diffs[last]);
    }
  }

  /** An ascending list of exactly the serials lo..hi names the blocks in order. */
  lemma {:induction false} AscendingBlocks(diffs: map<DiffRef, Block>, refs: seq<DiffRef>, zone: Bytes, lo: nat,
                                           hi: int)
    requires lo <= hi + 1 && AscendingSerials(refs) && ExactSerials(refs, zone, lo, hi)
    requires StoredRange(diffs, zone, lo, hi)
    requires forall i :: 0 <= i < |refs| ==> refs[i] in diffs
    ensures BlocksAt(diffs, refs) == BlockRange(diffs, zone, lo, hi)
    decreases hi + 1 - lo
  {
    if hi < lo {
      FirstRef(refs);
    } else {
      LastRef(refs, zone, lo, hi);
      AscendingBlocks(diffs, refs[..|refs| - 1], zone, lo, hi - 1);
    }
  }

  /** The first serial that the scan for a client at `from` finds. */
  function FirstWanted(z: Zone, from: nat): nat {
    if from <= z.first then z.first + 1 else from
  }

  /** What the scan finds for a client at serial `from`: all blocks after it, and
   *  the block that led to `from` itself when there is one.
   */
  lemma {:induction false} WantedRange(s: Server, db: seq<DiffRef>, zone: Bytes, from: nat, lo: nat)
    requires zone in s.zones && ZoneInv(s, zone) && StoreInv(s) && Lists(db, s.store)
    requires from < s.zones[zone].soa.serial && s.zones[zone].first < s.zones[zone].soa.serial
    requires lo == FirstWanted(s.zones[zone], from)
    ensures var hi, w := s.zones[zone].soa.serial, Wanted(db, zone, from);
            && StoredRange(s.diffs, zone, lo, hi) && ExactSerials(w, zone, lo, hi)
            && (forall i :: 0 <= i < |w| ==> w[i] in s.diffs && w[i] in s.store)
            && w != [] && BlocksAt(s.diffs, w) == BlockRange(s.diffs, zone, lo, hi)
  {
    var hi, w := s.zones[zone].soa.serial, Wanted(db, zone, from);
    WantedIsExact(db, zone, from);
    forall r ensures r in w <==> r.zone == zone && lo <= r.serial <= hi {
      assert r.zone == zone ==> r == DiffRef(zone, r.serial);
    }
    assert forall i :: 0 <= i < |w| ==> w[i] in w;
    assert DiffRef(zone, hi) in w;
    AscendingBlocks(s.diffs, w, zone, lo, hi);
  }

  ghost predicate RangeFits(diffs: map<DiffRef, Block>, zone: Bytes, lo: nat, hi: nat) {
    forall v: nat :: lo <= v <= hi && DiffRef(zone, v) in diffs ==> BlockFits(diffs[DiffRef(zone, v)])
  }

  lemma {:induction false} WantedFit(diffs: map<DiffRef, Block>, refs: seq<DiffRef>, zone: Bytes, lo: nat, hi: nat)
    requires ExactSerials(refs, zone, lo, hi) && RangeFits(diffs, zone, lo, hi)
    requires forall i :: 0 <= i < |refs| ==> refs[i] in diffs
    ensures AllFit(diffs, refs)
  {
    forall i | 0 <= i < |refs| ensures BlockFits(diffs[refs[i]]) {
      assert refs[i] in refs;
      assert refs[i] == DiffRef(zone, refs[i].serial);
    }
  }

  /** The reply, read from the store: the blocks of a range of versions between two SOAs. */
  lemma {:induction false} AnswerIsRange(s: Server, db: seq<DiffRef>, zone: Bytes, authority: seq<Rec>, lo: nat)
    requires zone in s.zones && ZoneInv(s, zone) && StoreInv(s) && Lists(db, s.store) && authority != []
    requires FromSerial(authority) < s.zones[zone].soa.serial && s.zones[zone].first < s.zones[zone].soa.serial
    requires lo == FirstWanted(s.zones[zone], FromSerial(authority))
    requires RangeFits(s.diffs, zone, lo, s.zones[zone].soa.serial)
    ensures StoredRange(s.diffs, zone, lo, s.zones[zone].soa.serial)
    ensures var soa := s.zones[zone].soa;
            AnswerTo(s, db, zone, authority) ==
            Reply([SoaRec(zone, soa)] + Flatten(BlockRange(s.diffs, zone, lo, soa.serial)) + [SoaRec(zone, soa)])
  {
    var w := Wanted(db, zone, FromSerial(authority));
    WantedRange(s, db, zone, FromSerial(authority), lo);
    WantedFit(s.diffs, w, zone, lo, s.zones[zone].soa.serial);
    SentIsFlatten(s, w);
  }

  /** Applying a block to the version it led to changes nothing. */
  lemma {:induction false} BlockTwice(a: set<Owned>, d: set<Owned>, i: set<Owned>)
    ensures (((a - d) + i) - d) + i == (a - d) + i
  {
  }

  /** The blocks lo..hi lead from version `from` to version hi, where lo is the
   *  serial after `from`, or `from` itself: repeating that block is harmless.
   */
  lemma {:induction false} ApplyRange(diffs: map<DiffRef, Block>, zone: Bytes, z: Zone, from: nat, lo: nat, hi: nat)
    requires StoredRange(diffs, zone, lo, hi) && z.first <= from && z.first < lo <= hi && hi - z.first < |z.versions|
    requires z.kept && (lo == from || lo == from + 1)
    requires forall v: nat :: lo <= v <= hi ==> BlockInv(z, diffs[DiffRef(zone, v)], v)
    ensures ApplyBlocks(z.versions[from - z.first], BlockRange(diffs, zone, lo, hi)) == z.versions[hi - z.first]
  {
    var blocks, n := BlockRange(diffs, zone, lo, hi), lo - 1 - z.first;
    RangeLeads(diffs, zone, z, lo, hi);
    ApplySteps(z.versions[n..hi - z.first + 1], blocks);
    if lo == from {
      BlockTwice(z.versions[n], Removed(blocks[0]), Added(blocks[0]));
      ApplyFirst(z.versions[n + 1], z.versions[n], blocks);
    }
  }

  lemma {:induction false} RangeLeads(diffs: map<DiffRef, Block>, zone: Bytes, z: Zone, lo: nat, hi: nat)
    requires StoredRange(diffs, zone, lo, hi) && z.first < lo <= hi && hi - z.first < |z.versions|
    requires z.kept && forall v: nat :: lo <= v <= hi ==> BlockInv(z, diffs[DiffRef(zone, v)], v)
    ensures var blocks, versions := BlockRange(diffs, zone, lo, hi), z.versions[lo - 1 - z.first..hi - z.first + 1];
            forall i :: 0 <= i < |blocks| ==> Leads(versions[i], blocks[i], versions[i + 1])
  {
    var blocks := BlockRange(diffs, zone, lo, hi);
    forall i | 0 <= i < |blocks| ensures Leads(z.versions[lo - 1 - z.first + i], blocks[i], z.versions[lo - z.first + i]) {
      assert BlockInv(z, diffs[DiffRef(zone, lo + i)], lo + i);
    }
  }

  /** The block leads from one version to the next. */
  ghost predicate Leads(a: set<Owned>, b: Block, c: set<Owned>) {
    c == (a - Removed(b)) + Added(b)
  }

  lemma {:induction false} ApplySteps(versions: seq<set<Owned>>, blocks: seq<Block>)
    requires |versions| == |blocks| + 1
    requires forall i :: 0 <= i < |blocks| ==> Leads(versions[i], blocks[i], versions[i + 1])
    ensures ApplyBlocks(versions[0], blocks) == versions[|blocks|]
    decreases |blocks|
  {
    if blocks == [] {
    } else {
      var n := |blocks| - 1;
      ApplySteps(versions[..n + 1], blocks[..n]);
      assert Leads(versions[n], blocks[n], versions[n + 1]);
    }
  }

  /** Only the first block sees the data that it starts from. */
  lemma {:induction false} ApplyFirst(a: set<Owned>, c: set<Owned>, blocks: seq<Block>)
    requires blocks != []
    requires (a - Removed(blocks[0])) + Added(blocks[0]) == (c - Removed(blocks[0])) + Added(blocks[0])
    ensures ApplyBlocks(a, blocks) == ApplyBlocks(c, blocks)
    decreases |blocks|
  {
    var n := |blocks| - 1;
    if n == 0 {
      assert blocks[..0] == [];
    } else {
      ApplyFirst(a, c, blocks[..n]);
    }
  }

  lemma {:induction false} HandleReply(zone: Bytes, soa: Soa, data: set<Owned>, blocks: seq<Block>)
    requires blocks != []
    requires Forward(blocks, soa.serial)
    ensures HandleAll(Receiver(NeedFirstSoa, true, 0, 0, data),
                      [SoaRec(zone, soa)] + Flatten(blocks) + [SoaRec(zone, soa)]) ==
            Receiver(HaveFinalSoa, true, soa.serial, soa.serial, ApplyBlocks(data, blocks))
  {
    var c0, r := Receiver(NeedFirstSoa, true, 0, 0, data), SoaRec(zone, soa);
    var c1 := c0.(stage := HaveFirstSoa, current := soa.serial);
    HandleOne(c0, r);
    HandleFlatten(c1, blocks);
    HandleAppend(c0, [r], Flatten(blocks));
    HandleAppend(c0, [r] + Flatten(blocks), [r]);
    HandleOne(HandleAll(c1, Flatten(blocks)), r);
  }

  /** A receiver that asked for an incremental transfer goes from the one data to the other. */
  ghost predicate Brings(answer: Answer, data: set<Owned>, current: nat, data': set<Owned>) {
    && answer.Reply?
    && HandleAll(Receiver(NeedFirstSoa, true, 0, 0, data), answer.recs) ==
       Receiver(HaveFinalSoa, true, current, current, data')
  }

  lemma {:induction false} RangeSerials(s: Server, zone: Bytes, lo: nat)
    requires zone in s.zones && ZoneInv(s, zone) && s.zones[zone].first < lo <= s.zones[zone].soa.serial
    ensures var z := s.zones[zone];
            && StoredRange(s.diffs, zone, lo, z.soa.serial)
            && Forward(BlockRange(s.diffs, zone, lo, z.soa.serial), z.soa.serial)
  {
    var z := s.zones[zone];
    var blocks := BlockRange(s.diffs, zone, lo, z.soa.serial);
    forall i | 0 <= i < |blocks| ensures blocks[i].oldSoa.serial < blocks[i].newSoa.serial <= z.soa.serial {
      assert BlockInv(z, s.diffs[DiffRef(zone, lo + i)], lo + i);
    }
  }

  /** The blocks of the versions after `from`, and of `from` itself. */
  ghost predicate Ranged(s: Server, zone: Bytes, from: nat, blocks: seq<Block>)
    requires zone in s.zones
  {
    var lo, hi := FirstWanted(s.zones[zone], from), s.zones[zone].soa.serial;
    lo <= hi && StoredRange(s.diffs, zone, lo, hi) && blocks == BlockRange(s.diffs, zone, lo, hi)
  }

  /** No block of the reply is too long to be stored. */
  ghost predicate ReplyFits(s: Server, zone: Bytes, from: nat)
    requires zone in s.zones
  {
    RangeFits(s.diffs, zone, FirstWanted(s.zones[zone], from), s.zones[zone].soa.serial)
  }

  /** There is a block to send to a client at the serial that it says it has. */
  ghost predicate Asks(s: Server, db: seq<DiffRef>, zone: Bytes, authority: seq<Rec>) {
    && zone in s.zones && Lists(db, s.store) && authority != []
    && FromSerial(authority) < s.zones[zone].soa.serial && s.zones[zone].first < s.zones[zone].soa.serial
  }

  /** The blocks of the reply, and what they make of any data. */
  lemma {:induction false} ReplyMakes(s: Server, db: seq<DiffRef>, zone: Bytes, authority: seq<Rec>, data: set<Owned>)
      returns (blocks: seq<Block>)
    requires Asks(s, db, zone, authority) && ReplyFits(s, zone, FromSerial(authority))
    requires ZoneInv(s, zone) && StoreInv(s)
    ensures Ranged(s, zone, FromSerial(authority), blocks)
    ensures Brings(AnswerTo(s, db, zone, authority), data, s.zones[zone].soa.serial, ApplyBlocks(data, blocks))
  {
    var lo, soa := FirstWanted(s.zones[zone], FromSerial(authority)), s.zones[zone].soa;
    AnswerIsRange(s, db, zone, authority, lo);
    RangeSerials(s, zone, lo);
    blocks := BlockRange(s.diffs, zone, lo, soa.serial);
    HandleReply(zone, soa, data, blocks);
  }

  lemma {:induction false} RunZoneInv(run: seq<Server>, zone: Bytes)
    requires IsRun(run) && zone in run[|run| - 1].zones
    ensures ZoneInv(run[|run| - 1], zone)
  {
    RunInv(run);
  }

  lemma {:induction false} ReplyBlocks(run: seq<Server>, db: seq<DiffRef>, zone: Bytes, authority: seq<Rec>,
                                       data: set<Owned>) returns (answer: Answer, blocks: seq<Block>)
    requires IsRun(run) && Asks(run[|run| - 1], db, zone, authority)
    requires ReplyFits(run[|run| - 1], zone, FromSerial(authority))
    ensures answer == AnswerTo(run[|run| - 1], db, zone, authority)
    ensures Ranged(run[|run| - 1], zone, FromSerial(authority), blocks)
    ensures Brings(answer, data, run[|run| - 1].zones[zone].soa.serial, ApplyBlocks(data, blocks))
  {
    RunZoneInv(run, zone);
    StoreIsDiffs(run);
    answer := AnswerTo(run[|run| - 1], db, zone, authority);
    blocks := ReplyMakes(run[|run| - 1], db, zone, authority, data);
  }

  lemma {:induction false} RangeReaches(s: Server, zone: Bytes, from: nat, blocks: seq<Block>)
    requires zone in s.zones && ZoneInv(s, zone) && Ranged(s, zone, from, blocks) && s.zones[zone].kept
    requires from < s.zones[zone].soa.serial
    ensures var z := s.zones[zone];
            && |z.versions| == z.soa.serial - z.first + 1
            && (z.first <= from ==> ApplyBlocks(z.versions[from - z.first], blocks) == Content(z.entries))
            && (from <= z.first ==> ApplyBlocks(z.versions[0], blocks) == Content(z.entries))
  {
    var z := s.zones[zone];
    ApplyRange(s.diffs, zone, z, if from < z.first then z.first else from, FirstWanted(z, from), z.soa.serial);
  }

  lemma {:induction false} RunReaches(run: seq<Server>, zone: Bytes, from: nat, blocks: seq<Block>)
    requires IsRun(run) && zone in run[|run| - 1].zones && run[|run| - 1].zones[zone].kept
    requires Ranged(run[|run| - 1], zone, from, blocks) && from < run[|run| - 1].zones[zone].soa.serial
    ensures var z := run[|run| - 1].zones[zone];
            && |z.versions| == z.soa.serial - z.first + 1
            && (z.first <= from ==> ApplyBlocks(z.versions[from - z.first], blocks) == Content(z.entries))
            && (from <= z.first ==> ApplyBlocks(z.versions[0], blocks) == Content(z.entries))
  {
    RunZoneInv(run, zone);
    RangeReaches(run[|run| - 1], zone, from, blocks);
  }

  /** Data that the blocks of a range lead from is brought to the current data. */
  lemma {:induction false} VersionIsBrought(s: Server, zone: Bytes, from: nat, answer: Answer,
                                            data: set<Owned>, blocks: seq<Block>)
    requires zone in s.zones && ZoneInv(s, zone)
    requires var z := s.zones[zone];
             && z.kept && z.first <= from < z.soa.serial && |z.versions| == z.soa.serial - z.first + 1
             && data == z.versions[from - z.first]
    requires Ranged(s, zone, from, blocks)
    requires Brings(answer, data, s.zones[zone].soa.serial, ApplyBlocks(data, blocks))
    ensures Brings(answer, data, s.zones[zone].soa.serial, Content(s.zones[zone].entries))
  {
    RangeReaches(s, zone, from, blocks);
  }

  lemma {:induction false} RunVersions(run: seq<Server>, zone: Bytes)
    requires IsRun(run) && zone in run[|run| - 1].zones
    ensures var z := run[|run| - 1].zones[zone]; z.first <= z.soa.serial && |z.versions| == z.soa.serial - z.first + 1
  {
    RunZoneInv(run, zone);
  }

  lemma {:induction false} DataIsBrought(run: seq<Server>, db: seq<DiffRef>, zone: Bytes, authority: seq<Rec>,
                                         data: set<Owned>)
    requires IsRun(run) && Asks(run[|run| - 1], db, zone, authority)
    requires ReplyFits(run[|run| - 1], zone, FromSerial(authority))
    requires var z, from := run[|run| - 1].zones[zone], FromSerial(authority);
             && z.kept && z.first <= from && |z.versions| == z.soa.serial - z.first + 1
             && data == z.versions[from - z.first]
    ensures var z := run[|run| - 1].zones[zone];
            Brings(AnswerTo(run[|run| - 1], db, zone, authority), data, z.soa.serial, Content(z.entries))
  {
    var s, from := run[|run| - 1], FromSerial(authority);
    var answer, blocks := ReplyBlocks(run, db, zone, authority, data);
    RunZoneInv(run, zone);
    VersionIsBrought(s, zone, from, answer, data, blocks);
  }

  /** In every run, a client that has the zone at serial `from`, from the zone's
   *  first version up to the one before the current, and handles the reply to its
   *  IXFR request, ends with exactly the current zone.
   */
  lemma {:induction false} IxfrIsExact(run: seq<Server>, db: seq<DiffRef>, zone: Bytes, authority: seq<Rec>)
    requires IsRun(run) && Asks(run[|run| - 1], db, zone, authority)
    requires ReplyFits(run[|run| - 1], zone, FromSerial(authority))
    requires var z := run[|run| - 1].zones[zone]; z.first <= FromSerial(authority) && z.kept
    ensures var z, from := run[|run| - 1].zones[zone], FromSerial(authority);
            && |z.versions| == z.soa.serial - z.first + 1
            && Brings(AnswerTo(run[|run| - 1], db, zone, authority), z.versions[from - z.first],
                      z.soa.serial, Content(z.entries))
  {
    RunVersions(run, zone);
    var z := run[|run| - 1].zones[zone];
    DataIsBrought(run, db, zone, authority, z.versions[FromSerial(authority) - z.first]);
  }

  // ------------------------------------------------- other answers at the receiver

  /** A client with the current serial, or a larger one, gets the current SOA alone: its
   *  data stays, and it learns the serial.
   */
  lemma {:induction false} CurrentClientStays(s: Server, db: seq<DiffRef>, zone: Bytes, authority: seq<Rec>,
                                              data: set<Owned>)
    requires Lists(db, s.store) && authority != [] && zone in s.zones
    requires s.zones[zone].soa.serial <= FromSerial(authority)
    ensures var answer := AnswerTo(s, db, zone, authority);
            && answer == Reply([SoaRec(zone, s.zones[zone].soa)])
            && HandleAll(Receiver(NeedFirstSoa, true, 0, 0, data), answer.recs) ==
               Receiver(HaveFirstSoa, true, s.zones[zone].soa.serial, 0, data)
  {
    HandleOne(Receiver(NeedFirstSoa, true, 0, 0, data), SoaRec(zone, s.zones[zone].soa));
  }

  /** The records as a receiver keeps them. */
  function Received(recs: seq<Rec>): set<Owned> {
    set i | 0 <= i < |recs| && recs[i].DataRec? :: (recs[i].owner, recs[i].rr)
  }

  lemma {:induction false} HandleFullData(c: Receiver, recs: seq<Rec>)
    requires c.Receiver? && c.stage == HaveAddSoa && forall i :: 0 <= i < |recs| ==> recs[i].DataRec?
    ensures HandleAll(c, recs) == c.(zone := c.zone + Received(recs))
  {
    if recs == [] {
      assert c.zone + Received(recs) == c.zone;
    } else {
      var front, last := recs[..|recs| - 1], recs[|recs| - 1];
      HandleFullData(c, front);
      ReceivedLast(front, last);
      assert recs == front + [last];
      assert c.zone + Received(front) + {(last.owner, last.rr)} == c.zone + Received(recs);
    }
  }

  lemma {:induction false} ReceivedLast(front: seq<Rec>, last: Rec)
    requires last.DataRec?
    ensures Received(front + [last]) == Received(front) + {(last.owner, last.rr)}
  {
    var recs := front + [last];
    forall o | o in Received(front) ensures o in Received(recs) {
      var i :| 0 <= i < |front| && front[i].DataRec? && (front[i].owner, front[i].rr) == o;
      assert recs[i] == front[i];
    }
    assert recs[|front|] == last;
  }

  /** A full transfer, whether or not an incremental one was asked for, replaces the client's
   *  data by exactly what it sends; without a request for increments it adds to what is there.
   */
  lemma {:induction false} FullTransferReplaces(zone: Bytes, soa: Soa, recs: seq<Rec>, isIxfr: bool, data: set<Owned>)
    requires recs != [] && forall i :: 0 <= i < |recs| ==> recs[i].DataRec?
    ensures HandleAll(Receiver(NeedFirstSoa, isIxfr, 0, 0, data), [SoaRec(zone, soa)] + recs + [SoaRec(zone, soa)]) ==
            Receiver(HaveFinalSoa, false, soa.serial, soa.serial, (if isIxfr then {} else data) + Received(recs))
  {
    var c0, r := Receiver(NeedFirstSoa, isIxfr, 0, 0, data), SoaRec(zone, soa);
    var c1 := c0.(stage := HaveFirstSoa, current := soa.serial);
    var kept := if isIxfr then {} else data;
    var c2 := c1.(isIxfr := false, stage := HaveAddSoa, zone := kept + {(recs[0].owner, recs[0].rr)});
    HandleOne(c0, r);
    HandleAppend(c0, [r], recs);
    HandleOne(c1, recs[0]);
    assert recs == [recs[0]] + recs[1..];
    HandleAppend(c1, [recs[0]], recs[1..]);
    HandleFullData(c2, recs[1..]);
    ReceivedFirst(recs);
    assert kept + {(recs[0].owner, recs[0].rr)} + Received(recs[1..]) == kept + Received(recs);
    HandleAppend(c0, [r] + recs, [r]);
    HandleOne(HandleAll(c1, recs), r);
  }

  lemma {:induction false} ReceivedFirst(recs: seq<Rec>)
    requires recs != [] && recs[0].DataRec?
    ensures Received(recs) == {(recs[0].owner, recs[0].rr)} + Received(recs[1..])
  {
    var rest := recs[1..];
    forall o | o in Received(rest) ensures o in Received(recs) {
      var i :| 0 <= i < |rest| && rest[i].DataRec? && (rest[i].owner, rest[i].rr) == o;
      assert recs[i + 1] == rest[i];
    }
    forall o | o in Received(recs) ensures o == (recs[0].owner, recs[0].rr) || o in Received(rest) {
      var i :| 0 <= i < |recs| && recs[i].DataRec? && (recs[i].owner, recs[i].rr) == o;
      if i > 0 { assert rest[i - 1] == recs[i]; }
    }
  }

  lemma {:induction false} FailedStays(recs: seq<Rec>)
    ensures HandleAll(Failed, recs) == Failed
  {
    if recs == [] {
    } else {
      FailedStays(recs[..|recs| - 1]);
    }
  }

  /** What a receiver refuses: anything before the first SOA or after the last one, a SOA that
   *  is newer than the first, and in a full transfer any other serial; and a deletion part
   *  must be followed by a newer SOA.
   */
  lemma {:induction false} ReceiverRefuses(c: Receiver, r: Rec, rest: seq<Rec>)
    requires c.Receiver?
    requires || (c.stage == NeedFirstSoa && r.DataRec?)
             || c.stage == HaveFinalSoa
             || (c.stage != NeedFirstSoa && r.SoaRec? && c.current < r.soa.serial)
             || (c.stage != NeedFirstSoa && r.SoaRec? && !c.isIxfr && r.soa.serial != c.current)
             || (c.stage == HaveDelSoa && c.isIxfr && r.SoaRec? && r.soa.serial <= c.prev && r.soa.serial < c.current)
    ensures HandleAll(c, [r] + rest) == Failed
  {
    HandleOne(c, r);
    HandleAppend(c, [r], rest);
    FailedStays(rest);
  }

  // ------------------------------------------------------ clients that are too old

  /** A client with an older serial gets a full transfer exactly when the zone has not been
   *  changed since it was created.
   */
  lemma {:induction false} FullTransferIff(s: Server, db: seq<DiffRef>, zone: Bytes, authority: seq<Rec>)
    requires zone in s.zones && ZoneInv(s, zone) && StoreInv(s) && Lists(db, s.store) && authority != []
    requires FromSerial(authority) < s.zones[zone].soa.serial
    ensures AnswerTo(s, db, zone, authority) == FullTransfer <==> s.zones[zone].first == s.zones[zone].soa.serial
  {
    NothingWantedIff(s.store, db, zone, FromSerial(authority), s.zones[zone].first, s.zones[zone].soa.serial);
  }

  lemma {:induction false} NothingWantedIff(store: map<DiffRef, Bytes>, db: seq<DiffRef>, zone: Bytes, from: nat,
                                            first: nat, last: nat)
    requires Lists(db, store) && first <= last && from < last
    requires forall v: nat :: DiffRef(zone, v) in store <==> first < v <= last
    ensures Wanted(db, zone, from) == [] <==> first == last
  {
    var w := Wanted(db, zone, from);
    WantedIsExact(db, zone, from);
    if first == last {
      forall r ensures r !in w {
        assert r.zone == zone ==> r == DiffRef(zone, r.serial);
      }
      FirstRef(w);
    } else {
      assert DiffRef(zone, last) in w;
    }
  }

  /** The first block of the reply starts at the client's version, or led to it, exactly
   *  when the client is not older than the zone.
   */
  lemma {:induction false} FirstBlockFitsIff(s: Server, zone: Bytes, from: nat, blocks: seq<Block>)
    requires zone in s.zones && ZoneInv(s, zone) && Ranged(s, zone, from, blocks)
    ensures blocks != []
    ensures blocks[0].oldSoa.serial == from || blocks[0].newSoa.serial == from <==> s.zones[zone].first <= from
  {
    var lo := FirstWanted(s.zones[zone], from);
    assert BlockInv(s.zones[zone], s.diffs[DiffRef(zone, lo)], lo);
  }

  /** Some block deletes or adds the record. */
  ghost predicate Mentioned(blocks: seq<Block>, o: Owned) {
    exists i :: 0 <= i < |blocks| && o in Removed(blocks[i]) + Added(blocks[i])
  }

  /** Blocks decide about the records that they mention, and about no others. */
  lemma {:induction false} ApplyDecides(a: set<Owned>, c: set<Owned>, blocks: seq<Block>, o: Owned)
    ensures Mentioned(blocks, o) ==> (o in ApplyBlocks(a, blocks) <==> o in ApplyBlocks(c, blocks))
    ensures !Mentioned(blocks, o) ==> (o in ApplyBlocks(a, blocks) <==> o in a)
  {
    if blocks == [] {
    } else {
      var front, last := blocks[..|blocks| - 1], blocks[|blocks| - 1];
      ApplyDecides(a, c, front, o);
      MentionedLast(front, last, o);
      assert blocks == front + [last];
    }
  }

  lemma {:induction false} MentionedLast(front: seq<Block>, last: Block, o: Owned)
    ensures Mentioned(front + [last], o) <==> Mentioned(front, o) || o in Removed(last) + Added(last)
  {
    var blocks := front + [last];
    assert blocks[|front|] == last && forall i :: 0 <= i < |front| ==> blocks[i] == front[i];
    if i :| 0 <= i < |front| && o in Removed(front[i]) + Added(front[i]) {
      assert o in Removed(blocks[i]) + Added(blocks[i]);
    }
  }

  /** The record is where it was in the first version, or a block says where it is. */
  ghost predicate Settled(data: set<Owned>, first: set<Owned>, blocks: seq<Block>, o: Owned) {
    (o in data <==> o in first) || Mentioned(blocks, o)
  }

  lemma {:induction false} SettledIff(data: set<Owned>, first: set<Owned>, blocks: seq<Block>)
    ensures ApplyBlocks(data, blocks) == ApplyBlocks(first, blocks) <==> forall o :: Settled(data, first, blocks, o)
  {
    var made, current := ApplyBlocks(data, blocks), ApplyBlocks(first, blocks);
    forall o ensures (o in made <==> o in current) <==> Settled(data, first, blocks, o) {
      ApplyDecides(data, first, blocks, o);
      ApplyDecides(first, data, blocks, o);
    }
    if made == current {
      forall o ensures Settled(data, first, blocks, o) {
        assert o in made <==> o in current;
      }
    }
  }

  /** A client that is older than the zone, or as old, gets all its blocks. They make its data
   *  the current data exactly when every record in which the data differs from the zone's
   *  first version occurs in some block.
   */
  lemma {:induction false} OldClientIsExactIff(run: seq<Server>, db: seq<DiffRef>, zone: Bytes, authority: seq<Rec>,
                                               data: set<Owned>) returns (blocks: seq<Block>)
    requires IsRun(run) && Asks(run[|run| - 1], db, zone, authority)
    requires ReplyFits(run[|run| - 1], zone, FromSerial(authority))
    requires var z := run[|run| - 1].zones[zone]; FromSerial(authority) <= z.first && z.kept
    ensures var s := run[|run| - 1];
            var z := s.zones[zone];
            && z.versions != [] && Ranged(s, zone, FromSerial(authority), blocks)
            && Brings(AnswerTo(s, db, zone, authority), data, z.soa.serial, ApplyBlocks(data, blocks))
            && (ApplyBlocks(data, blocks) == Content(z.entries) <==> forall o :: Settled(data, z.versions[0], blocks, o))
  {
    var _, found := ReplyBlocks(run, db, zone, authority, data);
    blocks := found;
    RunReaches(run, zone, FromSerial(authority), blocks);
    SettledIff(data, run[|run| - 1].zones[zone].versions[0], blocks);
  }

  /** A record that such a client has, and that no block mentions, stays at the client. If
   *  the zone does not have it, the client's zone is then wrong.
   */
  lemma {:induction false} StaleRecordSurvives(run: seq<Server>, db: seq<DiffRef>, zone: Bytes, authority: seq<Rec>,
                                               data: set<Owned>, o: Owned) returns (blocks: seq<Block>)
    requires IsRun(run) && Asks(run[|run| - 1], db, zone, authority)
    requires ReplyFits(run[|run| - 1], zone, FromSerial(authority))
    requires FromSerial(authority) < run[|run| - 1].zones[zone].first && o in data
    ensures var s := run[|run| - 1];
            && Ranged(s, zone, FromSerial(authority), blocks)
            && Brings(AnswerTo(s, db, zone, authority), data, s.zones[zone].soa.serial, ApplyBlocks(data, blocks))
            && (!Mentioned(blocks, o) ==> o in ApplyBlocks(data, blocks))
            && (!Mentioned(blocks, o) && o !in Content(s.zones[zone].entries) ==>
                  ApplyBlocks(data, blocks) != Content(s.zones[zone].entries))
  {
    var _, found := ReplyBlocks(run, db, zone, authority, data);
    blocks := found;
    ApplyDecides(data, data, blocks, o);
  }
}
