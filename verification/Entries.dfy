/** Reading a stored entry (src/lib/DnsMessages.cpp, Rr::parse, Entry and its iterator). */
module Entries {
  import opened Bytes
  import opened Options
  import opened Labels
  import opened Names
  import opened Differences
  import opened Storage

  /** The part of Rr::parse that finds the end of the owner's name. */
  method LabelBytes(buffer: Bytes, off: nat) returns (n: Option<nat>)
    requires off + 2 <= |buffer|
    ensures n == LabelLen(buffer, off)
  {
    if buffer[off] == 0 {
      return Some(1);
    }
    if IsPointer(buffer[off]) {
      return Some(2);
    }
    var ok, count, size, bytes := Parse(buffer, off);
    n := if ok then Some(bytes) else None;
  }

  /** Rr: the owner's text, the type, the ttl and the data of the record at `off`; None
   *  stands for an exception.
   */
  method ReadRecord(buffer: Bytes, off: nat) returns (r: Option<Record>)
    ensures r == ReadRr(buffer, off)
  {
    if off + 2 > |buffer| {
      return None;
    }
    var len := LabelBytes(buffer, off);
    if len.None? {
      return None;
    }
    var rr := ReadTail(buffer, off + len.value);
    if rr.None? {
      return None;
    }
    var ok, owner, count, size := ParseAndRead(buffer, off);
    r := if ok then Some(Record(owner, rr.value)) else None;
  }

  /** Entry: the records, in the order of the stored index. */
  method ReadRecords(buffer: Bytes) returns (recs: Option<seq<Record>>)
    ensures recs == ReadEntry(buffer)
  {
    if |buffer| < HEADER_LEN {
      return None;
    }
    var index := IndexAt(buffer, U16(buffer, 6), U16(buffer, 2));
    if index.None? {
      return None;
    }
    var all: seq<Record> := [];
    var n := 0;
    while n < |index.value|
      invariant 0 <= n <= |index.value|
      invariant ReadEach(buffer, index.value[..n]) == Some(all)
    {
      ReadNext(buffer, index.value, n);
      var r := ReadRecord(buffer, index.value[n].offset);
      if r.None? {
        return None;
      }
      all := all + [r.value];
      n := n + 1;
    }
    assert index.value[..n] == index.value;
    return Some(all);
  }

  /** One more step of the iterator; a malformed record spoils the whole. */
  lemma {:induction false} ReadNext(buffer: Bytes, index: seq<Ix>, n: nat)
    requires n < |index| && ReadEach(buffer, index[..n]).Some?
    ensures var r := ReadRr(buffer, index[n].offset);
            && (r.Some? ==> ReadEach(buffer, index[..n + 1]) == Some(ReadEach(buffer, index[..n]).value + [r.value]))
            && (r.None? ==> ReadEach(buffer, index) == None)
  {
    assert index[..n + 1][..n] == index[..n];
    if ReadRr(buffer, index[n].offset).None? {
      Spoiled(buffer, index, n + 1, |index|);
      assert index[..|index|] == index;
    }
  }

  lemma {:induction false} Spoiled(buffer: Bytes, index: seq<Ix>, n: nat, m: nat)
    requires n <= m <= |index| && ReadEach(buffer, index[..n]) == None
    ensures ReadEach(buffer, index[..m]) == None
    decreases m
  {
    if n == m {
    } else {
      Spoiled(buffer, index, n, m - 1);
      assert index[..m][..m - 1] == index[..m - 1];
    }
  }

  /** incrementSoaVersion looks for the SOA of the entry that is being replaced. */
  method FindSoa(recs: seq<Record>) returns (soa: Option<Rr>)
    ensures soa.None? <==> forall i :: 0 <= i < |recs| ==> recs[i].rr.rtype != TYPE_SOA
    ensures soa.Some? ==> exists i :: 0 <= i < |recs| && recs[i].rr == soa.value && soa.value.rtype == TYPE_SOA &&
                            forall j :: 0 <= j < i ==> recs[j].rr.rtype != TYPE_SOA
  {
    var n := 0;
    while n < |recs|
      invariant 0 <= n <= |recs|
      invariant forall j :: 0 <= j < n ==> recs[j].rr.rtype != TYPE_SOA
    {
      if recs[n].rr.rtype == TYPE_SOA {
        return Some(recs[n].rr);
      }
      n := n + 1;
    }
    return None;
  }
}
