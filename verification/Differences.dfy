/** The difference between two versions of one entry
 *  (src/lib/RestApi.cpp, createDiffSequence; section 4 of RFC 1995).
 */
module Differences {
  import opened Bytes

  const TYPE_SOA: nat := 6

  /** A resource record of an entry. The owner is the entry's name. */
  datatype Rr = Rr(rtype: nat, ttl: nat, rdata: Bytes)

  ghost predicate ValidRr(r: Rr) {
    r.rtype < Pow256(2) && r.ttl < Pow256(4) && |r.rdata| < Pow256(2)
  }

  /** In a stored entry the first record spells the owner's name out, the others
   *  point to it. The same record can have either form in two versions.
   */
  datatype NameForm = Full | Pointer(offset: nat)
  datatype Stored = Stored(form: NameForm, rr: Rr)

  /** Between the name and the data: type, class IN, ttl and length. */
  function Head(rtype: nat, ttl: nat, len: nat): (h: Bytes)
    ensures |h| == 10
  {
    BigEndian(rtype, 2) + BigEndian(1, 2) + BigEndian(ttl, 4) + BigEndian(len, 2)
  }

  lemma {:induction false} HeadFields(rtype: nat, ttl: nat, len: nat)
    ensures var h := Head(rtype, ttl, len);
            h[0..2] == BigEndian(rtype, 2) && h[4..8] == BigEndian(ttl, 4) && h[8..10] == BigEndian(len, 2)
  {
  }

  /** The record after its name. */
  function Tail(r: Rr): Bytes {
    Head(r.rtype, r.ttl, |r.rdata|) + r.rdata
  }

  function NameBytes(wire: Bytes, form: NameForm): Bytes {
    match form
    case Full => wire
    case Pointer(offset) => [192 + (offset / 256) % 64, offset % 256]
  }

  /** Rr::selfSpan: the bytes by which the source compares records. */
  function Span(wire: Bytes, s: Stored): Bytes {
    NameBytes(wire, s.form) + Tail(s.rr)
  }

  lemma {:induction false} TailInjective(a: Rr, b: Rr)
    requires ValidRr(a) && ValidRr(b) && Tail(a) == Tail(b)
    ensures a == b
  {
    var h, k := Head(a.rtype, a.ttl, |a.rdata|), Head(b.rtype, b.ttl, |b.rdata|);
    assert Tail(a)[..10] == h && Tail(b)[..10] == k;
    assert Tail(a)[10..] == a.rdata && Tail(b)[10..] == b.rdata;
    HeadFields(a.rtype, a.ttl, |a.rdata|);
    HeadFields(b.rtype, b.ttl, |b.rdata|);
    BigEndianRoundTrip(a.rtype, 2);
    BigEndianRoundTrip(b.rtype, 2);
    BigEndianRoundTrip(a.ttl, 4);
    BigEndianRoundTrip(b.ttl, 4);
  }

  /** A wire name starts with a label length, never with a pointer tag. */
  ghost predicate WireName(wire: Bytes) {
    wire != [] && wire[0] < 192
  }

  /** A record as it is stored; a pointer has 14 bits. */
  ghost predicate ValidStored(s: Stored) {
    ValidRr(s.rr) && (s.form.Pointer? ==> s.form.offset < 16384)
  }

  ghost predicate ValidEntry(s: seq<Stored>) {
    forall i :: 0 <= i < |s| ==> ValidStored(s[i])
  }

  /** Equal bytes are the same record, in the same form. */
  lemma {:induction false} SpanNamesRecord(wire: Bytes, a: Stored, b: Stored)
    requires WireName(wire) && ValidStored(a) && ValidStored(b)
    requires Span(wire, a) == Span(wire, b)
    ensures a == b
  {
    var n := |NameBytes(wire, a.form)|;
    assert Span(wire, a)[0] == NameBytes(wire, a.form)[0];
    assert Span(wire, b)[0] == NameBytes(wire, b.form)[0];
    assert n == |NameBytes(wire, b.form)|;
    assert Span(wire, a)[..n] == NameBytes(wire, a.form) && Span(wire, b)[..n] == NameBytes(wire, b.form);
    assert Span(wire, a)[n..] == Tail(a.rr) && Span(wire, b)[n..] == Tail(b.rr);
    TailInjective(a.rr, b.rr);
  }

  // ------------------------------------------------------------- sorting

  ghost predicate Ordered(wire: Bytes, s: seq<Stored>) {
    forall i, j :: 0 <= i < j < |s| ==> LessEq(Span(wire, s[i]), Span(wire, s[j]))
  }

  function Insert(wire: Bytes, x: Stored, s: seq<Stored>): (r: seq<Stored>)
    ensures multiset(r) == multiset(s) + multiset{x}
  {
    if s == [] || Less(Span(wire, x), Span(wire, s[0])) then
      [x] + s
    else
      assert s == [s[0]] + s[1..];
      [s[0]] + Insert(wire, x, s[1..])
  }

  /** std::sort with compare_rr. */
  function Sort(wire: Bytes, s: seq<Stored>): (r: seq<Stored>)
    ensures multiset(r) == multiset(s)
  {
    if s == [] then []
    else
      assert s == [s[0]] + s[1..];
      Insert(wire, s[0], Sort(wire, s[1..]))
  }

  lemma {:induction false} InsertOrdered(wire: Bytes, x: Stored, s: seq<Stored>)
    requires Ordered(wire, s)
    ensures Ordered(wire, Insert(wire, x, s))
  {
    if s == [] {
    } else if Less(Span(wire, x), Span(wire, s[0])) {
      forall j | 0 < j < |s| ensures Less(Span(wire, x), Span(wire, s[j])) {
        if Span(wire, s[0]) != Span(wire, s[j]) {
          LessTransitive(Span(wire, x), Span(wire, s[0]), Span(wire, s[j]));
        }
      }
    } else {
      LessTotal(Span(wire, x), Span(wire, s[0]));
      InsertOrdered(wire, x, s[1..]);
      var t := Insert(wire, x, s[1..]);
      forall j | 0 <= j < |t| ensures LessEq(Span(wire, s[0]), Span(wire, t[j])) {
        assert t[j] in multiset(s[1..]) + multiset{x};
      }
    }
  }

  lemma {:induction false} SortOrdered(wire: Bytes, s: seq<Stored>)
    ensures Ordered(wire, Sort(wire, s))
  {
    if s == [] {
    } else {
      SortOrdered(wire, s[1..]);
      InsertOrdered(wire, s[0], Sort(wire, s[1..]));
    }
  }

  lemma {:induction false} SortValid(wire: Bytes, s: seq<Stored>)
    requires ValidEntry(s)
    ensures ValidEntry(Sort(wire, s))
  {
    var t := Sort(wire, s);
    forall i | 0 <= i < |t| ensures ValidStored(t[i]) {
      assert t[i] in multiset(s);
    }
  }

  // ------------------------------------------------------ set difference

  /** std::set_difference over two ordered ranges: what a has more often than b, as
   *  often as it has it more.
   */
  method SetDifference(wire: Bytes, a: seq<Stored>, b: seq<Stored>) returns (out: seq<Stored>)
    requires WireName(wire) && ValidEntry(a) && ValidEntry(b)
    requires Ordered(wire, a) && Ordered(wire, b)
    ensures multiset(out) == multiset(a) - multiset(b)
  {
    out := [];
    var i, j := 0, 0;
    assert a[0..] == a && b[0..] == b;
    while i < |a|
      invariant 0 <= i <= |a| && 0 <= j <= |b|
      invariant multiset(out) + (multiset(a[i..]) - multiset(b[j..])) == multiset(a) - multiset(b)
      decreases |a| - i + |b| - j
    {
      if j == |b| || Less(Span(wire, a[i]), Span(wire, b[j])) {
        KeepOne(wire, a, i, b, j);
        out := out + [a[i]];
        i := i + 1;
      } else if Less(Span(wire, b[j]), Span(wire, a[i])) {
        SkipOne(wire, a, i, b, j);
        j := j + 1;
      } else {
        DropOne(wire, a, i, b, j);
        i, j := i + 1, j + 1;
      }
    }
    assert a[i..] == [];
  }

  /** What is smaller than the first element does not occur from there on. */
  lemma {:induction false} NotFrom(wire: Bytes, x: Stored, s: seq<Stored>, j: nat)
    requires Ordered(wire, s) && j < |s| && Less(Span(wire, x), Span(wire, s[j]))
    ensures x !in s[j..]
  {
    LessIrreflexive(Span(wire, x));
    forall m | j <= m < |s| ensures s[m] != x {
      if s[m] == x && j < m {
        LessTransitive(Span(wire, x), Span(wire, s[j]), Span(wire, s[m]));
      }
    }
  }

  lemma {:induction false} KeepOne(wire: Bytes, a: seq<Stored>, i: nat, b: seq<Stored>, j: nat)
    requires Ordered(wire, b) && i < |a| && j <= |b|
    requires j < |b| ==> Less(Span(wire, a[i]), Span(wire, b[j]))
    ensures multiset(a[i..]) - multiset(b[j..]) == multiset{a[i]} + (multiset(a[i + 1..]) - multiset(b[j..]))
  {
    if j < |b| { NotFrom(wire, a[i], b, j); }
    assert a[i] !in multiset(b[j..]);
    assert a[i..] == [a[i]] + a[i + 1..];
  }

  lemma {:induction false} SkipOne(wire: Bytes, a: seq<Stored>, i: nat, b: seq<Stored>, j: nat)
    requires Ordered(wire, a) && i < |a| && j < |b| && Less(Span(wire, b[j]), Span(wire, a[i]))
    ensures multiset(a[i..]) - multiset(b[j..]) == multiset(a[i..]) - multiset(b[j + 1..])
  {
    NotFrom(wire, b[j], a, i);
    assert b[j] !in multiset(a[i..]);
    assert b[j..] == [b[j]] + b[j + 1..];
  }

  lemma {:induction false} DropOne(wire: Bytes, a: seq<Stored>, i: nat, b: seq<Stored>, j: nat)
    requires WireName(wire) && i < |a| && j < |b| && ValidStored(a[i]) && ValidStored(b[j])
    requires !Less(Span(wire, a[i]), Span(wire, b[j])) && !Less(Span(wire, b[j]), Span(wire, a[i]))
    ensures multiset(a[i..]) - multiset(b[j..]) == multiset(a[i + 1..]) - multiset(b[j + 1..])
  {
    LessTotal(Span(wire, a[i]), Span(wire, b[j]));
    SpanNamesRecord(wire, a[i], b[j]);
    assert a[i..] == [a[i]] + a[i + 1..] && b[j..] == [a[i]] + b[j + 1..];
  }

  // -------------------------------------------------- the difference block

  /** The records of an entry other than its SOA. */
  ghost function Data(s: seq<Stored>): set<Rr> {
    set i | 0 <= i < |s| && s[i].rr.rtype != TYPE_SOA :: s[i].rr
  }

  /** The records of a list without any SOA, in order. */
  function WithoutSoa(s: seq<Stored>): (r: seq<Rr>)
    ensures forall x :: x in r <==> x in Data(s)
  {
    if s == [] then []
    else
      assert s == [s[0]] + s[1..];
      assert forall x :: x in Data(s) <==> x in Data(s[1..]) || (x == s[0].rr && x.rtype != TYPE_SOA) by {
        DataSplit(s);
      }
      (if s[0].rr.rtype == TYPE_SOA then [] else [s[0].rr]) + WithoutSoa(s[1..])
  }

  lemma {:induction false} DataSplit(s: seq<Stored>)
    requires s != []
    ensures forall x :: x in Data(s) <==> x in Data(s[1..]) || (x == s[0].rr && x.rtype != TYPE_SOA)
  {
    forall x | x in Data(s) ensures x in Data(s[1..]) || (x == s[0].rr && x.rtype != TYPE_SOA) {
      var i :| 0 <= i < |s| && s[i].rr == x && x.rtype != TYPE_SOA;
      if i > 0 { assert s[1..][i - 1].rr == x; }
    }
    forall x | x in Data(s[1..]) ensures x in Data(s) {
      var i :| 0 <= i < |s[1..]| && s[1..][i].rr == x && x.rtype != TYPE_SOA;
      assert s[i + 1].rr == x;
    }
  }

  /** Applying the difference, deletions first, makes the new data of the old data. */
  ghost predicate LeadsTo(old_: set<Rr>, new_: set<Rr>, deleted: seq<Rr>, added: seq<Rr>) {
    (old_ - set x | x in deleted) + (set x | x in added) == new_
  }

  /** Of the copies of a record, in either form, some but not all are left. */
  ghost predicate Thinned(old_: seq<Stored>, new_: seq<Stored>, r: Rr) {
    && r in Data(new_)
    && (forall x: Stored :: x.rr == r ==> multiset(new_)[x] <= multiset(old_)[x])
    && (exists x: Stored :: x.rr == r && multiset(new_)[x] < multiset(old_)[x])
  }

  ghost predicate Thins(old_: seq<Stored>, new_: seq<Stored>) {
    exists r :: Thinned(old_, new_, r)
  }

  /** createDiffSequence: only old records are deleted and only new ones added, and the
   *  difference is correct exactly when no record has been thinned out: then its last
   *  copies are deleted at the receiver.
   */
  method CreateDiff(wire: Bytes, old_: seq<Stored>, new_: seq<Stored>) returns (deleted: seq<Rr>, added: seq<Rr>)
    requires WireName(wire) && ValidEntry(old_) && ValidEntry(new_)
    ensures (forall x :: x in deleted ==> x in Data(old_)) && (forall x :: x in added ==> x in Data(new_))
    ensures LeadsTo(Data(old_), Data(new_), deleted, added) <==> !Thins(old_, new_)
    ensures forall r :: r in deleted <==> Loses(old_, new_, r)
    ensures forall r :: r in added <==> Loses(new_, old_, r)
  {
    var older := Sort(wire, old_);
    SortOrdered(wire, old_);
    SortValid(wire, old_);
    var newer := Sort(wire, new_);
    SortOrdered(wire, new_);
    SortValid(wire, new_);
    var gone := SetDifference(wire, older, newer);
    var came := SetDifference(wire, newer, older);
    assert multiset(gone) == multiset(old_) - multiset(new_);
    BlockIsExactIff(old_, new_, gone, came);
    GoneIsLost(old_, new_, gone);
    GoneIsLost(new_, old_, came);
    deleted := WithoutSoa(gone);
    added := WithoutSoa(came);
  }

  /** Some form of the record is stored more often before than after. */
  ghost predicate Loses(old_: seq<Stored>, new_: seq<Stored>, r: Rr) {
    exists x :: x in multiset(old_) - multiset(new_) && x.rr == r && r.rtype != TYPE_SOA
  }

  lemma {:induction false} GoneIsLost(old_: seq<Stored>, new_: seq<Stored>, gone: seq<Stored>)
    requires multiset(gone) == multiset(old_) - multiset(new_)
    ensures forall r :: r in WithoutSoa(gone) <==> Loses(old_, new_, r)
  {
    assert (set x | x in WithoutSoa(gone)) == Data(gone);
    forall r ensures r in Data(gone) <==> Loses(old_, new_, r) {
      if r in Data(gone) { var x := DataForm(gone, r); }
      if x :| x in multiset(old_) - multiset(new_) && x.rr == r && r.rtype != TYPE_SOA { DataMember(gone, x); }
    }
  }

  lemma {:induction false} BlockIsExactIff(old_: seq<Stored>, new_: seq<Stored>, gone: seq<Stored>, came: seq<Stored>)
    requires multiset(gone) == multiset(old_) - multiset(new_)
    requires multiset(came) == multiset(new_) - multiset(old_)
    ensures forall x :: x in WithoutSoa(gone) ==> x in Data(old_)
    ensures forall x :: x in WithoutSoa(came) ==> x in Data(new_)
    ensures LeadsTo(Data(old_), Data(new_), WithoutSoa(gone), WithoutSoa(came)) <==> !Thins(old_, new_)
  {
    DifferenceIsExactIff(old_, new_, gone, came);
    assert (set x | x in WithoutSoa(gone)) == Data(gone);
    assert (set x | x in WithoutSoa(came)) == Data(came);
  }

  lemma {:induction false} DataMember(s: seq<Stored>, x: Stored)
    requires x in multiset(s) && x.rr.rtype != TYPE_SOA
    ensures x.rr in Data(s)
  {
    var i :| 0 <= i < |s| && s[i] == x;
    assert s[i].rr in Data(s);
  }

  /** What is in the data has a stored form. */
  lemma {:induction false} DataForm(s: seq<Stored>, r: Rr) returns (x: Stored)
    requires r in Data(s)
    ensures x in multiset(s) && x.rr == r && r.rtype != TYPE_SOA
  {
    var i :| 0 <= i < |s| && s[i].rr == r && r.rtype != TYPE_SOA;
    x := s[i];
    assert x in s;
  }

  lemma {:induction false} DifferenceIsExactIff(old_: seq<Stored>, new_: seq<Stored>, gone: seq<Stored>,
                                                came: seq<Stored>)
    requires multiset(gone) == multiset(old_) - multiset(new_)
    requires multiset(came) == multiset(new_) - multiset(old_)
    ensures Data(gone) <= Data(old_) && Data(came) <= Data(new_)
    ensures (Data(old_) - Data(gone)) + Data(came) == Data(new_) <==> !Thins(old_, new_)
  {
    forall r | r in Data(gone) ensures r in Data(old_) {
      var x := DataForm(gone, r);
      DataMember(old_, x);
    }
    forall r | r in Data(came) ensures r in Data(new_) {
      var x := DataForm(came, r);
      DataMember(new_, x);
    }
    var made := (Data(old_) - Data(gone)) + Data(came);
    forall r ensures r in made <==> r in Data(new_) && !Thinned(old_, new_, r) {
      RecordMade(old_, new_, gone, came, r);
    }
    if !Thins(old_, new_) {
      assert made == Data(new_);
    } else {
      var r :| Thinned(old_, new_, r);
      assert r in Data(new_) && r !in made;
    }
  }

  lemma {:induction false} RecordMade(old_: seq<Stored>, new_: seq<Stored>, gone: seq<Stored>, came: seq<Stored>, r: Rr)
    requires multiset(gone) == multiset(old_) - multiset(new_)
    requires multiset(came) == multiset(new_) - multiset(old_)
    ensures (r in Data(old_) && r !in Data(gone)) || r in Data(came) <==> r in Data(new_) && !Thinned(old_, new_, r)
  {
    if r in Data(came) {
      var x := DataForm(came, r);
      assert multiset(new_)[x] > multiset(old_)[x];
      DataMember(new_, x);
    } else if r in Data(new_) {
      var x := DataForm(new_, r);
      forall y: Stored | y.rr == r ensures multiset(new_)[y] <= multiset(old_)[y] {
        if multiset(new_)[y] > multiset(old_)[y] { DataMember(came, y); }
      }
      DataMember(old_, x);
      ThinnedIsGone(old_, new_, gone, r);
    } else if r in Data(old_) {
      var x := DataForm(old_, r);
      if x in multiset(new_) { DataMember(new_, x); }
      DataMember(gone, x);
    }
  }

  lemma {:induction false} ThinnedIsGone(old_: seq<Stored>, new_: seq<Stored>, gone: seq<Stored>, r: Rr)
    requires multiset(gone) == multiset(old_) - multiset(new_) && r in Data(new_)
    requires forall x: Stored :: x.rr == r ==> multiset(new_)[x] <= multiset(old_)[x]
    ensures r in Data(gone) <==> Thinned(old_, new_, r)
  {
    if r in Data(gone) {
      var x := DataForm(gone, r);
      assert multiset(new_)[x] < multiset(old_)[x];
    } else if Thinned(old_, new_, r) {
      var _ := DataForm(new_, r);
      var x: Stored :| x.rr == r && multiset(new_)[x] < multiset(old_)[x];
      DataMember(gone, x);
    }
  }

  // ------------------------------------------------------------------ copies

  function Rrs(s: seq<Stored>): (r: seq<Rr>)
    ensures |r| == |s| && forall i :: 0 <= i < |s| ==> r[i] == s[i].rr
  {
    seq(|s|, i requires 0 <= i < |s| => s[i].rr)
  }

  /** No record is left with fewer copies than it had, unless with none. */
  predicate KeepsCopies(old_: seq<Rr>, new_: seq<Rr>) {
    forall r | r in new_ :: multiset(old_)[r] <= multiset(new_)[r]
  }

  /** Then none is thinned out, whatever the forms; so it is without duplicates. */
  lemma {:induction false} KeptIsNotThinned(old_: seq<Stored>, new_: seq<Stored>, r: Rr)
    requires KeepsCopies(Rrs(old_), Rrs(new_))
    ensures !Thinned(old_, new_, r)
  {
    if Thinned(old_, new_, r) {
      DataRecord(new_, r);
      var x: Stored :| x.rr == r && multiset(new_)[x] < multiset(old_)[x];
      FewerCopies(new_ + [x], old_, r);
      RrsAppend(new_, x);
    }
  }

  lemma {:induction false} DataRecord(s: seq<Stored>, r: Rr)
    requires r in Data(s)
    ensures r in Rrs(s)
  {
    var i :| 0 <= i < |s| && s[i].rr == r;
    assert Rrs(s)[i] == r;
  }

  lemma {:induction false} RrsAppend(s: seq<Stored>, x: Stored)
    ensures Rrs(s + [x]) == Rrs(s) + [x.rr]
  {
  }

  lemma {:induction false} WithoutOne(s: seq<Stored>, x: Stored) returns (rest: seq<Stored>)
    requires x in multiset(s)
    ensures multiset(s) == multiset(rest) + multiset{x}
    ensures multiset(Rrs(s)) == multiset(Rrs(rest)) + multiset{x.rr}
  {
    var i :| 0 <= i < |s| && s[i] == x;
    rest := s[..i] + s[i + 1..];
    RemoveAt(s, i);
    RemoveAt(Rrs(s), i);
    assert Rrs(rest) == Rrs(s)[..i] + Rrs(s)[i + 1..];
  }

  lemma {:induction false} RemoveAt<T>(s: seq<T>, i: nat)
    requires i < |s|
    ensures multiset(s) == multiset(s[..i] + s[i + 1..]) + multiset{s[i]}
  {
    assert s == s[..i] + [s[i]] + s[i + 1..];
  }

  /** Fewer copies in every form are fewer copies. */
  lemma {:induction false} FewerCopies(a: seq<Stored>, b: seq<Stored>, r: Rr)
    requires forall x: Stored :: x.rr == r ==> multiset(a)[x] <= multiset(b)[x]
    ensures multiset(Rrs(a))[r] <= multiset(Rrs(b))[r]
    decreases |a|
  {
    if a == [] {
    } else {
      var front, x := a[..|a| - 1], a[|a| - 1];
      assert a == front + [x];
      RrsAppend(front, x);
      if x.rr != r {
        FewerCopies(front, b, r);
      } else {
        assert multiset(a)[x] > 0;
        var rest := WithoutOne(b, x);
        FewerCopies(front, rest, r);
      }
    }
  }

  /** Two copies of a record, then one: the record is still there, and the difference
   *  deletes it.
   */
  lemma {:induction false} SecondCopyTakesTheFirst(r: Rr, gone: seq<Stored>, came: seq<Stored>)
    requires r.rtype != TYPE_SOA
    requires multiset(gone) == multiset([Stored(Full, r), Stored(Pointer(8), r)]) - multiset([Stored(Full, r)])
    requires multiset(came) == multiset([Stored(Full, r)]) - multiset([Stored(Full, r), Stored(Pointer(8), r)])
    ensures var old_, new_ := [Stored(Full, r), Stored(Pointer(8), r)], [Stored(Full, r)];
            r in Data(new_) && r !in (Data(old_) - Data(gone)) + Data(came)
  {
    var old_, new_ := [Stored(Full, r), Stored(Pointer(8), r)], [Stored(Full, r)];
    assert new_[0].rr in Data(new_);
    assert multiset(new_)[Stored(Pointer(8), r)] < multiset(old_)[Stored(Pointer(8), r)];
    assert Thinned(old_, new_, r);
    RecordMade(old_, new_, gone, came, r);
  }
}
