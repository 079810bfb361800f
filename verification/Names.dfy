/** Reading a parsed name back with the forward iterator (src/lib/DnsMessages.cpp,
 *  Labels::Iterator and Labels::string), and writing one (writeName in
 *  include/nsblast/detail/write_labels.hpp).
 */
module Names {
  import opened Bytes
  import opened Options
  import opened Labels

  const DOT: byte := 46

  /** Where at most `fuel` pointers lead from `pos`. */
  function Resolve(buffer: Bytes, pos: nat, fuel: nat): Option<nat>
    decreases fuel
  {
    if pos >= |buffer| then None
    else if !IsPointer(buffer[pos]) then Some(pos)
    else if fuel == 0 || pos + 1 == |buffer| then None
    else Resolve(buffer, Target(buffer, pos), fuel - 1)
  }

  /** From `pos`, the labels at `path` follow each other up to the root. */
  ghost predicate Walkable(buffer: Bytes, pos: nat, path: seq<nat>)
    decreases |path|
  {
    && path != []
    && path[0] < |buffer|
    && Resolve(buffer, pos, MAX_PTRS_IN_A_ROW) == Some(path[0])
    && var len := buffer[path[0]];
       if |path| == 1 then len == 0
       else 0 < len && path[0] + len < |buffer| && Walkable(buffer, path[0] + 1 + len, path[1..])
  }

  lemma {:induction false} ResolveMoreFuel(buffer: Bytes, pos: nat, fuel: nat, more: nat)
    requires Resolve(buffer, pos, fuel).Some? && fuel <= more
    ensures Resolve(buffer, pos, more) == Resolve(buffer, pos, fuel)
    decreases fuel
  {
    if !IsPointer(buffer[pos]) {
    } else {
      ResolveMoreFuel(buffer, Target(buffer, pos), fuel - 1, more - 1);
    }
  }

  /** Every name the parser accepts can be walked along the same path. */
  lemma {:induction false} ParsedIsWalkable(buffer: Bytes, pos: nat, jumped: set<nat>, ptrs: nat, size: nat)
    requires ptrs < MAX_PTRS_IN_A_ROW
    requires ParseAt(buffer, pos, jumped, ptrs, size).Some?
    ensures var path := ParseAt(buffer, pos, jumped, ptrs, size).value.path;
            && path != []
            && Resolve(buffer, pos, MAX_PTRS_IN_A_ROW - 1 - ptrs) == Some(path[0])
            && Walkable(buffer, path[0], path)
    decreases Offsets(buffer) - jumped, |buffer| - pos
  {
    var ch := buffer[pos];
    var path := ParseAt(buffer, pos, jumped, ptrs, size).value.path;
    if ch == 0 {
    } else if IsPointer(ch) {
      var ptr := Target(buffer, pos);
      assert ptr in Offsets(buffer) - jumped;
      ParsedIsWalkable(buffer, ptr, jumped + {ptr}, ptrs + 1, size);
    } else {
      var rest := ParseAt(buffer, pos + 1 + ch, jumped, 0, Longer(size, ch)).value.path;
      ParsedIsWalkable(buffer, pos + 1 + ch, jumped, 0, Longer(size, ch));
      LabelIsWalkable(buffer, pos, rest);
      assert path == [pos] + rest;
    }
  }

  lemma {:induction false} LabelIsWalkable(buffer: Bytes, pos: nat, rest: seq<nat>)
    requires pos < |buffer| && 0 < buffer[pos] && !IsPointer(buffer[pos]) && pos + buffer[pos] < |buffer|
    requires rest != [] && Walkable(buffer, rest[0], rest)
    requires Resolve(buffer, pos + 1 + buffer[pos], MAX_PTRS_IN_A_ROW - 1) == Some(rest[0])
    ensures Walkable(buffer, pos, [pos] + rest)
  {
    ResolveMoreFuel(buffer, pos + 1 + buffer[pos], MAX_PTRS_IN_A_ROW - 1, MAX_PTRS_IN_A_ROW);
    WalkFrom(buffer, pos + 1 + buffer[pos], rest);
    assert ([pos] + rest)[1..] == rest;
  }

  lemma {:induction false} WalkFrom(buffer: Bytes, pos: nat, path: seq<nat>)
    requires path != [] && Walkable(buffer, path[0], path)
    requires Resolve(buffer, pos, MAX_PTRS_IN_A_ROW) == Some(path[0])
    ensures Walkable(buffer, pos, path)
  {
  }

  lemma {:induction false} ParseGivesWalk(buffer: Bytes, start: nat)
    requires ParseAt(buffer, start, {}, 0, 0).Some?
    ensures Walkable(buffer, start, ParseAt(buffer, start, {}, 0, 0).value.path)
  {
    ParsedIsWalkable(buffer, start, {}, 0, 0);
    ResolveMoreFuel(buffer, start, MAX_PTRS_IN_A_ROW - 1, MAX_PTRS_IN_A_ROW);
    WalkFrom(buffer, start, ParseAt(buffer, start, {}, 0, 0).value.path);
  }

  // ---------------------------------------------------------- the iterator

  function LabelAt(buffer: Bytes, pos: nat): Bytes
    requires pos < |buffer| && pos + buffer[pos] < |buffer|
  {
    buffer[pos + 1..pos + 1 + buffer[pos]]
  }

  /** Labels::Iterator. An empty buffer makes an end iterator. */
  class Iterator {
    var buffer: Bytes
    var loc: nat
    var csw: Bytes

    /** Standing on the first label of `path`, with the others still to come. */
    ghost predicate At(b: Bytes, path: seq<nat>)
      reads this
    {
      && buffer == b && b != []
      && path != [] && Walkable(b, loc, path)
      && loc == path[0] < |b|
      && loc + b[loc] < |b|
      && csw == LabelAt(b, loc)
    }

    ghost predicate AtEnd()
      reads this
    {
      buffer == [] && loc == 0 && csw == []
    }

    constructor (b: Bytes, offset: nat, ghost path: seq<nat>)
      requires Walkable(b, offset, path)
      ensures At(b, path)
    {
      buffer, loc, csw := b, offset, [];
      new;
      FollowPointers(path);
      Update();
    }

    /** The bound on the jumps is never reached, so nothing is thrown. */
    method FollowPointers(ghost path: seq<nat>)
      requires buffer != [] && Walkable(buffer, loc, path)
      modifies this`loc
      ensures loc == path[0] && Walkable(buffer, loc, path)
    {
      var i := 0;
      while IsPointer(buffer[loc])
        invariant 0 <= i <= MAX_PTRS_IN_A_ROW && loc < |buffer|
        invariant Resolve(buffer, loc, MAX_PTRS_IN_A_ROW - i) == Some(path[0])
        decreases MAX_PTRS_IN_A_ROW - i
      {
        loc := Target(buffer, loc);
        i := i + 1;
      }
      assert loc == path[0];
      WalkRestart(buffer, old(loc), path);
    }

    method Update()
      requires buffer != [] && loc < |buffer| && loc + buffer[loc] < |buffer|
      modifies this`csw
      ensures csw == LabelAt(buffer, loc)
    {
      csw := buffer[loc + 1..loc + 1 + buffer[loc]];
    }

    /** operator++ */
    method Increment(ghost path: seq<nat>)
      requires At(buffer, path)
      modifies this
      ensures |path| == 1 ==> AtEnd()
      ensures |path| > 1 ==> At(old(buffer), path[1..])
    {
      if csw != [] {
        loc := loc + |csw| + 1;
        FollowPointers(path[1..]);
        Update();
      } else {
        loc, buffer, csw := 0, [], [];
      }
    }
  }

  lemma {:induction false} WalkRestart(buffer: Bytes, pos: nat, path: seq<nat>)
    requires Walkable(buffer, pos, path)
    requires !IsPointer(buffer[path[0]])
    ensures Walkable(buffer, path[0], path)
  {
  }

  ghost predicate LabelsInBuffer(buffer: Bytes, path: seq<nat>) {
    forall i :: 0 <= i < |path| ==> path[i] < |buffer| && path[i] + buffer[path[i]] < |buffer|
  }

  ghost function LabelsOf(buffer: Bytes, path: seq<nat>): seq<Bytes>
    requires LabelsInBuffer(buffer, path)
  {
    seq(|path|, i requires 0 <= i < |path| => LabelAt(buffer, path[i]))
  }

  /** A walk stays in the buffer, and only its end is the root. */
  lemma {:induction false} WalkBounds(buffer: Bytes, pos: nat, path: seq<nat>)
    requires Walkable(buffer, pos, path)
    ensures LabelsInBuffer(buffer, path) && InBuffer(buffer, path)
    ensures forall i :: 0 <= i < |path| - 1 ==> buffer[path[i]] > 0
    ensures buffer[path[|path| - 1]] == 0
    decreases |path|
  {
    if |path| <= 1 {
    } else {
      WalkBounds(buffer, path[0] + 1 + buffer[path[0]], path[1..]);
      assert forall i :: 0 < i < |path| ==> path[i] == path[1..][i - 1];
    }
  }

  /** Labels joined with dots. */
  function Join(labels: seq<Bytes>): Bytes {
    if labels == [] then []
    else if |labels| == 1 then labels[0]
    else Join(labels[..|labels| - 1]) + [DOT] + labels[|labels| - 1]
  }

  lemma {:induction false} JoinAppend(labels: seq<Bytes>, l: Bytes)
    ensures Join(labels + [l]) == if labels == [] then l else Join(labels) + [DOT] + l
  {
    assert (labels + [l])[..|labels|] == labels;
  }

  lemma {:induction false} JoinNonEmpty(labels: seq<Bytes>)
    requires labels != [] && forall i :: 0 <= i < |labels| ==> labels[i] != []
    ensures Join(labels) != []
  {
  }

  /** The text of a name is as long as the parser counted. */
  lemma {:induction false} JoinLength(buffer: Bytes, path: seq<nat>)
    requires LabelsInBuffer(buffer, path) && InBuffer(buffer, path)
    requires forall i :: 0 <= i < |path| ==> buffer[path[i]] > 0
    ensures |Join(LabelsOf(buffer, path))| == TextLen(buffer, path)
    ensures path != [] ==> TextLen(buffer, path) > 0
  {
    if path == [] {
    } else {
      var front := path[..|path| - 1];
      JoinLength(buffer, front);
      JoinAppend(LabelsOf(buffer, front), LabelAt(buffer, path[|path| - 1]));
      assert LabelsOf(buffer, path) == LabelsOf(buffer, front) + [LabelAt(buffer, path[|path| - 1])];
    }
  }

  /** The text of the first n labels of a path; its last position is the root. */
  ghost function TextUpTo(buffer: Bytes, path: seq<nat>, n: nat): Bytes
    requires LabelsInBuffer(buffer, path) && path != [] && n <= |path|
  {
    Join(LabelsOf(buffer, path[..if n < |path| then n else n - 1]))
  }

  /** One round of the loop in Labels::string; the root adds nothing. */
  method AppendText(ghost buffer: Bytes, ghost path: seq<nat>, ghost n: nat, v: Bytes, csw: Bytes) returns (r: Bytes)
    requires LabelsInBuffer(buffer, path) && n < |path| && csw == LabelAt(buffer, path[n])
    requires forall i :: 0 <= i < |path| ==> (buffer[path[i]] > 0 <==> i < |path| - 1)
    requires v == TextUpTo(buffer, path, n)
    ensures r == TextUpTo(buffer, path, n + 1)
  {
    r := v;
    if csw != [] {
      AppendLabel(buffer, path, n, v);
      if v != [] {
        r := r + [DOT];
      }
      r := r + csw;
    }
  }

  lemma {:induction false} DropNext<T>(s: seq<T>, n: nat)
    requires n < |s|
    ensures s[n..] != [] && s[n..][0] == s[n] && s[n..][1..] == s[n + 1..]
  {
  }

  /** Labels::string over a name that can be walked: the labels before the root,
   *  joined with dots. `n` counts the labels that the iteration yields.
   */
  method TextOf(buffer: Bytes, offset: nat, showRoot: bool, ghost path: seq<nat>) returns (v: Bytes, n: nat)
    requires Walkable(buffer, offset, path)
    ensures LabelsInBuffer(buffer, path)
    ensures v == Join(LabelsOf(buffer, path[..|path| - 1])) + if showRoot then [DOT] else []
    ensures n == |path|
  {
    WalkBounds(buffer, offset, path);
    v, n := [], 0;
    var it := new Iterator(buffer, offset, path);
    while it.buffer != []
      invariant 0 <= n <= |path|
      invariant n < |path| ==> it.At(buffer, path[n..])
      invariant n == |path| ==> it.AtEnd()
      invariant v == TextUpTo(buffer, path, n)
      modifies it
      decreases |path| - n
    {
      v := AppendText(buffer, path, n, v, it.csw);
      it.Increment(path[n..]);
      DropNext(path, n);
      n := n + 1;
    }
    if showRoot {
      v := v + [DOT];
    }
  }

  lemma {:induction false} AppendLabel(buffer: Bytes, path: seq<nat>, n: nat, v: Bytes)
    requires LabelsInBuffer(buffer, path) && n < |path| - 1
    requires forall i :: 0 <= i < |path| - 1 ==> buffer[path[i]] > 0
    requires v == Join(LabelsOf(buffer, path[..n]))
    ensures Join(LabelsOf(buffer, path[..n + 1])) ==
            (if v != [] then v + [DOT] else v) + LabelAt(buffer, path[n])
  {
    var labels := LabelsOf(buffer, path[..n]);
    JoinAppend(labels, LabelAt(buffer, path[n]));
    assert LabelsOf(buffer, path[..n + 1]) == labels + [LabelAt(buffer, path[n])];
    if n > 0 { JoinNonEmpty(labels); }
    else { assert v + LabelAt(buffer, path[n]) == LabelAt(buffer, path[n]); }
  }

  /** Every name that Labels::parse accepts is read back in full: exactly count()
   *  labels along the parser's path, and a text of length size() - 1.
   */
  method ParseAndRead(buffer: Bytes, start: nat) returns (ok: bool, text: Bytes, count: nat, size: nat)
    ensures ok <==> ParseAt(buffer, start, {}, 0, 0).Some?
    ensures ok ==> |text| == size - 1 && size <= 255
    ensures ok ==>
              var path := ParseAt(buffer, start, {}, 0, 0).value.path;
              && count == |path| > 0
              && LabelsInBuffer(buffer, path)
              && text == Join(LabelsOf(buffer, path[..|path| - 1]))
  {
    var bytes;
    ok, count, size, bytes := Parse(buffer, start);
    text := [];
    if ok {
      ghost var path := ParseAt(buffer, start, {}, 0, 0).value.path;
      ParseGivesWalk(buffer, start);
      WalkBounds(buffer, start, path);
      JoinLength(buffer, path[..|path| - 1]);
      var n;
      text, n := TextOf(buffer, start, false, path);
      assert n == count;
    }
  }

  // ------------------------------------------------------------ writing

  /** A label that writeName accepts. */
  predicate ValidLabel(l: Bytes) {
    && 0 < |l| <= 63
    && l[0] != 45
    && forall i :: 0 <= i < |l| ==> ValidChar(l[i]) || (i == 0 && l[i] == 95)
  }

  predicate ValidChar(c: byte) {
    48 <= c <= 57 || 97 <= c <= 122 || 65 <= c <= 90 || c == 45
  }

  predicate AllValid(labels: seq<Bytes>) {
    forall i :: 0 <= i < |labels| ==> ValidLabel(labels[i])
  }

  /** The wire form of a name. */
  function Wire(labels: seq<Bytes>): (w: Bytes)
    requires AllValid(labels)
    ensures w != []
  {
    if labels == [] then [0] else [|labels[0]|] + labels[0] + Wire(labels[1..])
  }

  ghost predicate ValidName(labels: seq<Bytes>) {
    AllValid(labels) && TotalLen(0, labels) <= 253
  }

  /** Length of the text after the given labels. */
  function TotalLen(size: nat, labels: seq<Bytes>): nat
    decreases |labels|
  {
    if labels == [] then size else TotalLen(Longer(size, |labels[0]|), labels[1..])
  }

  /** Where the labels of a name written at `at` are. */
  function PathAt(at: nat, labels: seq<Bytes>): (p: seq<nat>)
    ensures |p| == |labels| + 1
    decreases |labels|
  {
    if labels == [] then [at] else [at] + PathAt(at + 1 + |labels[0]|, labels[1..])
  }

  lemma {:induction false} TotalLenGrows(size: nat, labels: seq<Bytes>)
    ensures size <= TotalLen(size, labels)
    decreases |labels|
  {
    if labels == [] {
    } else {
      TotalLenGrows(Longer(size, |labels[0]|), labels[1..]);
    }
  }

  ghost predicate WrittenAt(buffer: Bytes, at: nat, labels: seq<Bytes>) {
    && AllValid(labels)
    && at + |Wire(labels)| <= |buffer|
    && buffer[at..at + |Wire(labels)|] == Wire(labels)
  }

  lemma {:induction false} SubSlice(b: Bytes, at: nat, n: nat, i: nat, j: nat)
    requires i <= j <= n && at + n <= |b|
    ensures b[at..at + n][i..j] == b[at + i..at + j]
  {
    var whole, part := b[at..at + n], b[at + i..at + j];
    forall k | 0 <= k < j - i ensures whole[i..j][k] == part[k] {
      assert whole[i..j][k] == whole[i + k] == b[at + (i + k)];
      assert part[k] == b[(at + i) + k];
    }
  }

  /** A written name is its first label, then the rest of the name. */
  lemma {:induction false} WrittenTail(buffer: Bytes, at: nat, labels: seq<Bytes>)
    requires WrittenAt(buffer, at, labels) && labels != []
    ensures |Wire(labels)| == 1 + |labels[0]| + |Wire(labels[1..])|
    ensures at + 1 + |labels[0]| < |buffer|
    ensures buffer[at] == |labels[0]|
    ensures buffer[at + 1..at + 1 + |labels[0]|] == labels[0]
    ensures WrittenAt(buffer, at + 1 + |labels[0]|, labels[1..])
  {
    var w, l := Wire(labels), labels[0];
    var here := buffer[at..at + |w|];
    assert buffer[at] == here[0] == w[0];
    SubSlice(buffer, at, |w|, 1, 1 + |l|);
    SubSlice(buffer, at, |w|, 1 + |l|, |w|);
    assert w[1..1 + |l|] == l;
    assert w[1 + |l|..|w|] == Wire(labels[1..]);
  }

  /** A written name is parsed back, whatever surrounds it. */
  lemma {:induction false} ParseWritten(buffer: Bytes, at: nat, labels: seq<Bytes>, jumped: set<nat>, ptrs: nat,
                                        size: nat)
    requires WrittenAt(buffer, at, labels) && at + |Wire(labels)| <= 65535
    requires TotalLen(size, labels) <= 254
    ensures ParseAt(buffer, at, jumped, ptrs, size) == Some(Name(PathAt(at, labels), |Wire(labels)|))
    decreases |labels|
  {
    TotalLenGrows(size, labels);
    if labels == [] {
      assert buffer[at] == buffer[at..at + 1][0];
    } else {
      var l := labels[0];
      assert ValidLabel(l);
      WrittenTail(buffer, at, labels);
      TotalLenGrows(Longer(size, |l|), labels[1..]);
      ParseWritten(buffer, at + 1 + |l|, labels[1..], jumped, 0, Longer(size, |l|));
    }
  }

  /** The i-th label of a name, or the end of it, is at pos. */
  ghost predicate LabelIs(buffer: Bytes, pos: nat, labels: seq<Bytes>, i: nat)
    requires i <= |labels|
  {
    && pos < |buffer| && pos + buffer[pos] < |buffer|
    && (if i < |labels| then LabelAt(buffer, pos) == labels[i] else buffer[pos] == 0)
  }

  lemma {:induction false} PathStep(at: nat, labels: seq<Bytes>, i: nat)
    requires labels != [] && 0 < i <= |labels|
    ensures PathAt(at, labels)[i] == PathAt(at + 1 + |labels[0]|, labels[1..])[i - 1]
  {
  }

  lemma {:induction false} ReadLabel(buffer: Bytes, at: nat, labels: seq<Bytes>, i: nat)
    requires WrittenAt(buffer, at, labels) && i <= |labels|
    ensures LabelIs(buffer, PathAt(at, labels)[i], labels, i)
    decreases |labels|
  {
    if labels == [] {
      assert buffer[at] == buffer[at..at + 1][0];
    } else {
      WrittenTail(buffer, at, labels);
      if i > 0 {
        ReadLabel(buffer, at + 1 + |labels[0]|, labels[1..], i - 1);
        PathStep(at, labels, i);
      }
    }
  }

  /** The labels read at a written name are the ones that were written. */
  lemma {:induction false} ReadWritten(buffer: Bytes, at: nat, labels: seq<Bytes>)
    requires WrittenAt(buffer, at, labels)
    ensures LabelsInBuffer(buffer, PathAt(at, labels))
    ensures LabelsOf(buffer, PathAt(at, labels)[..|labels|]) == labels
  {
    var path := PathAt(at, labels);
    forall i | 0 <= i <= |labels|
      ensures LabelIs(buffer, path[i], labels, i)
    {
      ReadLabel(buffer, at, labels, i);
    }
  }

  /** parseDomainNameSegment: length of the text up to the first dot. */
  function SegmentLen(s: Bytes): (n: nat)
    ensures n <= |s|
    ensures forall i :: 0 <= i < n ==> s[i] != DOT
    ensures n < |s| ==> s[n] == DOT
  {
    if s == [] || s[0] == DOT then 0 else 1 + SegmentLen(s[1..])
  }

  function AfterSegment(s: Bytes): (r: Bytes)
    requires s != []
    ensures |r| < |s|
  {
    var n := SegmentLen(s);
    s[if n + 1 <= |s| then n + 1 else |s|..]
  }

  function Split(s: Bytes): seq<Bytes>
    decreases |s|
  {
    if s == [] then [] else [s[..SegmentLen(s)]] + Split(AfterSegment(s))
  }

  predicate Writable(fqdn: Bytes) {
    |fqdn| + 2 < 256 && AllValid(Split(fqdn))
  }

  /** writeName: the wire form of the name, or a refusal. */
  method WriteName(fqdn: Bytes) returns (r: Option<Bytes>)
    ensures r.Some? <==> Writable(fqdn)
    ensures r.Some? ==> r.value == Wire(Split(fqdn))
  {
    if |fqdn| + 2 >= 256 {
      return None;
    }
    var out, segment := [], fqdn;
    while segment != []
      invariant AllValid(Split(fqdn)) <==> AllValid(Split(segment))
      invariant AllValid(Split(segment)) ==> Wire(Split(fqdn)) == out + Wire(Split(segment))
      decreases |segment|
    {
      var label_ := segment[..SegmentLen(segment)];
      ghost var rest := Split(AfterSegment(segment));
      assert Split(segment) == [label_] + rest;
      assert Split(segment)[0] == label_ && Split(segment)[1..] == rest;
      if !ValidLabel(label_) {
        return None;
      }
      ConsValid(label_, rest);
      out := out + [|label_|] + label_;
      segment := AfterSegment(segment);
    }
    return Some(out + [0]);
  }

  lemma {:induction false} ConsValid(l: Bytes, rest: seq<Bytes>)
    requires ValidLabel(l)
    ensures AllValid([l] + rest) <==> AllValid(rest)
  {
    assert forall i :: 0 <= i < |rest| ==> ([l] + rest)[i + 1] == rest[i];
    if AllValid([l] + rest) {
      forall i | 0 <= i < |rest| ensures ValidLabel(rest[i]) {
        assert ValidLabel(([l] + rest)[i + 1]);
      }
    }
  }

  lemma {:induction false} Dotted(a: Bytes, b: Bytes, c: Bytes)
    ensures a + [DOT] + b + [DOT] + c == a + [DOT] + (b + [DOT] + c)
  {
  }

  lemma {:induction false} JoinCons(l: Bytes, rest: seq<Bytes>)
    ensures Join([l] + rest) == if rest == [] then l else l + [DOT] + Join(rest)
    decreases |rest|
  {
    if rest == [] {
    } else if |rest| == 1 {
      JoinAppend([l], rest[0]);
      assert [l] + rest == [l] + [rest[0]];
    } else {
      var front, last := rest[..|rest| - 1], rest[|rest| - 1];
      JoinCons(l, front);
      assert rest == front + [last];
      JoinConsLast(l, front, last);
    }
  }

  lemma {:induction false} JoinConsLast(l: Bytes, front: seq<Bytes>, last: Bytes)
    requires front != [] && Join([l] + front) == l + [DOT] + Join(front)
    ensures Join([l] + (front + [last])) == l + [DOT] + Join(front + [last])
  {
    assert [l] + (front + [last]) == [l] + front + [last];
    JoinAppend([l] + front, last);
    JoinAppend(front, last);
    Dotted(l, Join(front), last);
  }

  lemma {:induction false} TotalLenIsJoin(labels: seq<Bytes>, size: nat)
    requires AllValid(labels)
    ensures TotalLen(size, labels) ==
            size + |Join(labels)| + (if size > 0 && labels != [] then 1 else 0)
    decreases |labels|
  {
    if labels == [] {
    } else {
      assert labels == [labels[0]] + labels[1..];
      JoinCons(labels[0], labels[1..]);
      assert ValidLabel(labels[0]);
      TotalLenIsJoin(labels[1..], Longer(size, |labels[0]|));
    }
  }

  /** The wire form is two bytes longer than the text, or one byte for the root. */
  lemma {:induction false} WireLength(labels: seq<Bytes>)
    requires ValidName(labels)
    ensures |Wire(labels)| == (if labels == [] then 1 else |Join(labels)| + 2) <= 255
    ensures labels == [] <==> Join(labels) == []
  {
    TotalLenIsJoin(labels, 0);
    WireIsText(labels);
  }

  lemma {:induction false} WireIsText(labels: seq<Bytes>)
    requires AllValid(labels)
    ensures |Wire(labels)| == if labels == [] then 1 else |Join(labels)| + 2
    ensures labels == [] <==> Join(labels) == []
  {
    if labels == [] {
    } else {
      assert labels == [labels[0]] + labels[1..];
      assert ValidLabel(labels[0]);
      WireIsText(labels[1..]);
      JoinCons(labels[0], labels[1..]);
    }
  }

  /** The name without the dot that may end it. */
  function Trim(fqdn: Bytes): Bytes {
    if fqdn != [] && fqdn[|fqdn| - 1] == DOT then fqdn[..|fqdn| - 1] else fqdn
  }

  lemma {:induction false} TrimParts(s: Bytes)
    requires s != []
    ensures var n, rest := SegmentLen(s), AfterSegment(s);
            Trim(s) == if rest == [] then s[..n] else s[..n] + [DOT] + Trim(rest)
  {
    var n, rest := SegmentLen(s), AfterSegment(s);
    if rest == [] {
      assert n == |s| ==> s[..n] == s;
    } else {
      assert s == s[..n] + [DOT] + rest;
      assert s[|s| - 1] == rest[|rest| - 1];
    }
  }

  lemma {:induction false} SplitParts(s: Bytes)
    requires s != [] && AllValid(Split(s))
    ensures Split(s) == [s[..SegmentLen(s)]] + Split(AfterSegment(s)) && AllValid(Split(AfterSegment(s)))
    ensures AfterSegment(s) == [] <==> Split(AfterSegment(s)) == []
  {
    var first, rest := s[..SegmentLen(s)], Split(AfterSegment(s));
    assert Split(s) == [first] + rest;
    assert ValidLabel(Split(s)[0]);
    ConsValid(first, rest);
  }

  /** Splitting and joining is the identity, but for a final dot. */
  lemma {:induction false} JoinSplit(s: Bytes)
    requires AllValid(Split(s))
    ensures Join(Split(s)) == Trim(s)
    decreases |s|
  {
    if s == [] {
    } else {
      SplitParts(s);
      JoinCons(s[..SegmentLen(s)], Split(AfterSegment(s)));
      JoinSplit(AfterSegment(s));
      TrimParts(s);
    }
  }

  /** A pointer to a written name is parsed as that name, in two bytes. */
  lemma {:induction false} ParsePointer(buffer: Bytes, off: nat, at: nat, labels: seq<Bytes>)
    requires WrittenAt(buffer, at, labels) && at + |Wire(labels)| <= 65535 && TotalLen(0, labels) <= 254
    requires off < 65535 && off + 1 < |buffer| && IsPointer(buffer[off]) && Target(buffer, off) == at
    ensures ParseAt(buffer, off, {}, 0, 0) == Some(Name(PathAt(at, labels), 2))
  {
    ParseWritten(buffer, at, labels, {at}, 1, 0);
    assert {} + {at} == {at};
  }

  /** Round trip: wherever an accepted name is written, it is parsed there, and through
   *  any pointer to it, and its text is the name again, without a final dot.
   */
  lemma {:induction false} NameRoundTrip(fqdn: Bytes, buffer: Bytes, at: nat, off: nat)
    requires Writable(fqdn)
    requires WrittenAt(buffer, at, Split(fqdn)) && at + |Wire(Split(fqdn))| <= 65535
    ensures var labels := Split(fqdn);
            var path := PathAt(at, labels);
            && ParseAt(buffer, at, {}, 0, 0) == Some(Name(path, |Wire(labels)|))
            && (off < 65535 && off + 1 < |buffer| && IsPointer(buffer[off]) && Target(buffer, off) == at ==>
                  ParseAt(buffer, off, {}, 0, 0) == Some(Name(path, 2)))
            && LabelsInBuffer(buffer, path)
            && Join(LabelsOf(buffer, path[..|path| - 1])) == Trim(fqdn)
  {
    var labels := Split(fqdn);
    JoinSplit(fqdn);
    TotalLenIsJoin(labels, 0);
    ParseWritten(buffer, at, labels, {}, 0, 0);
    ReadWritten(buffer, at, labels);
    if off < 65535 && off + 1 < |buffer| && IsPointer(buffer[off]) && Target(buffer, off) == at {
      ParsePointer(buffer, off, at, labels);
    }
  }

  // ------------------------------------------------------- compressed names

  /** Labels without an end: a pointer is to follow. */
  function Spelled(labels: seq<Bytes>): Bytes
    requires AllValid(labels)
  {
    if labels == [] then [] else [|labels[0]|] + labels[0] + Spelled(labels[1..])
  }

  /** The labels, then a pointer to the rest of the name. */
  ghost predicate CompressedAt(buffer: Bytes, at: nat, front: seq<Bytes>, to: nat) {
    && AllValid(front)
    && var off := at + |Spelled(front)|;
       && off + 1 < |buffer| && buffer[at..off] == Spelled(front)
       && IsPointer(buffer[off]) && Target(buffer, off) == to
  }

  lemma {:induction false} CompressedTail(buffer: Bytes, at: nat, front: seq<Bytes>, to: nat)
    requires CompressedAt(buffer, at, front, to) && front != []
    ensures |Spelled(front)| == 1 + |front[0]| + |Spelled(front[1..])|
    ensures buffer[at] == |front[0]| && at + 1 + |front[0]| < |buffer|
    ensures buffer[at + 1..at + 1 + |front[0]|] == front[0]
    ensures CompressedAt(buffer, at + 1 + |front[0]|, front[1..], to)
  {
    var w, l := Spelled(front), front[0];
    assert buffer[at] == buffer[at..at + |w|][0] == w[0];
    SubSlice(buffer, at, |w|, 1, 1 + |l|);
    SubSlice(buffer, at, |w|, 1 + |l|, |w|);
    assert w[1..1 + |l|] == l;
    assert w[1 + |l|..|w|] == Spelled(front[1..]);
  }

  /** Where the labels are. */
  function FrontPath(at: nat, front: seq<Bytes>): (p: seq<nat>)
    ensures |p| == |front|
    decreases |front|
  {
    if front == [] then [] else [at] + FrontPath(at + 1 + |front[0]|, front[1..])
  }

  /** The labels of `front` before a name that continues at `rest`. */
  function Prepended(at: nat, front: seq<Bytes>, rest: seq<nat>): Name
    decreases |front|
  {
    if front == [] then Name(rest, 2)
    else
      var tail := Prepended(at + 1 + |front[0]|, front[1..], rest);
      Name([at] + tail.path, 1 + |front[0]| + tail.bytes)
  }

  lemma {:induction false} ConsSum<T>(x: T, a: seq<T>, b: seq<T>)
    ensures [x] + (a + b) == [x] + a + b
  {
  }

  lemma {:induction false} TailOfSum<T>(a: seq<T>, b: seq<T>)
    requires a != []
    ensures (a + b)[0] == a[0] && (a + b)[1..] == a[1..] + b
  {
  }

  lemma {:induction false} PrependedIs(at: nat, front: seq<Bytes>, rest: seq<nat>)
    requires AllValid(front)
    ensures Prepended(at, front, rest) == Name(FrontPath(at, front) + rest, |Spelled(front)| + 2)
    decreases |front|
  {
    if front == [] {
    } else {
      PrependedIs(at + 1 + |front[0]|, front[1..], rest);
      ConsSum(at, FrontPath(at + 1 + |front[0]|, front[1..]), rest);
    }
  }

  lemma {:induction false} ParsePointerTo(buffer: Bytes, at: nat, to: nat, rest: seq<Bytes>, size: nat)
    requires CompressedAt(buffer, at, [], to) && at < 65535
    requires WrittenAt(buffer, to, rest) && to + |Wire(rest)| <= 65535 && TotalLen(size, rest) <= 254
    ensures ParseAt(buffer, at, {}, 0, size) == Some(Name(PathAt(to, rest), 2))
  {
    ParseWritten(buffer, to, rest, {to}, 1, size);
    assert {} + {to} == {to};
  }

  /** Where the labels end. */
  function EndOf(at: nat, front: seq<Bytes>): (end: nat)
    ensures at <= end
    decreases |front|
  {
    if front == [] then at else EndOf(at + 1 + |front[0]|, front[1..])
  }

  /** The length of each label is where the parser expects it. */
  predicate HasHeaders(buffer: Bytes, at: nat, front: seq<Bytes>)
    decreases |front|
  {
    front != [] ==>
      && at + |front[0]| < |buffer| && buffer[at] == |front[0]| && 0 < |front[0]| <= 63
      && HasHeaders(buffer, at + 1 + |front[0]|, front[1..])
  }

  lemma {:induction false} CompressedHeaders(buffer: Bytes, at: nat, front: seq<Bytes>, to: nat)
    requires CompressedAt(buffer, at, front, to)
    ensures HasHeaders(buffer, at, front) && EndOf(at, front) == at + |Spelled(front)|
    decreases |front|
  {
    if front == [] {
    } else {
      CompressedTail(buffer, at, front, to);
      assert ValidLabel(front[0]);
      CompressedHeaders(buffer, at + 1 + |front[0]|, front[1..], to);
    }
  }

  lemma {:induction false} ParsePrepended(buffer: Bytes, at: nat, front: seq<Bytes>, size: nat, rest: seq<nat>)
    requires HasHeaders(buffer, at, front) && EndOf(at, front) < 65535 && TotalLen(size, front) <= 254
    requires ParseAt(buffer, EndOf(at, front), {}, 0, TotalLen(size, front)) == Some(Name(rest, 2))
    ensures ParseAt(buffer, at, {}, 0, size) == Some(Prepended(at, front, rest))
    decreases |front|
  {
    if front == [] {
    } else {
      var len := |front[0]|;
      TotalLenGrows(Longer(size, len), front[1..]);
      ParsePrepended(buffer, at + 1 + len, front[1..], Longer(size, len), rest);
      ParseLabel(buffer, at, {}, 0, size, len, Prepended(at + 1 + len, front[1..], rest));
    }
  }

  lemma {:induction false} TotalLenSum(size: nat, front: seq<Bytes>, rest: seq<Bytes>)
    ensures TotalLen(size, front + rest) == TotalLen(TotalLen(size, front), rest)
    decreases |front|
  {
    if front == [] {
      assert front + rest == rest;
    } else {
      TailOfSum(front, rest);
      TotalLenSum(Longer(size, |front[0]|), front[1..], rest);
    }
  }

  lemma {:induction false} CompressedEnd(buffer: Bytes, at: nat, front: seq<Bytes>, to: nat)
    requires CompressedAt(buffer, at, front, to)
    ensures CompressedAt(buffer, at + |Spelled(front)|, [], to)
  {
    var off := at + |Spelled(front)|;
    assert buffer[off..off] == [];
  }

  /** The ordinary compressed name: some labels, and a pointer to where the others are. */
  lemma {:induction false} ParseCompressed(buffer: Bytes, at: nat, front: seq<Bytes>, to: nat, rest: seq<Bytes>,
                                           size: nat)
    requires CompressedAt(buffer, at, front, to) && at + |Spelled(front)| < 65535
    requires WrittenAt(buffer, to, rest) && to + |Wire(rest)| <= 65535 && TotalLen(size, front + rest) <= 254
    ensures ParseAt(buffer, at, {}, 0, size) ==
            Some(Name(FrontPath(at, front) + PathAt(to, rest), |Spelled(front)| + 2))
  {
    var path, mid := PathAt(to, rest), TotalLen(size, front);
    TotalLenSum(size, front, rest);
    TotalLenGrows(mid, rest);
    CompressedEnd(buffer, at, front, to);
    ParsePointerTo(buffer, at + |Spelled(front)|, to, rest, mid);
    CompressedHeaders(buffer, at, front, to);
    ParsePrepended(buffer, at, front, size, path);
    PrependedIs(at, front, path);
  }

  lemma {:induction false} ReadFront(buffer: Bytes, at: nat, front: seq<Bytes>, to: nat, i: nat)
    requires CompressedAt(buffer, at, front, to) && i < |front|
    ensures LabelIs(buffer, FrontPath(at, front)[i], front, i)
    decreases |front|
  {
    CompressedTail(buffer, at, front, to);
    if i == 0 {
    } else {
      ReadFront(buffer, at + 1 + |front[0]|, front[1..], to, i - 1);
      assert FrontPath(at, front)[i] == FrontPath(at + 1 + |front[0]|, front[1..])[i - 1];
    }
  }

  lemma {:induction false} ReadCompressed(buffer: Bytes, at: nat, front: seq<Bytes>, to: nat, rest: seq<Bytes>, i: nat)
    requires CompressedAt(buffer, at, front, to) && WrittenAt(buffer, to, rest) && i <= |front + rest|
    ensures LabelIs(buffer, (FrontPath(at, front) + PathAt(to, rest))[i], front + rest, i)
  {
    if i < |front| {
      ReadFront(buffer, at, front, to, i);
    } else {
      ReadLabel(buffer, to, rest, i - |front|);
    }
  }

  /** The name at `at` is accepted with the given path, and its text is that of the labels. */
  ghost predicate ReadsAs(buffer: Bytes, at: nat, path: seq<nat>, bytes: nat, labels: seq<Bytes>) {
    && ParseAt(buffer, at, {}, 0, 0) == Some(Name(path, bytes))
    && path != [] && LabelsInBuffer(buffer, path)
    && Join(LabelsOf(buffer, path[..|path| - 1])) == Join(labels)
  }

  /** Such a name is parsed in full, and its text is that of all its labels. */
  lemma {:induction false} CompressedRoundTrip(buffer: Bytes, at: nat, front: seq<Bytes>, to: nat, rest: seq<Bytes>)
    requires CompressedAt(buffer, at, front, to) && at + |Spelled(front)| < 65535
    requires WrittenAt(buffer, to, rest) && to + |Wire(rest)| <= 65535 && TotalLen(0, front + rest) <= 254
    ensures ReadsAs(buffer, at, FrontPath(at, front) + PathAt(to, rest), |Spelled(front)| + 2, front + rest)
  {
    ParseCompressed(buffer, at, front, to, rest, 0);
    TextAlong(buffer, FrontPath(at, front) + PathAt(to, rest), at, front, to, rest);
  }

  lemma {:induction false} TextAlong(buffer: Bytes, path: seq<nat>, at: nat, front: seq<Bytes>, to: nat,
                                     rest: seq<Bytes>)
    requires CompressedAt(buffer, at, front, to) && WrittenAt(buffer, to, rest)
    requires path == FrontPath(at, front) + PathAt(to, rest)
    ensures LabelsInBuffer(buffer, path)
    ensures Join(LabelsOf(buffer, path[..|path| - 1])) == Join(front + rest)
  {
    LabelsAlong(buffer, path, front + rest, at, front, to, rest);
  }

  lemma {:induction false} LabelsAlong(buffer: Bytes, path: seq<nat>, labels: seq<Bytes>,
                                       at: nat, front: seq<Bytes>, to: nat, rest: seq<Bytes>)
    requires CompressedAt(buffer, at, front, to) && WrittenAt(buffer, to, rest) && labels == front + rest
    requires path == FrontPath(at, front) + PathAt(to, rest)
    ensures LabelsInBuffer(buffer, path) && LabelsOf(buffer, path[..|path| - 1]) == labels
  {
    forall i | 0 <= i < |path| ensures LabelIs(buffer, path[i], labels, i) {
      ReadCompressed(buffer, at, front, to, rest, i);
    }
  }
}
