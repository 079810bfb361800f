/** Domain names on the wire: length-prefixed labels, a zero for the root, and
 *  compression pointers (sections 3.1 and 4.1.4 of RFC 1035;
 *  src/lib/DnsMessages.cpp, Labels).
 */
module Labels {
  import opened Bytes
  import opened Options

  const MAX_PTRS_IN_A_ROW := 16

  /** A parsed name: where each of its labels is, ending with the root, and how
   *  many bytes it occupies at the place where it was parsed.
   */
  datatype Name = Name(path: seq<nat>, bytes: nat)

  predicate IsPointer(ch: byte) {
    ch >= 192
  }

  /** resolvePtr: the 14 bits after the tag. */
  function Target(buffer: Bytes, pos: nat): nat
    requires pos + 1 < |buffer|
  {
    var high: int := buffer[pos];
    (high % 64) * 256 + buffer[pos + 1]
  }

  /** All offsets into a buffer: the targets that a pointer can still name. */
  ghost function Offsets(buffer: Bytes): (r: set<nat>)
    ensures forall x: nat :: x in r <==> x < |buffer|
  {
    if buffer == [] then {} else Offsets(buffer[1..]) + {|buffer| - 1}
  }

  /** What the parser accepts at `pos`, label by label: the targets jumped to so
   *  far, the pointers followed in a row, and the length of the name so far.
   */
  ghost function ParseAt(buffer: Bytes, pos: nat, jumped: set<nat>, ptrs: nat, size: nat): Option<Name>
    decreases Offsets(buffer) - jumped, |buffer| - pos
  {
    if pos >= |buffer| || pos >= 65535 then None
    else
      var ch := buffer[pos];
      if ch == 0 then
        if size + 1 > 255 then None else Some(Name([pos], 1))
      else if IsPointer(ch) then
        if ptrs + 1 >= MAX_PTRS_IN_A_ROW || pos + 1 == |buffer| then None
        else
          var ptr := Target(buffer, pos);
          if ptr >= |buffer| || ptr in jumped then None
          else
            var rest := ParseAt(buffer, ptr, jumped + {ptr}, ptrs + 1, size);
            if rest.None? then None else Some(Name(rest.value.path, 2))
      else if ch > 63 || pos + ch >= |buffer| || Longer(size, ch) > 254 then None
      else
        var rest := ParseAt(buffer, pos + 1 + ch, jumped, 0, Longer(size, ch));
        if rest.None? then None else Some(Name([pos] + rest.value.path, 1 + ch + rest.value.bytes))
  }

  /** Length of a name after one more label: a dot, unless it is the first. */
  function Longer(size: nat, len: nat): nat {
    size + (if size > 0 then 1 else 0) + len
  }

  /** A spec result with what was parsed before it put in front. */
  ghost function Continue(path: seq<nat>, bytes: nat, inPointer: bool, rest: Option<Name>): Option<Name> {
    if rest.None? then None
    else Some(Name(path + rest.value.path, if inPointer then bytes else bytes + rest.value.bytes))
  }

  ghost predicate InBuffer(buffer: Bytes, path: seq<nat>) {
    forall i :: 0 <= i < |path| ==> path[i] < |buffer|
  }

  /** Length of the text of the labels at `path`, dots included. */
  ghost function TextLen(buffer: Bytes, path: seq<nat>): nat
    requires InBuffer(buffer, path)
  {
    if path == [] then 0 else Longer(TextLen(buffer, path[..|path| - 1]), buffer[path[|path| - 1]])
  }

  lemma {:induction false} ContinueJump(path: seq<nat>, bytes: nat, inPointer: bool, rest: Option<Name>)
    ensures Continue(path, bytes, inPointer, Continue([], 2, true, rest)) ==
            Continue(path, if inPointer then bytes else bytes + 2, true, rest)
  {
    if rest.Some? { assert path + ([] + rest.value.path) == path + rest.value.path; }
  }

  lemma {:induction false} ContinueLabel(path: seq<nat>, bytes: nat, inPointer: bool, at: nat, len: nat,
                                         rest: Option<Name>)
    ensures Continue(path, bytes, inPointer, Continue([at], 1 + len, false, rest)) ==
            Continue(path + [at], if inPointer then bytes else bytes + 1 + len, inPointer, rest)
  {
    if rest.Some? { assert path + ([at] + rest.value.path) == path + [at] + rest.value.path; }
  }

  // --------------------------------------------- what a name in a buffer is

  /** Header bytes that lead from one to the next, and to the root: a pointer to the place
   *  it names, a label of at most 63 bytes to what follows it. All are inside the buffer
   *  and have 16-bit offsets.
   */
  ghost predicate Linked(buffer: Bytes, hops: seq<nat>) {
    && hops != []
    && (forall i :: 0 <= i < |hops| ==> hops[i] < |buffer| && hops[i] < 65535)
    && buffer[hops[|hops| - 1]] == 0
    && (forall i :: 0 <= i < |hops| - 1 ==> Leads(buffer, hops[i], hops[i + 1]))
  }

  ghost predicate Leads(buffer: Bytes, pos: nat, next: nat)
    requires pos < |buffer|
  {
    var ch := buffer[pos];
    if IsPointer(ch) then pos + 1 < |buffer| && next == Target(buffer, pos)
    else 0 < ch <= 63 && pos + ch < |buffer| && next == pos + 1 + ch
  }

  ghost predicate AtPointer(buffer: Bytes, hops: seq<nat>, i: nat) {
    i < |hops| && hops[i] < |buffer| && IsPointer(buffer[hops[i]])
  }

  /** No pointer leads to a place where an earlier one led, or that is given. */
  ghost predicate NoneTwice(buffer: Bytes, hops: seq<nat>, jumped: set<nat>) {
    && (forall i: nat :: AtPointer(buffer, hops, i) && i + 1 < |hops| ==> hops[i + 1] !in jumped)
    && (forall i: nat, j: nat :: i < j && AtPointer(buffer, hops, i) && AtPointer(buffer, hops, j) && j + 1 < |hops| ==>
          hops[i + 1] != hops[j + 1])
  }

  /** How many pointers in a row end with the n-th header; `ptrs` were followed before. */
  ghost function Row(buffer: Bytes, hops: seq<nat>, n: nat, ptrs: nat): nat {
    if n == 0 then ptrs else if AtPointer(buffer, hops, n - 1) then Row(buffer, hops, n - 1, ptrs) + 1 else 0
  }

  ghost predicate ShortRows(buffer: Bytes, hops: seq<nat>, ptrs: nat) {
    forall n: nat :: 0 < n <= |hops| ==> Row(buffer, hops, n, ptrs) < MAX_PTRS_IN_A_ROW
  }

  /** The headers that are not pointers: the labels, and the root. */
  ghost function LabelHops(buffer: Bytes, hops: seq<nat>): seq<nat> {
    if hops == [] then []
    else (if AtPointer(buffer, hops, 0) then [] else [hops[0]]) + LabelHops(buffer, hops[1..])
  }

  /** Length of a name of the given length after the labels at `path`. */
  ghost function Grown(buffer: Bytes, size: nat, path: seq<nat>): nat
    decreases |path|
  {
    if path == [] then size
    else Grown(buffer, Longer(size, if path[0] < |buffer| then buffer[path[0]] else 0), path[1..])
  }

  function Front(path: seq<nat>): seq<nat> {
    if path == [] then [] else path[..|path| - 1]
  }

  ghost predicate Traced(buffer: Bytes, hops: seq<nat>, jumped: set<nat>, ptrs: nat, size: nat) {
    && Linked(buffer, hops) && NoneTwice(buffer, hops, jumped) && ShortRows(buffer, hops, ptrs)
    && Grown(buffer, size, Front(LabelHops(buffer, hops))) <= 254
  }

  /** The name at `start`: its headers, from the first one on, at most 15 pointers in a row,
   *  no place twice the target of a pointer, and a text of at most 254 bytes.
   */
  ghost predicate IsName(buffer: Bytes, start: nat, hops: seq<nat>) {
    && Linked(buffer, hops) && hops[0] == start && NoneTwice(buffer, hops, {}) && ShortRows(buffer, hops, 0)
    && var path := LabelHops(buffer, hops);
       InBuffer(buffer, path) && TextLen(buffer, Front(path)) <= 254
  }

  /** The bytes of the name where it starts: up to its first pointer or the root. */
  ghost predicate Occupies(buffer: Bytes, hops: seq<nat>, bytes: nat) {
    forall m: nat :: IsLastHere(buffer, hops, m) ==>
      hops[0] + bytes == hops[m] + if AtPointer(buffer, hops, m) then 2 else 1
  }

  /** The m-th header is the first pointer, or the root when there is none. */
  ghost predicate IsLastHere(buffer: Bytes, hops: seq<nat>, m: nat) {
    && m < |hops| && (AtPointer(buffer, hops, m) || m == |hops| - 1)
    && (forall i: nat :: i < m ==> !AtPointer(buffer, hops, i))
  }

  lemma {:induction false} HopsTail(buffer: Bytes, hops: seq<nat>, i: nat)
    requires hops != []
    ensures AtPointer(buffer, hops[1..], i) <==> AtPointer(buffer, hops, i + 1)
  {
  }

  lemma {:induction false} RowTail(buffer: Bytes, hops: seq<nat>, n: nat, ptrs: nat)
    requires hops != []
    ensures Row(buffer, hops, n + 1, ptrs) ==
            Row(buffer, hops[1..], n, if AtPointer(buffer, hops, 0) then ptrs + 1 else 0)
  {
    if n == 0 {
      assert Row(buffer, hops, 0, ptrs) == ptrs;
    } else {
      RowTail(buffer, hops, n - 1, ptrs);
      HopsTail(buffer, hops, n - 1);
    }
  }

  lemma {:induction false} RowsTail(buffer: Bytes, hops: seq<nat>, ptrs: nat)
    requires |hops| > 1
    ensures var ptrs' := if AtPointer(buffer, hops, 0) then ptrs + 1 else 0;
            ShortRows(buffer, hops, ptrs) <==> ptrs' < MAX_PTRS_IN_A_ROW && ShortRows(buffer, hops[1..], ptrs')
  {
    var ptrs', rest := if AtPointer(buffer, hops, 0) then ptrs + 1 else 0, hops[1..];
    RowTail(buffer, hops, 0, ptrs);
    if ShortRows(buffer, hops, ptrs) {
      assert Row(buffer, hops, 1, ptrs) < MAX_PTRS_IN_A_ROW;
      forall n: nat | 0 < n <= |rest| ensures Row(buffer, rest, n, ptrs') < MAX_PTRS_IN_A_ROW {
        RowTail(buffer, hops, n, ptrs);
      }
    }
    if ptrs' < MAX_PTRS_IN_A_ROW && ShortRows(buffer, rest, ptrs') {
      forall n: nat | 0 < n <= |hops| ensures Row(buffer, hops, n, ptrs) < MAX_PTRS_IN_A_ROW {
        RowTail(buffer, hops, n - 1, ptrs);
        assert n == 1 || Row(buffer, rest, n - 1, ptrs') < MAX_PTRS_IN_A_ROW;
      }
    }
  }

  lemma {:induction false} LinkedTail(buffer: Bytes, hops: seq<nat>)
    requires |hops| > 1
    ensures Linked(buffer, hops) <==>
            hops[0] < |buffer| && hops[0] < 65535 && Leads(buffer, hops[0], hops[1]) && Linked(buffer, hops[1..])
  {
    var rest := hops[1..];
    assert forall i :: 0 <= i < |rest| ==> rest[i] == hops[i + 1];
    if Linked(buffer, rest) && hops[0] < |buffer| && hops[0] < 65535 && Leads(buffer, hops[0], hops[1]) {
      forall i | 0 <= i < |hops| ensures hops[i] < |buffer| && hops[i] < 65535 {
        if i > 0 { assert rest[i - 1] < |buffer| && rest[i - 1] < 65535; }
      }
      forall i | 0 <= i < |hops| - 1 ensures Leads(buffer, hops[i], hops[i + 1]) {
        if i > 0 { assert Leads(buffer, rest[i - 1], rest[i]); }
      }
    }
  }

  lemma {:induction false} TwiceTail(buffer: Bytes, hops: seq<nat>, jumped: set<nat>)
    requires |hops| > 1
    ensures NoneTwice(buffer, hops, jumped) <==>
            if AtPointer(buffer, hops, 0) then hops[1] !in jumped && NoneTwice(buffer, hops[1..], jumped + {hops[1]})
            else NoneTwice(buffer, hops[1..], jumped)
  {
    var rest := hops[1..];
    forall i: nat ensures AtPointer(buffer, rest, i) <==> AtPointer(buffer, hops, i + 1) { HopsTail(buffer, hops, i); }
    if NoneTwice(buffer, hops, jumped) {
      TwiceFront(buffer, hops, jumped);
    } else {
      TwiceBack(buffer, hops, jumped);
    }
  }

  lemma {:induction false} TwiceFront(buffer: Bytes, hops: seq<nat>, jumped: set<nat>)
    requires |hops| > 1 && NoneTwice(buffer, hops, jumped)
    requires forall i: nat :: AtPointer(buffer, hops[1..], i) <==> AtPointer(buffer, hops, i + 1)
    ensures if AtPointer(buffer, hops, 0) then hops[1] !in jumped && NoneTwice(buffer, hops[1..], jumped + {hops[1]})
            else NoneTwice(buffer, hops[1..], jumped)
  {
    var rest := hops[1..];
    forall i: nat | AtPointer(buffer, rest, i) && i + 1 < |rest|
      ensures rest[i + 1] !in jumped && (AtPointer(buffer, hops, 0) ==> rest[i + 1] != hops[1])
    {
      assert AtPointer(buffer, hops, i + 1) && rest[i + 1] == hops[i + 2];
    }
    forall i: nat, j: nat | i < j && AtPointer(buffer, rest, i) && AtPointer(buffer, rest, j) && j + 1 < |rest|
      ensures rest[i + 1] != rest[j + 1]
    {
      assert AtPointer(buffer, hops, i + 1) && AtPointer(buffer, hops, j + 1);
    }
  }

  lemma {:induction false} TwiceBack(buffer: Bytes, hops: seq<nat>, jumped: set<nat>)
    requires |hops| > 1
    requires forall i: nat :: AtPointer(buffer, hops[1..], i) <==> AtPointer(buffer, hops, i + 1)
    ensures (if AtPointer(buffer, hops, 0) then hops[1] !in jumped && NoneTwice(buffer, hops[1..], jumped + {hops[1]})
             else NoneTwice(buffer, hops[1..], jumped)) ==>
            NoneTwice(buffer, hops, jumped)
  {
    var rest := hops[1..];
    var more := if AtPointer(buffer, hops, 0) then jumped + {hops[1]} else jumped;
    if NoneTwice(buffer, rest, more) && (AtPointer(buffer, hops, 0) ==> hops[1] !in jumped) {
      forall i: nat | AtPointer(buffer, hops, i) && i + 1 < |hops| ensures hops[i + 1] !in jumped {
        if i > 0 { assert AtPointer(buffer, rest, i - 1) && rest[i] == hops[i + 1]; }
      }
      forall i: nat, j: nat | i < j && AtPointer(buffer, hops, i) && AtPointer(buffer, hops, j) && j + 1 < |hops|
        ensures hops[i + 1] != hops[j + 1]
      {
        assert AtPointer(buffer, rest, j - 1) && rest[j] == hops[j + 1];
        if i > 0 { assert AtPointer(buffer, rest, i - 1) && rest[i] == hops[i + 1]; }
      }
    }
  }

  lemma {:induction false} GrownAtLeast(buffer: Bytes, size: nat, path: seq<nat>)
    ensures size <= Grown(buffer, size, path)
    decreases |path|
  {
    if path == [] {
    } else {
      GrownAtLeast(buffer, Longer(size, if path[0] < |buffer| then buffer[path[0]] else 0), path[1..]);
    }
  }

  /** The last header is the root, so it is not a pointer. */
  lemma {:induction false} EndsWithRoot(buffer: Bytes, hops: seq<nat>)
    requires Linked(buffer, hops)
    ensures var path := LabelHops(buffer, hops);
            path != [] && InBuffer(buffer, path) && path[|path| - 1] == hops[|hops| - 1] && Front(path) == path[..|path| - 1]
    decreases |hops|
  {
    if |hops| == 1 {
      assert LabelHops(buffer, hops[1..]) == [];
    } else {
      LinkedTail(buffer, hops);
      EndsWithRoot(buffer, hops[1..]);
    }
  }

  lemma {:induction false} GrownTail(buffer: Bytes, hops: seq<nat>, size: nat)
    requires Linked(buffer, hops) && |hops| > 1
    ensures var path, rest := LabelHops(buffer, hops), LabelHops(buffer, hops[1..]);
            && path != [] && rest != []
            && Grown(buffer, size, Front(path)) ==
               Grown(buffer, if AtPointer(buffer, hops, 0) then size else Longer(size, buffer[hops[0]]), Front(rest))
  {
    var path, rest := LabelHops(buffer, hops), LabelHops(buffer, hops[1..]);
    LinkedTail(buffer, hops);
    EndsWithRoot(buffer, hops[1..]);
    if AtPointer(buffer, hops, 0) {
      assert path == rest;
    } else {
      assert Front(path)[0] == hops[0];
      assert Front(path)[1..] == Front(rest);
    }
  }

  lemma {:induction false} TracedTail(buffer: Bytes, hops: seq<nat>, jumped: set<nat>, ptrs: nat, size: nat)
    requires |hops| > 1
    ensures var pointer := AtPointer(buffer, hops, 0);
            Traced(buffer, hops, jumped, ptrs, size) <==>
              && hops[0] < |buffer| && hops[0] < 65535 && Leads(buffer, hops[0], hops[1])
              && (pointer ==> ptrs + 1 < MAX_PTRS_IN_A_ROW && hops[1] !in jumped)
              && Traced(buffer, hops[1..], if pointer then jumped + {hops[1]} else jumped,
                        if pointer then ptrs + 1 else 0, if pointer then size else Longer(size, buffer[hops[0]]))
  {
    LinkedTail(buffer, hops);
    RowsTail(buffer, hops, ptrs);
    TwiceTail(buffer, hops, jumped);
    if Linked(buffer, hops) { GrownTail(buffer, hops, size); }
  }

  lemma {:induction false} TracedRoot(buffer: Bytes, pos: nat, jumped: set<nat>, ptrs: nat, size: nat)
    requires pos < |buffer| && pos < 65535 && buffer[pos] == 0 && size <= 254
    ensures Traced(buffer, [pos], jumped, ptrs, size)
    ensures LabelHops(buffer, [pos]) == [pos]
  {
    assert LabelHops(buffer, [pos][1..]) == [];
    assert Row(buffer, [pos], 1, ptrs) == 0;
  }

  /** The name that the trace spells, at its start. */
  ghost predicate Spells(buffer: Bytes, hops: seq<nat>, r: Option<Name>) {
    r.Some? && r.value.path == LabelHops(buffer, hops) && Occupies(buffer, hops, r.value.bytes)
  }

  lemma {:induction false} SpellsRoot(buffer: Bytes, hops: seq<nat>)
    requires |hops| == 1 && hops[0] < |buffer| && buffer[hops[0]] == 0
    ensures Spells(buffer, hops, Some(Name(hops, 1)))
  {
    assert LabelHops(buffer, hops) == [hops[0]] + LabelHops(buffer, hops[1..]);
  }

  lemma {:induction false} SpellsJump(buffer: Bytes, hops: seq<nat>, rest: Option<Name>)
    requires |hops| > 1 && AtPointer(buffer, hops, 0) && Spells(buffer, hops[1..], rest)
    ensures Spells(buffer, hops, Some(Name(rest.value.path, 2)))
  {
    PointerOccupies(buffer, hops);
  }

  lemma {:induction false} SpellsLabel(buffer: Bytes, hops: seq<nat>, rest: Option<Name>)
    requires Linked(buffer, hops) && |hops| > 1 && !AtPointer(buffer, hops, 0) && Spells(buffer, hops[1..], rest)
    ensures Spells(buffer, hops, Some(Name([hops[0]] + rest.value.path, 1 + buffer[hops[0]] + rest.value.bytes)))
  {
    LabelOccupies(buffer, hops, rest.value.bytes);
  }

  lemma {:induction false} JumpIsParsed(buffer: Bytes, hops: seq<nat>, jumped: set<nat>, ptrs: nat, size: nat)
    requires |hops| > 1 && hops[0] < 65535 && AtPointer(buffer, hops, 0) && Leads(buffer, hops[0], hops[1])
    requires hops[1] < |buffer| && ptrs + 1 < MAX_PTRS_IN_A_ROW && hops[1] !in jumped
    requires Spells(buffer, hops[1..], ParseAt(buffer, hops[1], jumped + {hops[1]}, ptrs + 1, size))
    ensures Spells(buffer, hops, ParseAt(buffer, hops[0], jumped, ptrs, size))
  {
    var rest := ParseAt(buffer, hops[1], jumped + {hops[1]}, ptrs + 1, size);
    SpellsJump(buffer, hops, rest);
    assert ParseAt(buffer, hops[0], jumped, ptrs, size) == Some(Name(rest.value.path, 2));
  }

  lemma {:induction false} LabelIsParsed(buffer: Bytes, hops: seq<nat>, jumped: set<nat>, ptrs: nat, size: nat)
    requires Linked(buffer, hops) && |hops| > 1 && !AtPointer(buffer, hops, 0) && Longer(size, buffer[hops[0]]) <= 254
    requires Spells(buffer, hops[1..], ParseAt(buffer, hops[1], jumped, 0, Longer(size, buffer[hops[0]])))
    ensures Spells(buffer, hops, ParseAt(buffer, hops[0], jumped, ptrs, size))
  {
    var ch := buffer[hops[0]];
    var rest := ParseAt(buffer, hops[1], jumped, 0, Longer(size, ch));
    assert Leads(buffer, hops[0], hops[1]);
    SpellsLabel(buffer, hops, rest);
    ParseLabel(buffer, hops[0], jumped, ptrs, size, ch, rest.value);
  }

  /** A label in front of a name that is parsed. */
  lemma {:induction false} ParseLabel(buffer: Bytes, pos: nat, jumped: set<nat>, ptrs: nat, size: nat, len: nat,
                                      rest: Name)
    requires pos < |buffer| && pos < 65535 && buffer[pos] == len && 0 < len <= 63 && pos + len < |buffer|
    requires Longer(size, len) <= 254 && ParseAt(buffer, pos + 1 + len, jumped, 0, Longer(size, len)) == Some(rest)
    ensures ParseAt(buffer, pos, jumped, ptrs, size) == Some(Name([pos] + rest.path, 1 + len + rest.bytes))
  {
  }

  /** A traced name is accepted, with the labels of the trace. */
  lemma {:induction false} TracedIsParsed(buffer: Bytes, hops: seq<nat>, jumped: set<nat>, ptrs: nat, size: nat)
    requires Traced(buffer, hops, jumped, ptrs, size)
    ensures Spells(buffer, hops, ParseAt(buffer, hops[0], jumped, ptrs, size))
    decreases |hops|
  {
    GrownAtLeast(buffer, size, Front(LabelHops(buffer, hops)));
    if |hops| == 1 {
      SpellsRoot(buffer, hops);
      assert hops == [hops[0]];
    } else {
      TracedTail(buffer, hops, jumped, ptrs, size);
      if AtPointer(buffer, hops, 0) {
        TracedIsParsed(buffer, hops[1..], jumped + {hops[1]}, ptrs + 1, size);
        JumpIsParsed(buffer, hops, jumped, ptrs, size);
      } else {
        var longer := Longer(size, buffer[hops[0]]);
        GrownAtLeast(buffer, longer, Front(LabelHops(buffer, hops[1..])));
        TracedIsParsed(buffer, hops[1..], jumped, 0, longer);
        LabelIsParsed(buffer, hops, jumped, ptrs, size);
      }
    }
  }

  lemma {:induction false} PointerOccupies(buffer: Bytes, hops: seq<nat>)
    requires AtPointer(buffer, hops, 0)
    ensures Occupies(buffer, hops, 2)
  {
    forall m: nat | IsLastHere(buffer, hops, m) ensures m == 0 {
    }
  }

  lemma {:induction false} LabelOccupies(buffer: Bytes, hops: seq<nat>, bytes: nat)
    requires Linked(buffer, hops) && |hops| > 1 && !AtPointer(buffer, hops, 0) && Occupies(buffer, hops[1..], bytes)
    ensures Occupies(buffer, hops, 1 + buffer[hops[0]] + bytes)
  {
    assert Leads(buffer, hops[0], hops[1]);
    forall m: nat | IsLastHere(buffer, hops, m)
      ensures hops[0] + (1 + buffer[hops[0]] + bytes) == hops[m] + if AtPointer(buffer, hops, m) then 2 else 1
    {
      LastHereTail(buffer, hops, m);
    }
  }

  lemma {:induction false} LastHereTail(buffer: Bytes, hops: seq<nat>, m: nat)
    requires |hops| > 1 && !AtPointer(buffer, hops, 0) && IsLastHere(buffer, hops, m)
    ensures 0 < m && IsLastHere(buffer, hops[1..], m - 1) && hops[1..][m - 1] == hops[m]
    ensures AtPointer(buffer, hops[1..], m - 1) <==> AtPointer(buffer, hops, m)
  {
    HopsTail(buffer, hops, m - 1);
    forall i: nat | i < m - 1 ensures !AtPointer(buffer, hops[1..], i) { HopsTail(buffer, hops, i); }
  }

  /** What is accepted has a trace. */
  lemma {:induction false} ParsedIsTraced(buffer: Bytes, pos: nat, jumped: set<nat>, ptrs: nat, size: nat)
    returns (hops: seq<nat>)
    requires ParseAt(buffer, pos, jumped, ptrs, size).Some? && size <= 254
    ensures hops != [] && hops[0] == pos && Traced(buffer, hops, jumped, ptrs, size)
    decreases Offsets(buffer) - jumped, |buffer| - pos
  {
    var ch := buffer[pos];
    if ch == 0 {
      hops := [pos];
      TracedRoot(buffer, pos, jumped, ptrs, size);
    } else {
      var rest;
      if IsPointer(ch) {
        var ptr := Target(buffer, pos);
        assert ptr in Offsets(buffer) - jumped;
        rest := ParsedIsTraced(buffer, ptr, jumped + {ptr}, ptrs + 1, size);
      } else {
        rest := ParsedIsTraced(buffer, pos + 1 + ch, jumped, 0, Longer(size, ch));
      }
      hops := [pos] + rest;
      assert hops[1..] == rest;
      TracedTail(buffer, hops, jumped, ptrs, size);
    }
  }

  /** The length counted from the front is the length of the text. */
  lemma {:induction false} GrownIsText(buffer: Bytes, path: seq<nat>)
    requires InBuffer(buffer, path)
    ensures Grown(buffer, 0, path) == TextLen(buffer, path)
  {
    if path == [] {
    } else {
      var front, last := path[..|path| - 1], path[|path| - 1];
      GrownIsText(buffer, front);
      assert path == front + [last];
      GrownLast(buffer, 0, front, last);
    }
  }

  lemma {:induction false} GrownLast(buffer: Bytes, size: nat, front: seq<nat>, last: nat)
    requires last < |buffer|
    ensures Grown(buffer, size, front + [last]) == Longer(Grown(buffer, size, front), buffer[last])
    decreases |front|
  {
    var path := front + [last];
    if front == [] {
      assert path[1..] == [];
    } else {
      assert path[1..] == front[1..] + [last];
      GrownLast(buffer, Longer(size, if front[0] < |buffer| then buffer[front[0]] else 0), front[1..], last);
    }
  }

  lemma {:induction false} NameIsTraced(buffer: Bytes, hops: seq<nat>)
    requires hops != []
    ensures IsName(buffer, hops[0], hops) <==> Traced(buffer, hops, {}, 0, 0)
  {
    if Linked(buffer, hops) {
      EndsWithRoot(buffer, hops);
      GrownIsText(buffer, Front(LabelHops(buffer, hops)));
    }
  }

  /** The parser accepts exactly the names, each with its labels and its bytes. */
  lemma {:induction false} ParsesNamesIff(buffer: Bytes, start: nat)
    ensures ParseAt(buffer, start, {}, 0, 0).Some? <==> exists hops :: IsName(buffer, start, hops)
    ensures forall hops :: IsName(buffer, start, hops) ==> Spells(buffer, hops, ParseAt(buffer, start, {}, 0, 0))
  {
    forall hops | IsName(buffer, start, hops) ensures Spells(buffer, hops, ParseAt(buffer, start, {}, 0, 0)) {
      NameIsTraced(buffer, hops);
      TracedIsParsed(buffer, hops, {}, 0, 0);
    }
    if ParseAt(buffer, start, {}, 0, 0).Some? {
      var hops := ParsedIsTraced(buffer, start, {}, 0, 0);
      NameIsTraced(buffer, hops);
    }
  }

  // ------------------------------------------------------------ the byte loop

  /** What a header byte asks for. */
  datatype Header = Reject | Root | Jump(ptr: nat) | Label(len: nat)

  /** The checks that Labels::parse makes on a header byte. */
  method ReadHeader(buffer: Bytes, it: nat, jumpedTo: set<nat>, ptrs: nat, size: nat) returns (h: Header)
    requires it < |buffer|
    ensures h.Reject? ==> ParseAt(buffer, it, jumpedTo, ptrs, size) == None
    ensures h.Root? ==> ParseAt(buffer, it, jumpedTo, ptrs, size) == Some(Name([it], 1)) && size + 1 <= 255
    ensures h.Jump? ==>
              && h.ptr < |buffer| && h.ptr !in jumpedTo
              && ParseAt(buffer, it, jumpedTo, ptrs, size) ==
                 Continue([], 2, true, ParseAt(buffer, h.ptr, jumpedTo + {h.ptr}, ptrs + 1, size))
    ensures h.Label? ==>
              && h.len == buffer[it] && 0 < h.len && it + h.len < |buffer|
              && ParseAt(buffer, it, jumpedTo, ptrs, size) ==
                 if Longer(size, h.len) > 254 then None
                 else Continue([it], 1 + h.len, false, ParseAt(buffer, it + 1 + h.len, jumpedTo, 0, Longer(size, h.len)))
  {
    var ch := buffer[it];
    if it >= 65535 {
      return Reject;
    }
    if ch == 0 {
      if size + 1 > 255 {
        return Reject;
      }
      return Root;
    }
    if IsPointer(ch) {
      if ptrs + 1 >= MAX_PTRS_IN_A_ROW {
        return Reject;
      }
      if it + 1 == |buffer| {
        return Reject;
      }
      var ptr := Target(buffer, it);
      if ptr >= |buffer| {
        return Reject;
      }
      if ptr in jumpedTo {
        return Reject;
      }
      ghost var rest := ParseAt(buffer, ptr, jumpedTo + {ptr}, ptrs + 1, size);
      assert rest.Some? ==> [] + rest.value.path == rest.value.path;
      return Jump(ptr);
    }
    if ch > 63 {
      return Reject;
    }
    if it + ch >= |buffer| {
      return Reject;
    }
    return Label(ch);
  }

  /** The variables of the loop in Labels::parse. */
  datatype Progress = Progress(
    it: nat, inHeader: bool, inPointer: bool, labelBytes: nat, ptrs: nat,
    jumpedTo: set<nat>, count: nat, size: nat, bytes: nat)

  /** The labels at `path` are behind us, the last one perhaps not completely, and
   *  what is ahead completes them to `spec`.
   */
  ghost predicate OnTrack(buffer: Bytes, spec: Option<Name>, p: Progress, path: seq<nat>) {
    && p.it + p.labelBytes <= |buffer|
    && p.jumpedTo <= Offsets(buffer)
    && InBuffer(buffer, path) && p.count == |path|
    && p.size + p.labelBytes == TextLen(buffer, path)
    && p.size <= 254
    && (p.inHeader <==> p.labelBytes == 0)
    && (!p.inHeader ==> p.ptrs == 0)
    && spec == if p.size + p.labelBytes > 254 then None
               else Continue(path, p.bytes + (if p.inPointer then 0 else p.labelBytes), p.inPointer,
                             ParseAt(buffer, p.it + p.labelBytes, p.jumpedTo, p.ptrs, p.size + p.labelBytes))
  }

  lemma {:induction false} JumpOnTrack(buffer: Bytes, spec: Option<Name>, p: Progress, path: seq<nat>, ptr: nat)
    requires OnTrack(buffer, spec, p, path) && p.inHeader && ptr < |buffer|
    requires ParseAt(buffer, p.it, p.jumpedTo, p.ptrs, p.size) ==
             Continue([], 2, true, ParseAt(buffer, ptr, p.jumpedTo + {ptr}, p.ptrs + 1, p.size))
    ensures OnTrack(buffer, spec, p.(it := ptr, inPointer := true, ptrs := p.ptrs + 1, jumpedTo := p.jumpedTo + {ptr},
                                     bytes := if p.inPointer then p.bytes else p.bytes + 2), path)
  {
    ContinueJump(path, p.bytes, p.inPointer, ParseAt(buffer, ptr, p.jumpedTo + {ptr}, p.ptrs + 1, p.size));
  }

  lemma {:induction false} LabelOnTrack(buffer: Bytes, spec: Option<Name>, p: Progress, path: seq<nat>, len: nat)
    requires OnTrack(buffer, spec, p, path) && p.inHeader
    requires p.it + len < |buffer| && 0 < len == buffer[p.it]
    requires Longer(p.size, 0) <= 254
    requires ParseAt(buffer, p.it, p.jumpedTo, p.ptrs, p.size) ==
             if Longer(p.size, len) > 254 then None
             else Continue([p.it], 1 + len, false, ParseAt(buffer, p.it + 1 + len, p.jumpedTo, 0, Longer(p.size, len)))
    ensures OnTrack(buffer, spec, p.(it := p.it + 1, inHeader := false, labelBytes := len, ptrs := 0,
                                     count := p.count + 1, size := Longer(p.size, 0),
                                     bytes := if p.inPointer then p.bytes else p.bytes + 1), path + [p.it])
  {
    assert (path + [p.it])[..|path|] == path;
    ContinueLabel(path, p.bytes, p.inPointer, p.it, len,
                  ParseAt(buffer, p.it + 1 + len, p.jumpedTo, 0, Longer(p.size, len)));
  }

  lemma {:induction false} ByteOnTrack(buffer: Bytes, spec: Option<Name>, p: Progress, path: seq<nat>)
    requires OnTrack(buffer, spec, p, path) && !p.inHeader && p.size + 1 <= 254
    ensures OnTrack(buffer, spec, p.(it := p.it + 1, inHeader := p.labelBytes == 1, labelBytes := p.labelBytes - 1,
                                     size := p.size + 1,
                                     bytes := if p.inPointer then p.bytes else p.bytes + 1), path)
  {
  }

  /** What count(), size() and bytes() say of a parsed name. */
  ghost predicate Describes(buffer: Bytes, name: Name, count: nat, size: nat, bytes: nat) {
    && bytes == name.bytes
    && count == |name.path| > 0
    && InBuffer(buffer, name.path)
    && size == TextLen(buffer, name.path[..|name.path| - 1]) + 1 <= 255
  }

  datatype Outcome = Go(p: Progress) | Stop(ok: bool, count: nat, size: nat, bytes: nat)

  const INVALID := Stop(false, 0, 0, 0)

  /** One pass of the loop leaves the parser on track, nearer to its end, or done. */
  ghost predicate GoodStep(buffer: Bytes, spec: Option<Name>, p: Progress, o: Outcome, path: seq<nat>) {
    match o
    case Go(p') =>
      && OnTrack(buffer, spec, p', path)
      && (p.jumpedTo < p'.jumpedTo || (p'.jumpedTo == p.jumpedTo && p.it < p'.it))
    case Stop(ok, count, size, bytes) =>
      && (ok <==> spec.Some?)
      && (ok ==> Describes(buffer, spec.value, count, size, bytes))
  }

  lemma {:induction false} RootStep(buffer: Bytes, spec: Option<Name>, p: Progress, path: seq<nat>)
    requires OnTrack(buffer, spec, p, path) && p.inHeader && p.it < |buffer|
    requires ParseAt(buffer, p.it, p.jumpedTo, p.ptrs, p.size) == Some(Name([p.it], 1)) && p.size + 1 <= 255
    ensures GoodStep(buffer, spec, p,
                     Stop(true, p.count + 1, p.size + 1, if p.inPointer then p.bytes else p.bytes + 1), path)
  {
    assert (path + [p.it])[..|path|] == path;
  }

  method HeaderStep(buffer: Bytes, p: Progress, ghost spec: Option<Name>, ghost path: seq<nat>)
    returns (o: Outcome, ghost path': seq<nat>)
    requires OnTrack(buffer, spec, p, path) && p.inHeader && p.it < |buffer|
    ensures GoodStep(buffer, spec, p, o, path')
  {
    var h := ReadHeader(buffer, p.it, p.jumpedTo, p.ptrs, p.size);
    path' := path;
    match h {
      case Reject =>
        o := INVALID;
      case Root =>
        RootStep(buffer, spec, p, path);
        o := Stop(true, p.count + 1, p.size + 1, if p.inPointer then p.bytes else p.bytes + 1);
      case Jump(ptr) =>
        JumpOnTrack(buffer, spec, p, path, ptr);
        o := Go(p.(it := ptr, inPointer := true, ptrs := p.ptrs + 1, jumpedTo := p.jumpedTo + {ptr},
                   bytes := if p.inPointer then p.bytes else p.bytes + 2));
      case Label(len) =>
        if Longer(p.size, 0) > 254 {
          return INVALID, path;
        }
        LabelOnTrack(buffer, spec, p, path, len);
        path' := path + [p.it];
        o := Go(p.(it := p.it + 1, inHeader := false, labelBytes := len, ptrs := 0, count := p.count + 1,
                   size := Longer(p.size, 0), bytes := if p.inPointer then p.bytes else p.bytes + 1));
    }
  }

  method ByteStep(buffer: Bytes, p: Progress, ghost spec: Option<Name>, ghost path: seq<nat>) returns (o: Outcome)
    requires OnTrack(buffer, spec, p, path) && !p.inHeader && p.it < |buffer|
    ensures GoodStep(buffer, spec, p, o, path)
  {
    if p.size + 1 > 254 {
      return INVALID;
    }
    ByteOnTrack(buffer, spec, p, path);
    o := Go(p.(it := p.it + 1, inHeader := p.labelBytes == 1, labelBytes := p.labelBytes - 1, size := p.size + 1,
               bytes := if p.inPointer then p.bytes else p.bytes + 1));
  }

  lemma {:induction false} StartsOnTrack(buffer: Bytes, start: nat)
    requires start < |buffer|
    ensures OnTrack(buffer, ParseAt(buffer, start, {}, 0, 0), Progress(start, true, false, 0, 0, {}, 0, 0, 0), [])
  {
    var spec := ParseAt(buffer, start, {}, 0, 0);
    assert spec.Some? ==> [] + spec.value.path == spec.value.path;
  }

  lemma {:induction false} EndsInvalid(buffer: Bytes, spec: Option<Name>, p: Progress, path: seq<nat>)
    requires OnTrack(buffer, spec, p, path) && p.it >= |buffer|
    ensures spec == None
  {
  }

  /** The loop of Labels::parse, byte by byte as the source runs it. */
  method ParseBytes(buffer: Bytes, startOffset: nat) returns (ok: bool, count: nat, size: nat, bytes: nat)
    ensures var spec := ParseAt(buffer, startOffset, {}, 0, 0);
            && (ok <==> spec.Some?)
            && (ok ==> Describes(buffer, spec.value, count, size, bytes))
  {
    if startOffset >= |buffer| {
      return false, 0, 0, 0;
    }
    ghost var spec := ParseAt(buffer, startOffset, {}, 0, 0);
    ghost var path: seq<nat> := [];
    var p := Progress(startOffset, true, false, 0, 0, {}, 0, 0, 0);
    StartsOnTrack(buffer, startOffset);
    while p.it < |buffer|
      invariant OnTrack(buffer, spec, p, path)
      decreases Offsets(buffer) - p.jumpedTo, |buffer| - p.it
    {
      var o;
      if p.inHeader {
        o, path := HeaderStep(buffer, p, spec, path);
      } else {
        o := ByteStep(buffer, p, spec, path);
      }
      match o {
        case Go(p') =>
          p := p';
        case Stop(k, c, s, b) =>
          return k, c, s, b;
      }
    }
    EndsInvalid(buffer, spec, p, path);
    return false, 0, 0, 0;
  }

  /** The fields of a parsed name, against its headers. */
  ghost predicate Measures(buffer: Bytes, hops: seq<nat>, count: nat, size: nat, bytes: nat) {
    var path := LabelHops(buffer, hops);
    InBuffer(buffer, path) && count == |path| && size == TextLen(buffer, Front(path)) + 1 && Occupies(buffer, hops, bytes)
  }

  lemma {:induction false} DescribedMeasures(buffer: Bytes, hops: seq<nat>, name: Name, count: nat, size: nat,
                                             bytes: nat)
    requires Spells(buffer, hops, Some(name)) && Describes(buffer, name, count, size, bytes)
    ensures Measures(buffer, hops, count, size, bytes)
  {
  }

  /** Labels::parse. It reads inside the buffer only, ends on every buffer, and accepts
   *  exactly the names.
   */
  method Parse(buffer: Bytes, startOffset: nat) returns (ok: bool, count: nat, size: nat, bytes: nat)
    ensures ok <==> exists hops :: IsName(buffer, startOffset, hops)
    ensures forall hops :: IsName(buffer, startOffset, hops) ==> Measures(buffer, hops, count, size, bytes)
    ensures var spec := ParseAt(buffer, startOffset, {}, 0, 0);
            && (ok <==> spec.Some?)
            && (ok ==> Describes(buffer, spec.value, count, size, bytes))
  {
    ok, count, size, bytes := ParseBytes(buffer, startOffset);
    ParsesNamesIff(buffer, startOffset);
    forall hops | IsName(buffer, startOffset, hops) ensures Measures(buffer, hops, count, size, bytes) {
      DescribedMeasures(buffer, hops, ParseAt(buffer, startOffset, {}, 0, 0).value, count, size, bytes);
    }
  }
}
