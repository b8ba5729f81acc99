// UTF-8: the table-driven automaton, counting, decoding and encoding (src/vm/utf8.cpp) and the two
// Limbo system calls built on them (src/vm/sys/Sysmod.cpp), against sections 3 and 4 of RFC 3629.
module Utf8 {

  type Byte = b: int | 0 <= b < 256

  // ---- the table ----

  /** First part of the table: bytes to character classes, sixteen bytes a row. */
  function ClassRow(row: nat): (r: seq<int>)
    requires row < 16
    ensures |r| == 16
  {
    if row < 8 then [0, 0, 0, 0, 0, 0, 0, 0, 0, 0, 0, 0, 0, 0, 0, 0]
    else if row == 8 then [1, 1, 1, 1, 1, 1, 1, 1, 1, 1, 1, 1, 1, 1, 1, 1]
    else if row == 9 then [9, 9, 9, 9, 9, 9, 9, 9, 9, 9, 9, 9, 9, 9, 9, 9]
    else if row < 12 then [7, 7, 7, 7, 7, 7, 7, 7, 7, 7, 7, 7, 7, 7, 7, 7]
    else if row == 12 then [8, 8, 2, 2, 2, 2, 2, 2, 2, 2, 2, 2, 2, 2, 2, 2]
    else if row == 13 then [2, 2, 2, 2, 2, 2, 2, 2, 2, 2, 2, 2, 2, 2, 2, 2]
    else if row == 14 then [10, 3, 3, 3, 3, 3, 3, 3, 3, 3, 3, 3, 3, 4, 3, 3]
    else [11, 6, 6, 6, 5, 8, 8, 8, 8, 8, 8, 8, 8, 8, 8, 8]
  }

  /** Second part: the successors of state 12 * row, one for each class. */
  function StateRow(row: nat): (r: seq<int>)
    requires row < 9
    ensures |r| == 12
  {
    match row
    case 0 => [0, 12, 24, 36, 60, 96, 84, 12, 12, 12, 48, 72]
    case 1 => [12, 12, 12, 12, 12, 12, 12, 12, 12, 12, 12, 12]
    case 2 => [12, 0, 12, 12, 12, 12, 12, 0, 12, 0, 12, 12]
    case 3 => [12, 24, 12, 12, 12, 12, 12, 24, 12, 24, 12, 12]
    case 4 => [12, 12, 12, 12, 12, 12, 12, 24, 12, 12, 12, 12]
    case 5 => [12, 24, 12, 12, 12, 12, 12, 12, 12, 24, 12, 12]
    case 6 => [12, 12, 12, 12, 12, 12, 12, 36, 12, 36, 12, 12]
    case 7 => [12, 36, 12, 12, 12, 12, 12, 36, 12, 36, 12, 12]
    case _ => [12, 36, 12, 12, 12, 12, 12, 12, 12, 12, 12, 12]
  }

  /** The whole table, indexed as the decoder does. */
  function TableAt(i: nat): int
    requires i < 364
  {
    if i < 256 then ClassRow(i / 16)[i % 16] else StateRow((i - 256) / 12)[(i - 256) % 12]
  }

  const ACCEPT := 0
  const REJECT := 12

  predicate IsState(s: int) { 0 <= s <= 96 && s % 12 == 0 }

  // ---- section 4 of RFC 3629 ----

  predicate Tail(b: Byte) { 0x80 <= b <= 0xBF }

  /** The first two bytes of a three-byte character. */
  predicate Lead3(a: Byte, b: Byte) {
    || (a == 0xE0 && 0xA0 <= b <= 0xBF)
    || ((0xE1 <= a <= 0xEC || a == 0xEE || a == 0xEF) && Tail(b))
    || (a == 0xED && 0x80 <= b <= 0x9F)
  }

  /** The first two bytes of a four-byte character. */
  predicate Lead4(a: Byte, b: Byte) {
    || (a == 0xF0 && 0x90 <= b <= 0xBF)
    || (0xF1 <= a <= 0xF3 && Tail(b))
    || (a == 0xF4 && 0x80 <= b <= 0x8F)
  }

  /** Length of the character at the start of s, 0 when there is none. */
  function CharLen(s: seq<Byte>): (k: nat)
    ensures k <= 4 && k <= |s|
  {
    if |s| >= 1 && s[0] <= 0x7F then 1
    else if |s| >= 2 && 0xC2 <= s[0] <= 0xDF && Tail(s[1]) then 2
    else if |s| >= 3 && Lead3(s[0], s[1]) && Tail(s[2]) then 3
    else if |s| >= 4 && Lead4(s[0], s[1]) && Tail(s[2]) && Tail(s[3]) then 4
    else 0
  }

  predicate IsChar(c: seq<Byte>) { c != [] && CharLen(c) == |c| }

  predicate WellFormed(s: seq<Byte>) {
    s == [] || (CharLen(s) > 0 && WellFormed(s[CharLen(s)..]))
  }

  /** The character number of section 3: the bits marked x, concatenated. */
  function Value(c: seq<Byte>): (v: nat)
    requires IsChar(c)
  {
    var a: int := c[0];
    if |c| == 1 then a
    else if |c| == 2 then (a % 32) * 64 + Six(c[1])
    else if |c| == 3 then (a % 16) * 4096 + Six(c[1]) * 64 + Six(c[2])
    else (a % 8) * 262144 + Six(c[1]) * 4096 + Six(c[2]) * 64 + Six(c[3])
  }

  /** The six payload bits of a continuation byte. */
  function Six(b: Byte): nat { var i: int := b; i % 64 }

  /** A Unicode scalar value: in range and not a surrogate. */
  predicate Scalar(r: nat) { r <= 0x10FFFF && !(0xD800 <= r <= 0xDFFF) }

  // ---- the table is the automaton of that grammar ----

  /** What a state still expects, byte by byte. */
  function Next(state: int, b: Byte): (s: int)
    ensures IsState(s)
  {
    if state == 0 then
      if b <= 0x7F then 0
      else if 0xC2 <= b <= 0xDF then 24
      else if b == 0xE0 then 48
      else if b == 0xED then 60
      else if 0xE1 <= b <= 0xEF then 36
      else if b == 0xF0 then 72
      else if 0xF1 <= b <= 0xF3 then 84
      else if b == 0xF4 then 96
      else 12
    else if state == 24 then (if Tail(b) then 0 else 12)
    else if state == 36 then (if Tail(b) then 24 else 12)
    else if state == 48 then (if 0xA0 <= b <= 0xBF then 24 else 12)
    else if state == 60 then (if 0x80 <= b <= 0x9F then 24 else 12)
    else if state == 72 then (if 0x90 <= b <= 0xBF then 36 else 12)
    else if state == 84 then (if Tail(b) then 36 else 12)
    else if state == 96 then (if 0x80 <= b <= 0x8F then 36 else 12)
    else 12
  }

  function ClassOf(b: Byte): (c: int)
    ensures 0 <= c < 12
  {
    if b < 0x80 then 0
    else if b < 0x90 then 1
    else if b < 0xA0 then 9
    else if b < 0xC0 then 7
    else if b < 0xC2 then 8
    else if b < 0xE0 then 2
    else if b == 0xE0 then 10
    else if b == 0xED then 4
    else if b < 0xF0 then 3
    else if b == 0xF0 then 11
    else if b < 0xF4 then 6
    else if b == 0xF4 then 5
    else 8
  }

  lemma ClassTable(b: Byte)
    ensures TableAt(b) == ClassOf(b)
  {
    ClassRowIs(b / 16, b % 16);
    assert b == 16 * (b / 16) + b % 16;
  }

  lemma ClassRowIs(row: nat, column: nat)
    requires row < 16 && column < 16
    ensures ClassRow(row)[column] == ClassOf(16 * row + column)
  {
    if row < 12 { LowClassRow(row, column); } else { HighClassRow(row, column); }
  }

  lemma LowClassRow(row: nat, column: nat)
    requires row < 12 && column < 16
    ensures ClassRow(row)[column] == ClassOf(16 * row + column)
  {
  }

  lemma HighClassRow(row: nat, column: nat)
    requires 12 <= row < 16 && column < 16
    ensures ClassRow(row)[column] == ClassOf(16 * row + column)
  {
    if row == 12 {
    } else if row == 13 {
    } else if row == 14 {
    } else {
    }
  }

  lemma StateTable(row: nat, b: Byte)
    requires row < 9
    ensures StateRow(row)[ClassOf(b)] == Next(12 * row, b)
  {
  }

  /** The table is the automaton: every entry that a byte selects is the successor the grammar asks for. */
  lemma TableIsAutomaton(state: int, b: Byte)
    requires IsState(state)
    ensures TableAt(b) == ClassOf(b) && TableAt(256 + state + TableAt(b)) == Next(state, b)
  {
    ClassTable(b);
    StateTable(state / 12, b);
    assert (state + ClassOf(b)) / 12 == state / 12 && (state + ClassOf(b)) % 12 == ClassOf(b);
  }

  // ---- runs of the automaton ----

  /** The state after the first i bytes. */
  function RunTo(s: seq<Byte>, i: nat): (state: int)
    requires i <= |s|
    ensures IsState(state)
  {
    if i == 0 then ACCEPT else Next(RunTo(s, i - 1), s[i - 1])
  }

  const WORD := 0x1_0000_0000

  /** `(0xff >> type) & byte`. */
  function FirstBits(cls: int, b: Byte): nat
  {
    var i: int := b;
    match cls
    case 0 => i
    case 1 => i % 128
    case 2 => i % 64
    case 3 => i % 32
    case 4 => i % 16
    case 5 => i % 8
    case 6 => i % 4
    case 7 => i % 2
    case _ => 0
  }

  /** The code point register after one byte, in 32 bits: a character starts or six more bits continue it. */
  function NextCodepoint(state: int, cp: nat, b: Byte): nat
  {
    if state != ACCEPT then (Six(b) + cp * 64) % WORD else FirstBits(ClassOf(b), b)
  }

  function CodepointTo(s: seq<Byte>, i: nat): nat
    requires i <= |s|
  {
    if i == 0 then 0 else NextCodepoint(RunTo(s, i - 1), CodepointTo(s, i - 1), s[i - 1])
  }

  /** From a character boundary the automaton runs through one character without accepting or rejecting inside it,
      and its register then holds the character number. */
  lemma RunsThroughChar(s: seq<Byte>, p: nat)
    requires p <= |s| && RunTo(s, p) == ACCEPT && CharLen(s[p..]) > 0
    ensures var k := CharLen(s[p..]);
            && RunTo(s, p + k) == ACCEPT
            && (forall q :: p < q < p + k ==> RunTo(s, q) != ACCEPT && RunTo(s, q) != REJECT)
            && IsChar(s[p..p + k]) && CodepointTo(s, p + k) == Value(s[p..p + k])
  {
    var k := CharLen(s[p..]);
    StatesInChar(s, p);
    assert s[p..p + k] == s[p..][..k];
    CharOfPrefix(s[p..]);
    RegisterFolds(s, p, k);
    FoldIsValue(s, p, k);
  }

  lemma StatesInChar(s: seq<Byte>, p: nat)
    requires p <= |s| && RunTo(s, p) == ACCEPT && CharLen(s[p..]) > 0
    ensures var k := CharLen(s[p..]);
            && RunTo(s, p + k) == ACCEPT
            && (forall q :: p < q < p + k ==> RunTo(s, q) != ACCEPT && RunTo(s, q) != REJECT)
  {
    var t := s[p..];
    var k := CharLen(t);
    assert forall j :: 0 <= j < k ==> t[j] == s[p + j];
    assert RunTo(s, p + 1) == Next(0, s[p]);
    if k >= 2 { assert RunTo(s, p + 2) == Next(RunTo(s, p + 1), s[p + 1]); }
    if k >= 3 { assert RunTo(s, p + 3) == Next(RunTo(s, p + 2), s[p + 2]); }
    if k == 4 { assert RunTo(s, p + 4) == Next(RunTo(s, p + 3), s[p + 3]); }
  }

  lemma CharOfPrefix(s: seq<Byte>)
    requires CharLen(s) > 0
    ensures IsChar(s[..CharLen(s)])
  {
  }

  /** The first j bytes from p on, folded six bits at a time. */
  function Folded(s: seq<Byte>, p: nat, j: nat): (r: nat)
    requires 1 <= j <= 4 && p + j <= |s|
    ensures j == 1 ==> r < 0x100
    ensures j == 2 ==> r < 0x4000
    ensures j == 3 ==> r < 0x10_0000
  {
    if j == 1 then FirstBits(ClassOf(s[p]), s[p]) else Six(s[p + j - 1]) + 64 * Folded(s, p, j - 1)
  }

  lemma {:induction false} RegisterFolds(s: seq<Byte>, p: nat, j: nat)
    requires 1 <= j <= 4 && p + j <= |s| && RunTo(s, p) == ACCEPT
    requires forall q :: p < q < p + j ==> RunTo(s, q) != ACCEPT
    ensures CodepointTo(s, p + j) == Folded(s, p, j)
  {
    if j > 1 { RegisterFolds(s, p, j - 1); }
  }

  lemma FoldIsValue(s: seq<Byte>, p: nat, k: nat)
    requires p + k <= |s| && 1 <= k <= 4 && IsChar(s[p..p + k])
    ensures Folded(s, p, k) == Value(s[p..p + k])
  {
    var c := s[p..p + k];
    assert forall j :: 0 <= j < k ==> c[j] == s[p + j];
    FirstOfChar(c);
    if k >= 2 { assert Folded(s, p, 2) == Six(c[1]) + 64 * Folded(s, p, 1); }
    if k >= 3 { assert Folded(s, p, 3) == Six(c[2]) + 64 * Folded(s, p, 2); }
  }

  /** The class of a leading byte masks exactly the length bits. */
  lemma FirstOfChar(c: seq<Byte>)
    requires IsChar(c)
    ensures var a: int := c[0];
            FirstBits(ClassOf(c[0]), c[0]) ==
            (if |c| == 1 then a else if |c| == 2 then a % 32 else if |c| == 3 then a % 16 else a % 8)
  {
    LeadingByte(c);
    hide CharLen, ClassOf;
    match |c|
    case 1 => FirstOf1(c[0]);
    case 2 => FirstOf2(c[0]);
    case 3 => FirstOf3(c[0]);
    case _ => FirstOf4(c[0]);
  }

  /** The length of a character shows in its first byte. */
  lemma LeadingByte(c: seq<Byte>)
    requires IsChar(c)
    ensures |c| <= 4
    ensures c[0] < 0x80 || 0xC2 <= c[0] <= 0xF4
    ensures |c| == if c[0] < 0x80 then 1 else if c[0] < 0xE0 then 2 else if c[0] < 0xF0 then 3 else 4
  {
  }

  lemma FirstOf1(a: Byte)
    requires a < 0x80
    ensures FirstBits(ClassOf(a), a) == a as int
  {
    assert ClassOf(a) == 0;
  }

  lemma FirstOf2(a: Byte)
    requires 0xC2 <= a < 0xE0
    ensures FirstBits(ClassOf(a), a) == a as int % 32
  {
    assert ClassOf(a) == 2;
  }

  lemma FirstOf3(a: Byte)
    requires 0xE0 <= a < 0xF0
    ensures FirstBits(ClassOf(a), a) == a as int % 16
  {
    assert ClassOf(a) in {3, 4, 10};
  }

  lemma FirstOf4(a: Byte)
    requires 0xF0 <= a <= 0xF4
    ensures FirstBits(ClassOf(a), a) == a as int % 8
  {
    assert ClassOf(a) in {5, 6, 11};
  }

  lemma {:induction false} RejectIsFinal(s: seq<Byte>, i: nat, j: nat)
    requires i <= j <= |s| && RunTo(s, i) == REJECT
    ensures RunTo(s, j) == REJECT
  {
    if i < j { RejectIsFinal(s, i, j - 1); }
  }

  /** Where no character starts, the automaton never accepts again; it rejects, unless the input ends
      inside what could have become a character. */
  lemma NeverAcceptsAgain(s: seq<Byte>, p: nat, q: nat)
    requires p < q <= |s| && RunTo(s, p) == ACCEPT && CharLen(s[p..]) == 0
    ensures RunTo(s, q) != ACCEPT && (q >= p + 4 ==> RunTo(s, q) == REJECT)
  {
    var t := s[p..];
    assert forall j :: 0 <= j < |t| ==> t[j] == s[p + j];
    assert RunTo(s, p + 1) == Next(0, s[p]);
    if q > p + 1 { assert RunTo(s, p + 2) == Next(RunTo(s, p + 1), s[p + 1]); }
    if q > p + 2 { assert RunTo(s, p + 3) == Next(RunTo(s, p + 2), s[p + 2]); }
    if q > p + 3 {
      assert RunTo(s, p + 4) == Next(RunTo(s, p + 3), s[p + 3]);
      assert RunTo(s, p + 4) == REJECT;
      RejectIsFinal(s, p + 4, q);
    }
  }

  /** The automaton accepts exactly the byte strings of section 4. */
  lemma {:induction false} AcceptsFrom(s: seq<Byte>, p: nat)
    requires p <= |s| && RunTo(s, p) == ACCEPT
    ensures RunTo(s, |s|) == ACCEPT <==> WellFormed(s[p..])
    decreases |s| - p
  {
    if p < |s| {
      var k := CharLen(s[p..]);
      if k > 0 {
        RunsThroughChar(s, p);
        AcceptsFrom(s, p + k);
        assert s[p..][k..] == s[p + k..];
      } else {
        NeverAcceptsAgain(s, p, |s|);
      }
    }
  }

  lemma AcceptsExactlyRfc3629(s: seq<Byte>)
    ensures RunTo(s, |s|) == ACCEPT <==> WellFormed(s)
  {
    AcceptsFrom(s, 0);
    assert s[0..] == s;
  }

  lemma {:induction false} RunOfPrefix(s: seq<Byte>, n: nat, i: nat)
    requires i <= n <= |s|
    ensures RunTo(s[..n], i) == RunTo(s, i) && CodepointTo(s[..n], i) == CodepointTo(s, i)
  {
    if i > 0 { RunOfPrefix(s, n, i - 1); }
  }

  /** The automaton stands in the accepting state exactly at the ends of well-formed prefixes. */
  lemma AcceptsPrefix(s: seq<Byte>, i: nat)
    requires i <= |s|
    ensures RunTo(s, i) == ACCEPT <==> WellFormed(s[..i])
  {
    RunOfPrefix(s, i, i);
    AcceptsExactlyRfc3629(s[..i]);
  }

  // ---- one step, by the table ----

  method DecodeStep(state: int, codepoint: nat, byte: Byte) returns (state': int, codepoint': nat)
    requires IsState(state)
    ensures state' == Next(state, byte) && codepoint' == NextCodepoint(state, codepoint, byte)
  {
    var cls := TableAt(byte);
    TableIsAutomaton(state, byte);
    codepoint' := if state != ACCEPT then (Six(byte) + codepoint * 64) % WORD else FirstBits(cls, byte);
    state' := TableAt(256 + state + cls);
  }

  // ---- counting ----

  /** Length of the longest well-formed prefix, and the number of characters in it. */
  function PrefixLen(s: seq<Byte>): (n: nat)
    ensures n <= |s|
  {
    var k := CharLen(s);
    if k == 0 then 0 else k + PrefixLen(s[k..])
  }

  function PrefixChars(s: seq<Byte>): nat
  {
    var k := CharLen(s);
    if k == 0 then 0 else 1 + PrefixChars(s[k..])
  }

  /** Accepting states met after the first i bytes: how many, and where last. */
  function Accepts(s: seq<Byte>, i: nat): nat
    requires i <= |s|
  {
    if i == 0 then 0 else Accepts(s, i - 1) + (if RunTo(s, i) == ACCEPT then 1 else 0)
  }

  function LastAccept(s: seq<Byte>, i: nat): (l: nat)
    requires i <= |s|
    ensures l <= i && RunTo(s, l) == ACCEPT
    ensures forall j :: l < j <= i ==> RunTo(s, j) != ACCEPT
    ensures l == 0 <==> Accepts(s, i) == 0
  {
    if i == 0 then 0 else if RunTo(s, i) == ACCEPT then i else LastAccept(s, i - 1)
  }

  /** PrefixLen really is the longest: it is a well-formed prefix and every other one is no longer. */
  lemma {:induction false} PrefixIsWellFormed(s: seq<Byte>)
    ensures WellFormed(s[..PrefixLen(s)])
  {
    var k, p := CharLen(s), PrefixLen(s);
    if k > 0 {
      PrefixIsWellFormed(s[k..]);
      WellFormedStep(s, p);
    }
  }

  lemma {:induction false} PrefixIsLongest(s: seq<Byte>, i: nat)
    requires i <= |s| && WellFormed(s[..i])
    ensures i <= PrefixLen(s)
    decreases i
  {
    if i > 0 {
      var k := CharLen(s[..i]);
      CharLenStable(s[..i], s[i..]);
      assert s[..i] + s[i..] == s;
      WellFormedStep(s, i);
      PrefixIsLongest(s[k..], i - k);
    }
  }

  lemma WellFormedStep(s: seq<Byte>, i: nat)
    requires 0 < CharLen(s) <= i <= |s|
    ensures CharLen(s[..i]) == CharLen(s)
    ensures WellFormed(s[..i]) <==> WellFormed(s[CharLen(s)..][..i - CharLen(s)])
  {
    assert s[..i][CharLen(s)..] == s[CharLen(s)..][..i - CharLen(s)];
  }

  lemma {:induction false} NoAccepts(s: seq<Byte>, p: nat, q: nat)
    requires p <= q <= |s| && forall j :: p < j <= q ==> RunTo(s, j) != ACCEPT
    ensures Accepts(s, q) == Accepts(s, p) && LastAccept(s, q) == LastAccept(s, p)
  {
    if p < q { NoAccepts(s, p, q - 1); }
  }

  lemma CountsOne(s: seq<Byte>, p: nat)
    requires p <= |s| && RunTo(s, p) == ACCEPT && LastAccept(s, p) == p && CharLen(s[p..]) > 0
    ensures var q := p + CharLen(s[p..]);
            RunTo(s, q) == ACCEPT && Accepts(s, q) == Accepts(s, p) + 1 && LastAccept(s, q) == q
  {
    StatesInChar(s, p);
    NoAccepts(s, p, p + CharLen(s[p..]) - 1);
  }

  lemma {:induction false} CountsFrom(s: seq<Byte>, p: nat)
    requires p <= |s| && RunTo(s, p) == ACCEPT && LastAccept(s, p) == p
    ensures Accepts(s, |s|) == Accepts(s, p) + PrefixChars(s[p..])
    ensures LastAccept(s, |s|) == p + PrefixLen(s[p..])
    decreases |s| - p
  {
    var t := s[p..];
    var k := CharLen(t);
    if k > 0 {
      CountsOne(s, p);
      CountsFrom(s, p + k);
      assert t[k..] == s[p + k..];
    } else {
      forall j | p < j <= |s| ensures RunTo(s, j) != ACCEPT { NeverAcceptsAgain(s, p, j); }
      NoAccepts(s, p, |s|);
    }
  }

  /** The number of accepting positions is the number of characters in the longest well-formed prefix,
      and the last one is its end. */
  lemma AcceptsCountChars(s: seq<Byte>)
    ensures Accepts(s, |s|) == PrefixChars(s) && LastAccept(s, |s|) == PrefixLen(s)
  {
    CountsFrom(s, 0);
    assert s[0..] == s;
  }

  /** The number of points is right for every input; the byte count is the prefix length except that it is 1 when no
      character starts the input. */
  method CountCodepoints(str: array?<Byte>, max_len: nat) returns (points: nat, bytes: nat)
    requires if str == null then max_len == 0 else max_len <= str.Length
    ensures str == null ==> points == 0 && bytes == 0
    ensures str != null ==> points == PrefixChars(str[..max_len])
    ensures str != null ==> bytes == if CharLen(str[..max_len]) > 0 then PrefixLen(str[..max_len]) else 1
  {
    if str == null { return 0, 0; }
    ghost var s := str[..max_len];
    var codepoint: nat := 0;
    points := 0;
    var state := ACCEPT;
    var last: nat := 0;
    var curr: nat := 0;
    while curr < max_len
      invariant curr <= max_len && state == RunTo(s, curr)
      invariant points == Accepts(s, curr)
      invariant last == if points == 0 then 0 else LastAccept(s, curr) - 1
    {
      state, codepoint := DecodeStep(state, codepoint, str[curr]);
      if state == ACCEPT {
        last := curr;
        points := points + 1;
      }
      curr := curr + 1;
    }
    AcceptsCountChars(s);
    bytes := last + 1;
  }

  // ---- decoding ----

  datatype Decoded = Length(n: nat) | Invalid

  /** The bytes before the terminating NUL. */
  function BeforeNul(s: seq<Byte>): (r: seq<Byte>)
    ensures |r| <= |s| && r == s[..|r|] && 0 !in r && (|r| < |s| ==> s[|r|] == 0)
  {
    if s == [] || s[0] == 0 then [] else [s[0]] + BeforeNul(s[1..])
  }

  /** What one scan from a character boundary meets: the end of the character, or no accepting state at all. */
  lemma FirstCharOf(s: seq<Byte>, i: nat)
    requires 0 < i <= |s|
    requires forall j :: 0 < j < i ==> RunTo(s, j) != ACCEPT
    ensures RunTo(s, i) == ACCEPT <==> i == CharLen(s)
    ensures RunTo(s, i) == ACCEPT ==> IsChar(s[..i]) && CodepointTo(s, i) == Value(s[..i])
  {
    assert s[0..] == s;
    var k := CharLen(s);
    if k == 0 { NeverAcceptsAgain(s, 0, i); } else { RunsThroughChar(s, 0); assert s[0..0 + k] == s[..k]; }
  }

  lemma NoCharAccepted(s: seq<Byte>)
    requires forall j :: 0 < j <= |s| ==> RunTo(s, j) != ACCEPT
    ensures CharLen(s) == 0
  {
    assert s[0..] == s;
    if CharLen(s) > 0 { StatesInChar(s, 0); }
  }

  /** Decoding a NUL-terminated string: the length of its first character, 0 for the empty string, or an error. */
  method Decode(str: array<Byte>) returns (r: Decoded, codepoint: nat)
    requires exists z :: 0 <= z < str.Length && str[z] == 0
    ensures var s := BeforeNul(str[..]);
            && (s == [] ==> r == Length(0) && codepoint == 0)
            && (s != [] ==> r == if CharLen(s) > 0 then Length(CharLen(s)) else Invalid)
            && (CharLen(s) > 0 ==> IsChar(s[..CharLen(s)]) && codepoint == Value(s[..CharLen(s)]))
  {
    ghost var s := BeforeNul(str[..]);
    var state := ACCEPT;
    codepoint := 0;
    var curr: nat := 0;
    while str[curr] != 0
      invariant curr <= |s| < str.Length
      invariant state == RunTo(s, curr) && codepoint == CodepointTo(s, curr)
      invariant forall j :: 0 < j <= curr ==> RunTo(s, j) != ACCEPT
      decreases |s| - curr
    {
      var c := str[curr];
      curr := curr + 1;
      state, codepoint := DecodeStep(state, codepoint, c);
      if state == ACCEPT {
        FirstCharOf(s, curr);
        return Length(curr), codepoint;
      }
    }
    assert curr == |s|;
    if curr == 0 { return Length(0), codepoint; }
    NoCharAccepted(s);
    r := Invalid;
  }

  // ---- encoding ----

  const MAX_1 := 0x7F
  const MAX_2 := 0x7FF
  const MAX_3 := 0xFFFF
  const MAX_4 := 0x10FFFF

  /** The bytes of a character number, as section 3 of RFC 3629 lays them out. */
  function Encoded(rune: nat): (c: seq<Byte>)
    requires rune <= MAX_4
    ensures 1 <= |c| <= 4
  {
    if rune <= MAX_1 then [rune]
    else if rune <= MAX_2 then [0xC0 + rune / 64, 0x80 + rune % 64]
    else if rune <= MAX_3 then [0xE0 + rune / 4096, 0x80 + rune / 64 % 64, 0x80 + rune % 64]
    else [0xF0 + rune / 262144, 0x80 + rune / 4096 % 64, 0x80 + rune / 64 % 64, 0x80 + rune % 64]
  }

  lemma CharLenStable(s: seq<Byte>, more: seq<Byte>)
    requires CharLen(s) > 0
    ensures CharLen(s + more) == CharLen(s)
  {
    assert forall j :: 0 <= j < |s| ==> (s + more)[j] == s[j];
  }

  /** Encoding gives one character of the grammar exactly for scalar values, and decoding it gives the value back;
      a surrogate is encoded as bytes that start no character. */
  lemma DecodingUndoesEncoding(rune: nat, rest: seq<Byte>)
    requires rune <= MAX_4
    ensures CharLen(Encoded(rune) + rest) == if Scalar(rune) then |Encoded(rune)| else 0
    ensures IsChar(Encoded(rune)) <==> Scalar(rune)
    ensures Scalar(rune) ==> Value(Encoded(rune)) == rune
  {
    if Scalar(rune) {
      ScalarsEncodeChars(rune);
      CharLenStable(Encoded(rune), rest);
    } else {
      ThreeBytes(rune);
      assert (Encoded(rune) + rest)[0] == Encoded(rune)[0] == 0xED;
      assert (Encoded(rune) + rest)[1] == Encoded(rune)[1];
    }
  }

  lemma ScalarsEncodeChars(rune: nat)
    requires rune <= MAX_4 && Scalar(rune)
    ensures IsChar(Encoded(rune)) && Value(Encoded(rune)) == rune
  {
    if rune <= MAX_2 {
    } else if rune <= MAX_3 {
      ThreeBytes(rune);
    } else {
      FourBytes(rune);
    }
  }

  lemma ThreeBytes(rune: nat)
    requires MAX_2 < rune <= MAX_3
    ensures var c := Encoded(rune); (Lead3(c[0], c[1]) <==> Scalar(rune)) && Tail(c[2])
    ensures Scalar(rune) ==> Value(Encoded(rune)) == rune
  {
    var a, b, c := rune / 4096, rune / 64 % 64, rune % 64;
    assert rune / 4096 == rune / 64 / 64;
    assert a < 16 && a * 4096 + b * 64 + c == rune;
    Payload(0xE0 + a, 0x80 + b, 0x80 + c);
  }

  lemma FourBytes(rune: nat)
    requires MAX_3 < rune <= MAX_4
    ensures var c := Encoded(rune); Lead4(c[0], c[1]) && Tail(c[2]) && Tail(c[3])
    ensures Value(Encoded(rune)) == rune
  {
    var a, b, c, d := rune / 262144, rune / 4096 % 64, rune / 64 % 64, rune % 64;
    assert rune / 4096 == rune / 64 / 64 && rune / 262144 == rune / 64 / 64 / 64;
    assert a < 5 && a * 262144 + b * 4096 + c * 64 + d == rune;
    Payload(0xF0 + a, 0x80 + b, 0x80 + c);
    Payload(0xF0 + a, 0x80 + b, 0x80 + d);
  }

  lemma Payload(a: Byte, b: Byte, c: Byte)
    requires a >= 0xE0 && Tail(b) && Tail(c)
    ensures Six(b) == b - 0x80 && Six(c) == c - 0x80
    ensures var i: int := a; (a < 0xF0 ==> i % 16 == a - 0xE0) && (0xF0 <= a < 0xF8 ==> i % 8 == a - 0xF0)
  {
  }

  /** The other direction: every character of the grammar is the encoding of its number, which is a scalar value. */
  lemma EncodingUndoesDecoding(c: seq<Byte>)
    requires IsChar(c)
    ensures Scalar(Value(c)) && Encoded(Value(c)) == c
  {
    if |c| <= 2 {
    } else if |c| == 3 {
      ThreeByteChar(c);
    } else {
      FourByteChar(c);
    }
  }

  lemma ThreeByteChar(c: seq<Byte>)
    requires IsChar(c) && |c| == 3
    ensures Scalar(Value(c)) && Encoded(Value(c)) == c
  {
    var a: int := c[0];
    Digits3(a % 16, Six(c[1]), Six(c[2]));
    assert a == 0xE0 + a % 16;
  }

  lemma FourByteChar(c: seq<Byte>)
    requires IsChar(c) && |c| == 4
    ensures Scalar(Value(c)) && Encoded(Value(c)) == c
  {
    var p, q, r, t := FourParts(c);
    hide CharLen, IsChar, Six, Value;
    Digits4(p, q, r, t);
  }

  /** The payloads of a four-byte character, and the range of its number. */
  lemma FourParts(c: seq<Byte>) returns (p: nat, q: nat, r: nat, t: nat)
    requires IsChar(c) && |c| == 4
    ensures p < 5 && q < 64 && r < 64 && t < 64 && c == [0xF0 + p, 0x80 + q, 0x80 + r, 0x80 + t]
    ensures Value(c) == p * 262144 + q * 4096 + r * 64 + t && MAX_3 < Value(c) <= MAX_4
  {
    p, q, r, t := c[0] as int - 0xF0, c[1] as int - 0x80, c[2] as int - 0x80, c[3] as int - 0x80;
    Payload(c[0], c[1], c[2]);
    Payload(c[0], c[1], c[3]);
  }

  lemma Digits3(a: nat, b: nat, c: nat)
    requires b < 64 && c < 64
    ensures var v := a * 4096 + b * 64 + c; v / 4096 == a && v / 64 % 64 == b && v % 64 == c
  {
    var v := a * 4096 + b * 64 + c;
    assert v / 64 == a * 64 + b;
    assert v / 4096 == a;
  }

  lemma Digits4(a: nat, b: nat, c: nat, d: nat)
    requires b < 64 && c < 64 && d < 64
    ensures var v := a * 262144 + b * 4096 + c * 64 + d;
            v / 262144 == a && v / 4096 % 64 == b && v / 64 % 64 == c && v % 64 == d
  {
    var v := a * 262144 + b * 4096 + c * 64 + d;
    Digits3(a * 64 + b, c, d);
    assert v / 4096 == a * 64 + b;
    assert v / 262144 == a;
  }

  /** The position after the last byte written, or the null pointer. */
  datatype Place = At(end: nat) | Nowhere

  /** Encoding in place, from position start. Beyond the last character number nothing is written: an assertion of debug
      builds fails there, and other builds return the null pointer. */
  method Encode(rune: nat, str: array<Byte>, start: nat) returns (r: Place)
    requires rune <= MAX_4 ==> start + |Encoded(rune)| <= str.Length
    modifies str
    ensures rune > MAX_4 ==> r == Nowhere && str[..] == old(str[..])
    ensures rune <= MAX_4 ==> r == At(start + |Encoded(rune)|)
    ensures rune <= MAX_4 ==> str[..] == old(str[..start]) + Encoded(rune) + old(str[start + |Encoded(rune)|..])
  {
    if rune <= MAX_1 {
      str[start] := rune;
      r := At(start + 1);
    } else if rune <= MAX_2 {
      str[start] := 0xC0 + rune / 64;
      str[start + 1] := 0x80 + rune % 64;
      r := At(start + 2);
    } else if rune <= MAX_3 {
      assert rune / 4096 < 16;
      str[start] := 0xE0 + rune / 4096;
      str[start + 1] := 0x80 + rune / 64 % 64;
      str[start + 2] := 0x80 + rune % 64;
      r := At(start + 3);
    } else if rune <= MAX_4 {
      EncodeLong(rune, str, start);
      r := At(start + 4);
    } else {
      r := Nowhere;
    }
  }

  /** The branch of four bytes. */
  method EncodeLong(rune: nat, str: array<Byte>, start: nat)
    requires MAX_3 < rune <= MAX_4 && start + 4 <= str.Length
    modifies str
    ensures str[..] == old(str[..start]) + Encoded(rune) + old(str[start + 4..])
  {
    assert rune / 262144 < 5;
    str[start] := 0xF0 + rune / 262144;
    str[start + 1] := 0x80 + rune / 4096 % 64;
    str[start + 2] := 0x80 + rune / 64 % 64;
    str[start + 3] := 0x80 + rune % 64;
  }

  // ---- the two system calls ----

  const UTF_ERROR := 0xFFFD

  datatype Error = OutOfRange | IndexOutOfRange

  datatype Converted = Raised(error: Error) | Tuple(rune: nat, consumed: nat, status: nat)

  /** More bytes could still make s the start of a character. */
  ghost predicate CanComplete(s: seq<Byte>) { exists more: seq<Byte> :: CharLen(s + more) > 0 }

  /** The result that the source promises for the bytes from index n on. */
  ghost function Byte2Char(s: seq<Byte>): Converted {
    var k := CharLen(s);
    if k > 0 then CharOfPrefix(s); Tuple(Value(s[..k]), k, 1)
    else if CanComplete(s) then Tuple(UTF_ERROR, 0, 0)
    else Tuple(UTF_ERROR, 1, 0)
  }

  lemma RejectCannotComplete(s: seq<Byte>, i: nat)
    requires 0 < i <= |s| && RunTo(s, i) == REJECT
    requires forall j :: 0 < j < i ==> RunTo(s, j) != ACCEPT
    ensures CharLen(s) == 0 && !CanComplete(s)
  {
    forall more: seq<Byte> ensures CharLen(s + more) == 0 {
      var t := s + more;
      RunOfPrefix(t, |s|, i);
      assert t[..|s|] == s;
      if CharLen(t) > 0 {
        assert t[0..] == t;
        StatesInChar(t, 0);
        RunOfPrefix(t, |s|, if CharLen(t) < i then CharLen(t) else i);
      }
    }
    assert s + [] == s;
  }

  /** Bytes that lead from a state to acceptance. */
  function Completion(state: int): seq<Byte> {
    if state == 0 || state == 12 then [0]
    else if state == 24 then [0x80]
    else if state == 36 || state == 60 then [0x80, 0x80]
    else if state == 48 then [0xA0, 0x80]
    else if state == 96 then [0x80, 0x80, 0x80]
    else [0x90, 0x80, 0x80]
  }

  lemma PendingCanComplete(s: seq<Byte>)
    requires CharLen(s) == 0
    requires forall j :: 0 < j <= |s| ==> RunTo(s, j) != ACCEPT && RunTo(s, j) != REJECT
    ensures CanComplete(s)
  {
    var more := Completion(RunTo(s, |s|));
    if |s| >= 4 { assert s[0..] == s; NeverAcceptsAgain(s, 0, |s|); }
    if |s| >= 1 { assert RunTo(s, 1) == Next(0, s[0]); }
    if |s| >= 2 { assert RunTo(s, 2) == Next(RunTo(s, 1), s[1]); }
    if |s| == 3 {
      Completes3(s);
    } else if |s| == 2 {
      Completes2(s);
    } else {
      Completes1(s);
    }
  }

  lemma Completes1(s: seq<Byte>)
    requires |s| <= 1 && CharLen(s) == 0
    requires |s| == 1 ==> RunTo(s, 1) !in {ACCEPT, REJECT} && RunTo(s, 1) == Next(0, s[0])
    ensures CharLen(s + Completion(RunTo(s, |s|))) > 0
  {
  }

  lemma Completes3(s: seq<Byte>)
    requires |s| == 3 && CharLen(s) == 0
    requires RunTo(s, 1) !in {ACCEPT, REJECT} && RunTo(s, 1) == Next(0, s[0])
    requires RunTo(s, 2) !in {ACCEPT, REJECT} && RunTo(s, 2) == Next(RunTo(s, 1), s[1])
    requires RunTo(s, 3) !in {ACCEPT, REJECT}
    ensures CharLen(s + Completion(RunTo(s, 3))) > 0
  {
    assert RunTo(s, 3) == 24;
  }

  lemma Completes2(s: seq<Byte>)
    requires |s| == 2 && CharLen(s) == 0
    requires RunTo(s, 1) !in {ACCEPT, REJECT} && RunTo(s, 1) == Next(0, s[0])
    requires RunTo(s, 2) !in {ACCEPT, REJECT} && RunTo(s, 2) == Next(RunTo(s, 1), s[1])
    ensures CharLen(s + Completion(RunTo(s, 2))) > 0
  {
  }

  method SysByte2Char(buffer: array?<Byte>, n: int) returns (r: Converted)
    ensures buffer == null || n >= buffer.Length ==> r == Raised(OutOfRange)
    ensures buffer != null && n < 0 ==> r == Raised(IndexOutOfRange)
    ensures buffer != null && 0 <= n < buffer.Length ==> r == Byte2Char(buffer[n..])
  {
    if buffer == null || n >= buffer.Length { return Raised(OutOfRange); }
    if n < 0 { return Raised(IndexOutOfRange); }
    ghost var s := buffer[n..];
    var state, result: nat := ACCEPT, 0;
    var i := n;
    while i < buffer.Length
      invariant n <= i <= buffer.Length
      invariant state == RunTo(s, i - n) && result == CodepointTo(s, i - n)
      invariant forall j :: 0 < j <= i - n ==> RunTo(s, j) != ACCEPT && RunTo(s, j) != REJECT
    {
      state, result := DecodeStep(state, result, buffer[i]);
      if state == ACCEPT {
        FirstCharOf(s, i - n + 1);
        return Tuple(result, i - n + 1, 1);
      } else if state == REJECT {
        RejectCannotComplete(s, i - n + 1);
        return Tuple(UTF_ERROR, 1, 0);
      }
      i := i + 1;
    }
    NoCharAccepted(s);
    PendingCanComplete(s);
    r := Tuple(UTF_ERROR, 0, 0);
  }

  /** Unsupported: the assertion of encode fails, or without it the count is a difference with the null pointer. */
  datatype Written = Failed(error: Error) | Count(n: nat) | Unsupported

  /** The loop that copies the encoded bytes into the buffer. */
  method Store(buffer: array<Byte>, n: nat, local: array<Byte>, count: nat)
    requires n + count <= buffer.Length && count <= local.Length && buffer != local
    modifies buffer
    ensures buffer[..] == old(buffer[..n]) + local[..count] + old(buffer[n + count..])
  {
    var i := n;
    while i < n + count
      invariant n <= i <= n + count
      invariant forall j :: n <= j < i ==> buffer[j] == local[j - n]
      invariant forall j :: 0 <= j < buffer.Length && !(n <= j < i) ==> buffer[j] == old(buffer[j])
    {
      buffer[i] := local[i - n];
      i := i + 1;
    }
  }

  /** The word as the unsigned number that encode is given. */
  function Rune(c: int): nat { c % 0x1_0000_0000 }

  predicate Fits(rune: nat, length: nat, n: int) requires rune <= MAX_4 { 0 <= n < length && n + |Encoded(rune)| <= length }

  /** Stores the encoding of c at index n when it fits, else answers 0 and writes nothing. A negative index is only noticed by
      the first element access, so after the test for room; a word that is no character number, by encode. */
  method SysChar2Byte(c: int, buffer: array?<Byte>, n: int) returns (r: Written)
    modifies buffer
    ensures buffer == null || n >= buffer.Length ==> r == Failed(OutOfRange)
    ensures buffer != null && n < buffer.Length ==> (r == Unsupported <==> Rune(c) > MAX_4)
    ensures buffer != null && Rune(c) <= MAX_4 && n < buffer.Length < n + |Encoded(Rune(c))| ==> r == Count(0)
    ensures buffer != null && Rune(c) <= MAX_4 && n < 0 && n + |Encoded(Rune(c))| <= buffer.Length ==>
      r == Failed(IndexOutOfRange)
    ensures buffer != null && Rune(c) <= MAX_4 && Fits(Rune(c), buffer.Length, n) ==>
      && r == Count(|Encoded(Rune(c))|)
      && buffer[..] == old(buffer[..n]) + Encoded(Rune(c)) + old(buffer[n + |Encoded(Rune(c))|..])
    ensures buffer != null && !(Rune(c) <= MAX_4 && Fits(Rune(c), buffer.Length, n)) ==> buffer[..] == old(buffer[..])
  {
    if buffer == null || n >= buffer.Length { return Failed(OutOfRange); }
    var local := new Byte[4];
    var end := Encode(Rune(c), local, 0);
    if end == Nowhere { return Unsupported; }
    var count := end.end;
    assert local[..count] == Encoded(Rune(c));
    if n + count > buffer.Length { return Count(0); }
    if n < 0 { return Failed(IndexOutOfRange); }
    Store(buffer, n, local, count);
    r := Count(count);
  }

  /** What char2byte stored, byte2char reads back, whatever follows it; only a surrogate is not read back. */
  lemma Byte2CharUndoesChar2Byte(c: nat, rest: seq<Byte>)
    requires c <= MAX_4
    ensures Byte2Char(Encoded(c) + rest) ==
      if Scalar(c) then Tuple(c, |Encoded(c)|, 1) else Tuple(UTF_ERROR, 1, 0)
  {
    var s := Encoded(c) + rest;
    DecodingUndoesEncoding(c, rest);
    if Scalar(c) {
      assert s[..|Encoded(c)|] == Encoded(c);
    } else {
      assert s[0] == 0xED && s[1] >= 0xA0;
      assert RunTo(s, 1) == 60 && RunTo(s, 2) == REJECT;
      RejectCannotComplete(s, 2);
    }
  }
}
