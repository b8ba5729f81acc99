// Pointer maps of types: which words of an allocation are pointers (src/include/vm_memory.hpp, src/vm/vm_memory.cpp).
module PointerMaps {

  type Byte = b: int | 0 <= b < 256

  /** A pointer is the number of an allocation, nil is zero. */
  type Pointer = nat

  const NIL: Pointer := 0

  /** One bit a word, the highest bit of a byte for the first of its eight words. */
  datatype TypeDesc = TypeDesc(size: nat, pointer_map: seq<Byte>)

  function Flag(b: Byte, bit: nat): bool
    requires bit < 8
  {
    var i: int := b;
    match bit
    case 7 => i / 128 % 2 == 1
    case 6 => i / 64 % 2 == 1
    case 5 => i / 32 % 2 == 1
    case 4 => i / 16 % 2 == 1
    case 3 => i / 8 % 2 == 1
    case 2 => i / 4 % 2 == 1
    case 1 => i / 2 % 2 == 1
    case _ => i % 2 == 1
  }

  /** The number with the flags as its binary digits, from digit k on. */
  function Digits(b: Byte, k: nat): nat
    requires k <= 8
    decreases 8 - k
  {
    if k == 8 then 0 else 2 * Digits(b, k + 1) + (if Flag(b, k) then 1 else 0)
  }

  /** The flags of a byte are its binary digits. */
  lemma FlagsAreDigits(b: Byte)
    ensures Digits(b, 0) == b
  {
    Halves(b);
    assert Digits(b, 7) == b / 128;
    assert Digits(b, 6) == b / 64;
    assert Digits(b, 5) == b / 32;
    assert Digits(b, 4) == b / 16;
    assert Digits(b, 3) == b / 8;
    assert Digits(b, 2) == b / 4;
    assert Digits(b, 1) == b / 2;
  }

  lemma Halves(b: Byte)
    ensures b / 4 == b / 2 / 2 && b / 8 == b / 4 / 2 && b / 16 == b / 8 / 2 && b / 32 == b / 16 / 2
    ensures b / 64 == b / 32 / 2 && b / 128 == b / 64 / 2 && b / 128 < 2
  {
  }

  /** is_offset_pointer. */
  predicate IsOffsetPointer(t: TypeDesc, offset: nat) {
    t.size != 0 && offset / 8 < |t.pointer_map| && t.pointer_map[offset / 8] != 0 && Flag(t.pointer_map[offset / 8], 7 - offset % 8)
  }

  /** The memory covers every word that the type calls a pointer. */
  ghost predicate Covers(t: TypeDesc, memory: seq<nat>) {
    (t.size == 0 ==> t.pointer_map == []) && forall k: nat :: IsOffsetPointer(t, k) ==> k < |memory|
  }

  predicate IsField(t: TypeDesc, memory: seq<nat>, k: nat) { IsOffsetPointer(t, k) && k < |memory| && memory[k] != NIL }

  /** The non-nil pointer fields among the first n words, in order. */
  function PointerFields(t: TypeDesc, memory: seq<nat>, n: nat): seq<nat> {
    if n == 0 then [] else PointerFields(t, memory, n - 1) + (if IsField(t, memory, n - 1) then [n - 1] else [])
  }

  function Fields(t: TypeDesc, memory: seq<nat>): seq<nat> { PointerFields(t, memory, 8 * |t.pointer_map|) }

  lemma {:induction false} FieldsBelow(t: TypeDesc, memory: seq<nat>, n: nat)
    ensures forall k :: k in PointerFields(t, memory, n) <==> 0 <= k < n && IsField(t, memory, k)
    ensures forall i, j :: 0 <= i < j < |PointerFields(t, memory, n)| ==> PointerFields(t, memory, n)[i] < PointerFields(t, memory, n)[j]
  {
    hide IsField;
    if n > 0 {
      FieldsBelow(t, memory, n - 1);
      var below, last := PointerFields(t, memory, n - 1), if IsField(t, memory, n - 1) then [n - 1] else [];
      assert forall k :: k in below + last <==> k in below || k in last;
      assert forall i :: 0 <= i < |below| ==> below[i] in below;
    }
  }

  /** The enumeration is exactly the words that is_offset_pointer names and that are not nil, each once, in order. */
  lemma FieldsAreAll(t: TypeDesc, memory: seq<nat>)
    ensures forall k: nat :: k in Fields(t, memory) <==> IsField(t, memory, k)
    ensures forall i, j :: 0 <= i < j < |Fields(t, memory)| ==> Fields(t, memory)[i] < Fields(t, memory)[j]
  {
    FieldsBelow(t, memory, 8 * |t.pointer_map|);
    forall k: nat | IsField(t, memory, k) ensures k < 8 * |t.pointer_map| { assert k / 8 < |t.pointer_map|; }
  }

  /** enum_pointer_fields: byte by byte, skipping empty ones, and bit by bit from the highest. */
  method EnumPointerFields(t: TypeDesc, memory: seq<nat>) returns (fields: seq<nat>)
    requires Covers(t, memory)
    ensures fields == Fields(t, memory)
  {
    hide IsOffsetPointer, Flag;
    fields := [];
    var i := 0;
    while i < |t.pointer_map|
      invariant 0 <= i <= |t.pointer_map| && fields == PointerFields(t, memory, 8 * i)
    {
      var words8 := t.pointer_map[i];
      if words8 == 0 {
        EmptyByte(t, memory, i, 8);
        i := i + 1;
        continue;
      }
      var bit := 8;
      while bit > 0
        invariant 0 <= bit <= 8 && fields == PointerFields(t, memory, 8 * i + (8 - bit))
      {
        var k := 8 * i + (8 - bit);
        bit := bit - 1;
        FlagOfOffset(t, i, bit);
        if Flag(words8, bit) {
          if memory[k] != NIL { fields := fields + [k]; }
        }
      }
      i := i + 1;
    }
  }

  lemma FlagOfOffset(t: TypeDesc, i: nat, bit: nat)
    requires i < |t.pointer_map| && t.pointer_map[i] != 0 && bit < 8 && t.size != 0
    ensures IsOffsetPointer(t, 8 * i + (7 - bit)) <==> Flag(t.pointer_map[i], bit)
  {
    var k := 8 * i + (7 - bit);
    assert k / 8 == i && k % 8 == 7 - bit;
  }

  lemma {:induction false} EmptyByte(t: TypeDesc, memory: seq<nat>, i: nat, n: nat)
    requires i < |t.pointer_map| && t.pointer_map[i] == 0 && n <= 8
    ensures PointerFields(t, memory, 8 * i + n) == PointerFields(t, memory, 8 * i)
  {
    if n > 0 {
      EmptyByte(t, memory, i, n - 1);
      assert (8 * i + n - 1) / 8 == i;
    }
  }
}
