// How the compiler describes which words of a type are pointers (limbo/compiler/types.b), for the machine to follow.
module TypeMaps {
  import opened PointerMaps

  const IBY2WD := 4

  /** What matters of a type: a pointer; an alt statement, which says for each label if its word is one; the table of a case on
      strings; the fields of an adt, a tuple or an exception; anything else. */
  datatype Type =
    | Ptr
    | Alt(isptr: seq<bool>)
    | Casec(nlab: nat)
    | Compound(ids: Decls)
    | Plain

  /** A list of declarations. Module types, functions, constants and links are not `mapped`: they take no room. */
  datatype Decls = End | Decl(mapped: bool, offset: nat, ty: Type, next: Decls)

  // ---- what is a pointer ----

  /** Word k is a pointer, for a type that starts at a byte offset. */
  predicate IsPtr(t: Type, offset: nat, k: nat)
    decreases t
  {
    match t
    case Ptr => k == offset / IBY2WD
    case Alt(isptr) => exists i :: 0 <= i < |isptr| && isptr[i] && k == AltWord(offset, i)
    case Casec(nlab) => exists i :: 0 <= i < nlab && (k == CaseWord(offset, i) || k == CaseWord(offset, i) + 1)
    case Compound(ids) => IsPtrIn(ids, offset, k)
    case Plain => false
  }

  predicate IsPtrIn(d: Decls, start: nat, k: nat)
    decreases d
  {
    d.Decl? && ((d.mapped && IsPtr(d.ty, d.offset + start, k)) || IsPtrIn(d.next, start, k))
  }

  /** Two words in front, then two for each label of an alt. */
  function AltWord(offset: nat, i: nat): nat { offset / IBY2WD + 2 + 2 * i }

  /** One word in front, then three for each label of a case. */
  function CaseWord(offset: nat, i: nat): nat { offset / IBY2WD + 1 + 3 * i }

  // ---- bits ----

  function PowerOf2(k: nat): nat { if k == 0 then 1 else 2 * PowerOf2(k - 1) }

  predicate Bit(n: nat, k: nat) { if k == 0 then n % 2 == 1 else Bit(n / 2, k - 1) }

  function Or(a: nat, b: nat): nat
    decreases a + b
  {
    if a == 0 && b == 0 then 0 else 2 * Or(a / 2, b / 2) + (if a % 2 == 1 || b % 2 == 1 then 1 else 0)
  }

  lemma {:induction false} OrBits(a: nat, b: nat, k: nat)
    ensures Bit(Or(a, b), k) <==> Bit(a, k) || Bit(b, k)
    decreases a + b, k
  {
    if a == 0 && b == 0 {
      NoBits(k);
    } else if k > 0 {
      OrBits(a / 2, b / 2, k - 1);
    }
  }

  lemma {:induction false} NoBits(k: nat)
    ensures !Bit(0, k)
  {
    if k > 0 { NoBits(k - 1); }
  }

  lemma {:induction false} PowerBits(k: nat, j: nat)
    ensures Bit(PowerOf2(k), j) <==> j == k
  {
    if k == 0 {
      if j > 0 { NoBits(j - 1); }
    } else if j > 0 {
      PowerBits(k - 1, j - 1);
    }
  }

  lemma {:induction false} OrIsByte(a: nat, b: nat, n: nat)
    requires a < PowerOf2(n) && b < PowerOf2(n)
    ensures Or(a, b) < PowerOf2(n)
  {
    if n > 0 && (a > 0 || b > 0) { OrIsByte(a / 2, b / 2, n - 1); }
  }

  /** The flags that the machine reads are the bits. */
  lemma FlagIsBit(b: Byte, k: nat)
    requires k < 8
    ensures Flag(b, k) <==> Bit(b, k)
  {
    Halves(b);
    assert Bit(b, 1) == Bit(b / 2, 0);
    assert Bit(b, 2) == Bit(b / 2, 1) == Bit(b / 4, 0);
    assert Bit(b, 3) == Bit(b / 2, 2) == Bit(b / 4, 1) == Bit(b / 8, 0);
    assert Bit(b, 4) == Bit(b / 2, 3) == Bit(b / 4, 2) == Bit(b / 8, 1) == Bit(b / 16, 0);
    BitHalf(b / 16);
    assert Bit(b, 5) == Bit(b / 2, 4) == Bit(b / 4, 3) == Bit(b / 8, 2) == Bit(b / 16, 1);
    assert Bit(b, 6) == Bit(b / 2, 5) == Bit(b / 4, 4) == Bit(b / 8, 3) == Bit(b / 16, 2);
    assert Bit(b, 7) == Bit(b / 2, 6) == Bit(b / 4, 5) == Bit(b / 8, 4) == Bit(b / 16, 3);
  }

  lemma BitHalf(n: nat)
    ensures Bit(n, 1) <==> n / 2 % 2 == 1
    ensures Bit(n, 2) <==> n / 2 / 2 % 2 == 1
    ensures Bit(n, 3) <==> n / 2 / 2 / 2 % 2 == 1
  {
  }

  // ---- the compiler's loops ----

  /** The map has the bit of word k: the highest of a byte is its first word. */
  predicate Says(map8: seq<Byte>, k: nat) { k / 8 < |map8| && Bit(map8[k / 8], 7 - k % 8) }

  /** Every pointer of a declaration is in front of those of the next ones, as offsets are given out. */
  ghost predicate Ordered(t: Type, offset: nat)
    decreases t
  {
    t.Compound? ==> OrderedIn(t.ids, offset)
  }

  ghost predicate OrderedIn(d: Decls, start: nat)
    decreases d
  {
    d.Decl? ==>
      && Ordered(d.ty, d.offset + start) && OrderedIn(d.next, start)
      && forall k: nat :: d.mapped && IsPtr(d.ty, d.offset + start, k) ==> InFront(k, d.next, start)
  }

  ghost predicate InFront(k: nat, d: Decls, start: nat) { forall l: nat :: IsPtrIn(d, start, l) ==> k < l }

  lemma OrSays(map8: seq<Byte>, w: nat, k: nat)
    requires w / 8 < |map8| && Or(map8[w / 8], PowerOf2(7 - w % 8)) < 256
    ensures Says(map8[w / 8 := Or(map8[w / 8], PowerOf2(7 - w % 8))], k) <==> Says(map8, k) || k == w
  {
    if k / 8 == w / 8 {
      OrBits(map8[w / 8], PowerOf2(7 - w % 8), 7 - k % 8);
      PowerBits(7 - w % 8, 7 - k % 8);
    }
  }

  lemma PowerIsByte(k: nat)
    requires k < 8
    ensures PowerOf2(k) < 256 == PowerOf2(8)
  {
    assert PowerOf2(4) == 16 && PowerOf2(8) == 256;
  }

  /** The map's bit of the word at a byte offset is set. */
  method SetPtr(map8: array<Byte>, offset: nat)
    requires offset / IBY2WD / 8 < map8.Length
    modifies map8
    ensures forall k: nat :: Says(map8[..], k) <==> Says(old(map8[..]), k) || k == offset / IBY2WD
  {
    var bit := offset / IBY2WD % 8;
    var i := offset / (8 * IBY2WD);
    ghost var was := map8[..];
    PowerIsByte(7 - bit);
    OrIsByte(map8[i], PowerOf2(7 - bit), 8);
    map8[i] := Or(map8[i], PowerOf2(7 - bit));
    assert i == offset / IBY2WD / 8 && map8[..] == was[i := map8[i]];
    forall k: nat ensures Says(map8[..], k) <==> Says(was, k) || k == offset / IBY2WD { OrSays(was, offset / IBY2WD, k); }
  }

  /** The map of an alt's labels. */
  method AltMap(isptr: seq<bool>, map8: array<Byte>, start: nat) returns (m: int)
    requires forall k: nat :: IsPtr(Alt(isptr), start, k) ==> k / 8 < map8.Length
    modifies map8
    ensures forall k: nat :: Says(map8[..], k) <==> Says(old(map8[..]), k) || IsPtr(Alt(isptr), start, k)
    ensures IsLast(Alt(isptr), start, m)
  {
    hide IsPtr, Says;
    NoLabels(start);
    assert isptr[..0] == [];
    m := -1;
    var offset := start + IBY2WD * 2;
    var i := 0;
    while i < |isptr|
      invariant 0 <= i <= |isptr| && offset == start + 8 + 8 * i
      invariant forall k: nat :: Says(map8[..], k) <==> Says(old(map8[..]), k) || IsPtr(Alt(isptr[..i]), start, k)
      invariant IsLast(Alt(isptr[..i]), start, m)
    {
      assert offset / IBY2WD == AltWord(start, i);
      AltStep(isptr, i, start);
      AltLast(isptr, i, start, m);
      if isptr[i] {
        LabelIsPtr(isptr, i, start);
        SetPtr(map8, offset);
        m := offset;
      }
      offset := offset + 2 * IBY2WD;
      i := i + 1;
    }
    assert isptr[..i] == isptr;
  }

  lemma LabelIsPtr(isptr: seq<bool>, i: nat, start: nat)
    requires i < |isptr| && isptr[i]
    ensures IsPtr(Alt(isptr), start, AltWord(start, i))
  {
  }

  lemma NoLabels(start: nat)
    ensures forall k: nat :: !IsPtr(Alt([]), start, k) && !IsPtr(Casec(0), start, k)
  {
  }

  lemma AltStep(isptr: seq<bool>, i: nat, start: nat)
    requires i < |isptr|
    ensures forall k: nat ::
      IsPtr(Alt(isptr[..i + 1]), start, k) <==> IsPtr(Alt(isptr[..i]), start, k) || (isptr[i] && k == AltWord(start, i))
    ensures forall k: nat :: IsPtr(Alt(isptr[..i]), start, k) ==> k < AltWord(start, i)
  {
    var now, next := isptr[..i], isptr[..i + 1];
    assert next[i] == isptr[i];
    forall k: nat ensures IsPtr(Alt(next), start, k) <==> IsPtr(Alt(now), start, k) || (isptr[i] && k == AltWord(start, i)) {
      if IsPtr(Alt(next), start, k) {
        var j :| 0 <= j < |next| && next[j] && k == AltWord(start, j);
        if j < i { assert now[j]; }
      }
      if IsPtr(Alt(now), start, k) {
        var j :| 0 <= j < |now| && now[j] && k == AltWord(start, j);
        assert next[j];
      }
    }
  }

  /** One more label: the last pointer is the new one, or the same as before. */
  lemma AltLast(isptr: seq<bool>, i: nat, start: nat, m: int)
    requires i < |isptr| && IsLast(Alt(isptr[..i]), start, m)
    ensures IsLast(Alt(isptr[..i + 1]), start, if isptr[i] then start + 8 + 8 * i else m)
  {
    AltStep(isptr, i, start);
    assert (start + 8 + 8 * i) / IBY2WD == AltWord(start, i);
    var now, next := Alt(isptr[..i]), Alt(isptr[..i + 1]);
    if isptr[i] {
      assert IsPtr(next, start, AltWord(start, i));
    } else {
      forall k: nat ensures IsPtr(next, start, k) <==> IsPtr(now, start, k) {}
    }
  }

  /** One more label: the last pointer is its second one. */
  lemma CaseLast(i: nat, start: nat)
    ensures IsLast(Casec(i + 1), start, start + 8 + 12 * i)
  {
    CaseStep(i + 1, i, start);
    assert (start + 8 + 12 * i) / IBY2WD == CaseWord(start, i) + 1;
    hide IsPtr, Ordered;
  }

  /** The offset m is that of the last pointer, if there are any; it is the last one written, so this takes offsets in order. */
  ghost predicate IsLast(t: Type, offset: nat, m: int) {
    if m < 0 then forall k: nat :: !IsPtr(t, offset, k)
    else IsPtr(t, offset, m / IBY2WD) && (Ordered(t, offset) ==> forall k: nat :: IsPtr(t, offset, k) ==> k <= m / IBY2WD)
  }

  /** The map of the table of a case on strings. */
  method CasecMap(nlab: nat, map8: array<Byte>, start: nat) returns (m: int)
    requires forall k: nat :: IsPtr(Casec(nlab), start, k) ==> k / 8 < map8.Length
    modifies map8
    ensures forall k: nat :: Says(map8[..], k) <==> Says(old(map8[..]), k) || IsPtr(Casec(nlab), start, k)
    ensures IsLast(Casec(nlab), start, m)
  {
    hide IsPtr, Says;
    NoLabels(start);
    m := -1;
    var offset := start + IBY2WD;
    var i := 0;
    while i < nlab
      invariant 0 <= i <= nlab && offset == start + 4 + 12 * i
      invariant forall k: nat :: Says(map8[..], k) <==> Says(old(map8[..]), k) || IsPtr(Casec(i), start, k)
      invariant IsLast(Casec(i), start, m)
    {
      assert offset / IBY2WD == CaseWord(start, i) && (offset + IBY2WD) / IBY2WD == CaseWord(start, i) + 1;
      CaseStep(nlab, i, start);
      CaseLast(i, start);
      SetPtr(map8, offset);
      offset := offset + IBY2WD;
      SetPtr(map8, offset);
      m := offset;
      offset := offset + 2 * IBY2WD;
      i := i + 1;
    }
  }

  lemma CaseStep(nlab: nat, i: nat, start: nat)
    requires i < nlab
    ensures var w := CaseWord(start, i);
            && IsPtr(Casec(nlab), start, w) && IsPtr(Casec(nlab), start, w + 1)
            && (forall k: nat :: IsPtr(Casec(i + 1), start, k) <==> IsPtr(Casec(i), start, k) || k == w || k == w + 1)
            && (forall k: nat :: IsPtr(Casec(i), start, k) ==> k < w)
  {
  }

  /** tdescmap: exactly the bits of the type's pointers are set, and the answer is where the last one is. */
  method TDescMap(t: Type, map8: array<Byte>, offset: nat) returns (m: int)
    requires forall k: nat :: IsPtr(t, offset, k) ==> k / 8 < map8.Length
    modifies map8
    ensures forall k: nat :: Says(map8[..], k) <==> Says(old(map8[..]), k) || IsPtr(t, offset, k)
    ensures IsLast(t, offset, m)
    decreases t
  {
    match t {
      case Alt(isptr) => m := AltMap(isptr, map8, offset);
      case Casec(nlab) => m := CasecMap(nlab, map8, offset);
      case Ptr =>
        assert IsPtr(t, offset, offset / IBY2WD);
        SetPtr(map8, offset);
        m := offset;
      case Compound(ids) =>
        forall k: nat ensures IsPtrIn(ids, offset, k) <==> IsPtr(t, offset, k) {}
        m := DescMap(ids, map8, offset);
      case Plain => m := -1;
    }
  }

  ghost predicate IsLastIn(d: Decls, start: nat, m: int) {
    if m < 0 then forall k: nat :: !IsPtrIn(d, start, k)
    else IsPtrIn(d, start, m / IBY2WD) && (OrderedIn(d, start) ==> forall k: nat :: IsPtrIn(d, start, k) ==> k <= m / IBY2WD)
  }

  /** What is left of the list, and what has been done: the bits of the declarations passed, the last pointer among them. */
  ghost predicate Partly(was: seq<Byte>, now: seq<Byte>, decls: Decls, d: Decls, start: nat, last: int) {
    && (forall k: nat :: IsPtrIn(d, start, k) ==> IsPtrIn(decls, start, k))
    && (forall k: nat :: Says(now, k) ==> Says(was, k) || IsPtrIn(decls, start, k))
    && (forall k: nat :: IsPtrIn(decls, start, k) ==> Says(now, k) || IsPtrIn(d, start, k))
    && (forall k: nat :: Says(was, k) ==> Says(now, k))
    && (if last < 0 then forall k: nat :: IsPtrIn(decls, start, k) ==> IsPtrIn(d, start, k)
        else
          && IsPtrIn(decls, start, last / IBY2WD)
          && (OrderedIn(decls, start) ==>
                && (forall k: nat :: IsPtrIn(decls, start, k) ==> k <= last / IBY2WD || IsPtrIn(d, start, k))
                && (forall k: nat :: IsPtrIn(d, start, k) ==> last / IBY2WD < k)))
    && (OrderedIn(decls, start) ==> OrderedIn(d, start))
  }

  lemma UnmappedStep(was: seq<Byte>, now: seq<Byte>, decls: Decls, d: Decls, start: nat, last: int)
    requires d.Decl? && !d.mapped && Partly(was, now, decls, d, start, last)
    ensures Partly(was, now, decls, d.next, start, last)
  {
    forall k: nat ensures IsPtrIn(d.next, start, k) <==> IsPtrIn(d, start, k) {}
  }

  lemma MappedStep(was: seq<Byte>, now: seq<Byte>, now': seq<Byte>, decls: Decls, d: Decls, start: nat, last: int, m: int)
    requires d.Decl? && d.mapped && Partly(was, now, decls, d, start, last) && IsLast(d.ty, d.offset + start, m)
    requires forall k: nat :: Says(now', k) <==> Says(now, k) || IsPtr(d.ty, d.offset + start, k)
    ensures Partly(was, now', decls, d.next, start, if m >= 0 then m else last)
  {
    var offset := d.offset + start;
    forall k: nat ensures IsPtrIn(d, start, k) <==> IsPtr(d.ty, offset, k) || IsPtrIn(d.next, start, k) {}
    forall k: nat ensures IsPtr(d.ty, offset, k) ==> IsPtrIn(decls, start, k) {}
    if OrderedIn(decls, start) {
      assert OrderedIn(d.next, start);
      if m >= 0 {
        assert InFront(m / IBY2WD, d.next, start);
        if last >= 0 { assert last / IBY2WD < m / IBY2WD; }
      }
    }
  }

  /** descmap: the same for a list of declarations. */
  method DescMap(decls: Decls, map8: array<Byte>, start: nat) returns (last: int)
    requires forall k: nat :: IsPtrIn(decls, start, k) ==> k / 8 < map8.Length
    modifies map8
    ensures forall k: nat :: Says(map8[..], k) <==> Says(old(map8[..]), k) || IsPtrIn(decls, start, k)
    ensures IsLastIn(decls, start, last)
    decreases decls
  {
    hide Says;
    last := -1;
    var d := decls;
    while d.Decl?
      invariant d == decls || d < decls
      invariant Partly(old(map8[..]), map8[..], decls, d, start, last)
      decreases d
    {
      if d.mapped {
        ghost var now := map8[..];
        forall k: nat | IsPtr(d.ty, d.offset + start, k) ensures k / 8 < map8.Length { assert IsPtrIn(d, start, k); }
        var m := TDescMap(d.ty, map8, d.offset + start);
        MappedStep(old(map8[..]), now, map8[..], decls, d, start, last, m);
        if m >= 0 { last := m; }
      } else {
        UnmappedStep(old(map8[..]), map8[..], decls, d, start, last);
      }
      d := d.next;
    }
  }

  // ---- what the machine makes of it ----

  /** The descriptor's pointers are those of the type. */
  ghost predicate Describes(d: TypeDesc, t: Type) { forall k: nat :: IsOffsetPointer(d, k) <==> IsPtr(t, 0, k) }

  /** The first bytes of a map, as the machine reads them. */
  lemma SaysOffset(map8: seq<Byte>, n: nat, size: nat, k: nat)
    requires n <= |map8| && (size == 0 ==> map8 == [])
    ensures IsOffsetPointer(TypeDesc(size, map8[..n]), k) <==> Says(map8, k) && k / 8 < n
  {
    if k / 8 < n {
      FlagIsBit(map8[k / 8], 7 - k % 8);
      NoBits(7 - k % 8);
    }
  }

  lemma NothingSaid(map8: seq<Byte>, k: nat)
    requires forall i :: 0 <= i < |map8| ==> map8[i] == 0
    ensures !Says(map8, k)
  {
    NoBits(7 - k % 8);
  }

  /** mktdesc: the descriptor of a type, cut behind the byte of the last pointer. It names only pointers of the type, and all
      of them when offsets were given out in order. */
  method MkTDesc(t: Type, size: nat) returns (d: TypeDesc)
    requires forall k: nat :: IsPtr(t, 0, k) ==> (k + 1) * IBY2WD <= size
    ensures d.size == size && |d.pointer_map| <= (size + 31) / 32
    ensures forall k: nat :: IsOffsetPointer(d, k) ==> IsPtr(t, 0, k)
    ensures Ordered(t, 0) ==> Describes(d, t)
  {
    var pmap := new Byte[(size + 8 * IBY2WD - 1) / (8 * IBY2WD)](_ => 0);
    forall k: nat ensures !Says(pmap[..], k) { NothingSaid(pmap[..], k); }
    var n := TDescMap(t, pmap, 0);
    var nmap := if n >= 0 then n / (8 * IBY2WD) + 1 else 0;
    d := TypeDesc(size, pmap[..nmap]);
    forall k: nat ensures IsOffsetPointer(d, k) <==> Says(pmap[..], k) && k / 8 < nmap { SaysOffset(pmap[..], nmap, size, k); }
  }

  /** What the compiler describes is what the machine enumerates: exactly the pointers of the type that are not nil, each once, in
      order. */
  method DescribeAndEnumerate(t: Type, size: nat, memory: seq<nat>) returns (fields: seq<nat>)
    requires forall k: nat :: IsPtr(t, 0, k) ==> (k + 1) * IBY2WD <= size
    requires Ordered(t, 0) && size <= |memory| * IBY2WD
    ensures forall k: nat :: k in fields <==> IsPtr(t, 0, k) && memory[k] != NIL
    ensures forall i, j :: 0 <= i < j < |fields| ==> fields[i] < fields[j]
  {
    var d := MkTDesc(t, size);
    fields := EnumPointerFields(d, memory);
    FieldsAreAll(d, memory);
  }
}
