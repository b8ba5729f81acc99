// The data section: initial values as the compiler coalesces and writes them (limbo/compiler/dis.b) and the memory
// image that the loader builds from what it reads (src/vm/module_reader.cpp).
module DataSection {
  import opened DisFormat

  // ---- data items ----

  datatype Kind = Bytes1 | Words4 | Bigs8 | Reals8

  function Size(kind: Kind): nat { match kind case Bytes1 => 1 case Words4 => 4 case Bigs8 => 8 case Reals8 => 8 }

  predicate Int64(x: int) { -0x8000_0000_0000_0000 <= x < 0x8000_0000_0000_0000 }

  /** The values that a cell holds; reals are 64-bit patterns. */
  predicate InKind(kind: Kind, v: int) {
    match kind case Bytes1 => 0 <= v < 256 case Words4 => Int32(v) case Bigs8 => Int64(v) case Reals8 => Int64(v)
  }

  datatype Item =
    | Run(kind: Kind, offset: int, cells: seq<int>)     // DEFB, DEFW, DEFL, DEFF
    | Text(offset: int, text: Bytes)                    // DEFS
    | NewArray(offset: int, element: int, length: int)  // DEFA
    | Enter(offset: int, index: int)                    // DIND
    | Leave(offset: int)                                // DAPOP

  // ---- the memory image ----

  datatype Value = Num(kind: Kind, v: int) | Str(text: Bytes) | Ptr(obj: nat)

  datatype Obj = Obj(element: int, length: int, cells: map<int, Value>)

  /** All objects, the module data first; where addresses count from; the addresses to restore. */
  datatype Image = Image(objs: seq<Obj>, base: Base, stack: seq<Base>)

  datatype Base = Base(obj: nat, start: int)

  const STACK_SIZE := 4

  /** The size of an array's own descriptor, by which the loader multiplies an index (not by that of an element). */
  const ARRAY_SIZE: int := 0

  function Store(m: Image, offset: int, v: Value): Image {
    if m.base.obj < |m.objs| then
      var o := m.objs[m.base.obj];
      m.(objs := m.objs[m.base.obj := o.(cells := o.cells[m.base.start + offset := v])])
    else m
  }

  function Lookup(m: Image, offset: int): Option<Value> {
    if m.base.obj < |m.objs| && m.base.start + offset in m.objs[m.base.obj].cells
    then Some(m.objs[m.base.obj].cells[m.base.start + offset]) else None
  }

  /** Cell after cell, each at its own address. */
  function StoreRun(m: Image, kind: Kind, offset: int, cells: seq<int>): Image
    decreases |cells|
  {
    if cells == [] then m else StoreRun(Store(m, offset, Num(kind, cells[0])), kind, offset + Size(kind), cells[1..])
  }

  function Apply(m: Image, i: Item): Option<Image> {
    match i
    case Run(kind, offset, cells) => Some(StoreRun(m, kind, offset, cells))
    case Text(offset, text) => Some(Store(m, offset, Str(text)))
    case NewArray(offset, element, length) =>
      if length < 0 then None
      else Some(Store(m.(objs := m.objs + [Obj(element, length, map[])]), offset, Ptr(|m.objs|)))
    case Enter(offset, index) =>
      (match Lookup(m, offset)
       case Some(Ptr(obj)) =>
         if obj < |m.objs| && 0 <= index < m.objs[obj].length && |m.stack| < STACK_SIZE
         then Some(m.(base := Base(obj, index * ARRAY_SIZE), stack := m.stack + [m.base])) else None
       case _ => None)
    case Leave(_) =>
      if m.stack == [] then None
      else Some(m.(base := m.stack[|m.stack| - 1], stack := m.stack[..|m.stack| - 1]))
  }

  function ApplyAll(m: Image, items: seq<Item>): Option<Image>
    decreases |items|
  {
    if items == [] then Some(m)
    else match Apply(m, items[0]) case Some(n) => ApplyAll(n, items[1..]) case None => None
  }

  // ---- initial values and what they mean ----

  /** A value of the source program; the parts of a structure and of an array come with their offsets. */
  datatype Node =
    | Datum(kind: Kind, v: int)
    | Raw(bytes: Bytes)
    | Literal(text: Bytes)
    | Structure(parts: Parts)
    | ArrayOf(element: int, length: int, init: Option<Parts>)
    | Nothing

  datatype Parts = End | Part(offset: int, node: Node, rest: Parts)

  /** Every initial value stored by itself, in order; an array is allocated and its elements stored inside it. */
  function Stored(m: Image, offset: int, n: Node): Option<Image>
    decreases n
  {
    match n
    case Datum(kind, v) => Some(Store(m, offset, Num(kind, v)))
    case Raw(bytes) => Some(StoreRun(m, Bytes1, offset, bytes))
    case Literal(text) => Some(Store(m, offset, Str(text)))
    case Structure(parts) => StoredParts(m, offset, parts)
    case ArrayOf(element, length, init) =>
      (match Apply(m, NewArray(offset, element, length))
       case None => None
       case Some(a) =>
         if init == None then Some(a)
         else match Apply(a, Enter(offset, 0))
           case None => None
           case Some(b) =>
             match StoredParts(b, 0, init.value)
             case None => None
             case Some(c) => Apply(c, Leave(0)))
    case Nothing => Some(m)
  }

  function StoredParts(m: Image, offset: int, parts: Parts): Option<Image>
    decreases parts
  {
    match parts
    case End => Some(m)
    case Part(o, node, rest) =>
      match Stored(m, offset + o, node)
      case Some(n) => StoredParts(n, offset, rest)
      case None => None
  }

  // ---- coalescing keeps the meaning ----

  lemma {:induction false} StoreRunAppend(m: Image, kind: Kind, offset: int, s: seq<int>, t: seq<int>)
    ensures StoreRun(m, kind, offset, s + t) ==
            StoreRun(StoreRun(m, kind, offset, s), kind, offset + |s| * Size(kind), t)
    decreases |s|
  {
    if s == [] {
      assert s + t == t;
    } else {
      assert (s + t)[1..] == s[1..] + t;
      StoreRunAppend(Store(m, offset, Num(kind, s[0])), kind, offset + Size(kind), s[1..], t);
      assert offset + Size(kind) + |s[1..]| * Size(kind) == offset + |s| * Size(kind);
    }
  }

  lemma {:induction false} ApplyAllAppend(m: Image, s: seq<Item>, t: seq<Item>)
    ensures ApplyAll(m, s + t) == match ApplyAll(m, s) case Some(n) => ApplyAll(n, t) case None => None
    decreases |s|
  {
    if s == [] {
      assert s + t == t;
    } else {
      assert (s + t)[1..] == s[1..] + t;
      match Apply(m, s[0]) case Some(n) => ApplyAllAppend(n, s[1..], t); case None =>
    }
  }

  lemma ApplyOne(m: Image, i: Item)
    ensures ApplyAll(m, [i]) == Apply(m, i)
  {
    match Apply(m, i) case Some(n) => assert ApplyAll(n, [i][1..]) == Some(n); case None =>
  }

  /** Two adjoining runs are one. */
  lemma RunsJoin(m: Image, kind: Kind, offset: int, s: seq<int>, t: seq<int>)
    ensures Apply(m, Run(kind, offset, s + t)) ==
            Apply(Apply(m, Run(kind, offset, s)).value, Run(kind, offset + |s| * Size(kind), t))
  {
    StoreRunAppend(m, kind, offset, s, t);
  }

  // ---- items as bytes ----

  const DEFB := 1
  const DEFW := 2
  const DEFS := 3
  const DEFF := 4
  const DEFA := 5
  const DIND := 6
  const DAPOP := 7
  const DEFL := 8
  const DMAX := 16

  function CodeOf(kind: Kind): int { match kind case Bytes1 => DEFB case Words4 => DEFW case Bigs8 => DEFL case Reals8 => DEFF }

  /** The count goes in the low half of the code when it fits there and is not zero. */
  function EncCode(code: int, n: int): Bytes
    requires 0 < code < 16 && 0 <= n < 0x2000_0000
  {
    if 0 < n < DMAX then [code * 16 + n] else [code * 16] + EncOperand(n)
  }

  function EncCell(kind: Kind, v: int): (b: Bytes)
    ensures |b| == Size(kind)
  {
    match kind
    case Bytes1 => [v % 256]
    case Words4 => EncWord(v)
    case Bigs8 => EncWord(v / 0x1_0000_0000) + EncWord(v)
    case Reals8 => EncWord(v / 0x1_0000_0000) + EncWord(v)
  }

  function EncCells(kind: Kind, cells: seq<int>): Bytes {
    if cells == [] then [] else EncCell(kind, cells[0]) + EncCells(kind, cells[1..])
  }

  /** What the format can hold. */
  predicate Writable(i: Item) {
    && IsOperand(i.offset)
    && match i
       case Run(kind, _, cells) => |cells| < 0x2000_0000 && forall k :: 0 <= k < |cells| ==> InKind(kind, cells[k])
       case Text(_, text) => |text| < 0x2000_0000
       case NewArray(_, element, length) => Int32(element) && Int32(length)
       case Enter(_, index) => Int32(index)
       case Leave(_) => true
  }

  function EncItem(i: Item): Bytes
    requires Writable(i)
  {
    match i
    case Run(kind, offset, cells) => EncCode(CodeOf(kind), |cells|) + EncOperand(offset) + EncCells(kind, cells)
    case Text(offset, text) => EncCode(DEFS, |text|) + EncOperand(offset) + text
    case NewArray(offset, element, length) => EncCode(DEFA, 1) + EncOperand(offset) + EncWord(element) + EncWord(length)
    case Enter(offset, index) => EncCode(DIND, 1) + EncOperand(offset) + EncWord(index)
    case Leave(offset) => EncCode(DAPOP, 1) + EncOperand(offset)
  }

  ghost predicate AllWritable(items: seq<Item>) { forall k :: 0 <= k < |items| ==> Writable(items[k]) }

  ghost function EncItems(items: seq<Item>): Bytes
    requires AllWritable(items)
  {
    if items == [] then [] else EncItem(items[0]) + EncItems(items[1..])
  }

  /** The first bytes of items, as the format numbers them. */
  lemma ItemBytes()
    ensures EncCode(CodeOf(Bytes1), 1) == [0x11] && EncCode(CodeOf(Words4), 2) == [0x22]
    ensures EncCode(CodeOf(Reals8), 15) == [0x4F] && EncCode(CodeOf(Bigs8), 1) == [0x81]
    ensures EncCode(CodeOf(Bytes1), 16) == [0x10, 0x10] && EncCode(DEFS, 0) == [0x30, 0x00]
    ensures EncCode(DEFS, 5) == [0x35] && EncCode(DEFA, 1) == [0x51] && EncCode(DIND, 1) == [0x61] && EncCode(DAPOP, 1) == [0x71]
  {
  }

  // ---- parsing items ----

  datatype Head = Head(code: int, count: nat, offset: int)

  /** Code, count (as an unsigned number) and offset. */
  function ParseHead(s: Bytes): (r: Parse<Head>)
    requires s != []
    ensures r.Ok? ==> |r.rest| < |s|
  {
    var c: int := s[0];
    match (if c % 16 == 0 then ParseOperand(s[1..]) else Ok(c % 16, s[1..]))
    case Fail => Fail
    case Ok(n, t) =>
      match ParseOperand(t)
      case Fail => Fail
      case Ok(offset, rest) => Ok(Head(c / 16, if n < 0 then n + 0x1_0000_0000 else n, offset), rest)
  }

  function ParseCell(kind: Kind, s: Bytes): (r: Parse<int>)
    ensures r.Ok? ==> |r.rest| <= |s|
  {
    match kind
    case Bytes1 => if s == [] then Fail else Ok(s[0], s[1..])
    case Words4 => ParseWord(s)
    case Bigs8 => ParseLong(s)
    case Reals8 => ParseLong(s)
  }

  function ParseLong(s: Bytes): Parse<int> {
    match ParseWord(s)
    case Fail => Fail
    case Ok(first, t) =>
      match ParseWord(t)
      case Fail => Fail
      case Ok(second, rest) => Ok(first * 0x1_0000_0000 + second % 0x1_0000_0000, rest)
  }

  function ParseCells(kind: Kind, n: nat, s: Bytes): (r: Parse<seq<int>>)
    ensures r.Ok? ==> |r.rest| <= |s|
  {
    if n == 0 then Ok([], s)
    else match ParseCell(kind, s)
      case Fail => Fail
      case Ok(v, t) => match ParseCells(kind, n - 1, t) case Ok(vs, rest) => Ok([v] + vs, rest) case Fail => Fail
  }

  function ParseBody(h: Head, s: Bytes): (r: Parse<Item>)
    ensures r.Ok? ==> |r.rest| <= |s|
  {
    if h.code == DEFB then ParsedRun(Bytes1, h, s)
    else if h.code == DEFW then ParsedRun(Words4, h, s)
    else if h.code == DEFS then
      match ParseBytes(s, h.count) case Ok(text, rest) => Ok(Text(h.offset, text), rest) case Fail => Fail
    else if h.code == DEFF then ParsedRun(Reals8, h, s)
    else if h.code == DEFA then
      match ParseWord(s)
      case Fail => Fail
      case Ok(element, t) =>
        match ParseWord(t) case Ok(length, rest) => Ok(NewArray(h.offset, element, length), rest) case Fail => Fail
    else if h.code == DIND then match ParseWord(s) case Ok(index, rest) => Ok(Enter(h.offset, index), rest) case Fail => Fail
    else if h.code == DAPOP then Ok(Leave(h.offset), s)
    else if h.code == DEFL then ParsedRun(Bigs8, h, s)
    else Fail
  }

  function ParsedRun(kind: Kind, h: Head, s: Bytes): (r: Parse<Item>)
    ensures r.Ok? ==> |r.rest| <= |s|
  {
    match ParseCells(kind, h.count, s) case Ok(cells, rest) => Ok(Run(kind, h.offset, cells), rest) case Fail => Fail
  }

  function ParseItem(s: Bytes): (r: Parse<Item>)
    requires s != []
    ensures r.Ok? ==> |r.rest| < |s|
  {
    match ParseHead(s) case Ok(h, t) => ParseBody(h, t) case Fail => Fail
  }

  /** The loader: item after item into memory, until the code zero. */
  function ReadItems(s: Bytes, m: Image): Parse<Image>
    decreases |s|
  {
    if s == [] then Fail
    else if s[0] == 0 then Ok(m, s[1..])
    else match ParseItem(s)
      case Fail => Fail
      case Ok(i, rest) => match Apply(m, i) case Some(n) => ReadItems(rest, n) case None => Fail
  }

  // ---- reading undoes writing ----

  lemma HeadRoundTrip(code: int, n: int, offset: int, rest: Bytes)
    requires 0 < code < 16 && 0 <= n < 0x2000_0000 && IsOperand(offset)
    ensures var s := EncCode(code, n) + EncOperand(offset) + rest;
            s != [] && s[0] != 0 && ParseHead(s) == Ok(Head(code, n, offset), rest)
  {
    hide EncOperand, ParseOperand;
    var t := EncOperand(offset) + rest;
    var s := EncCode(code, n) + EncOperand(offset) + rest;
    OperandRoundTrip(offset, rest);
    if 0 < n < DMAX {
      assert s == [code * 16 + n] + t && s[1..] == t;
    } else {
      assert s == [code * 16] + (EncOperand(n) + t) && s[1..] == EncOperand(n) + t;
      OperandRoundTrip(n, t);
    }
  }

  lemma CellRoundTrip(kind: Kind, v: int, rest: Bytes)
    requires InKind(kind, v)
    ensures ParseCell(kind, EncCell(kind, v) + rest) == Ok(v, rest)
  {
    match kind
    case Bytes1 =>
      assert (EncCell(kind, v) + rest)[1..] == rest;
    case Words4 =>
      WordRoundTrip(v, rest);
    case Bigs8 =>
      LongRoundTrip(v, rest);
    case Reals8 =>
      LongRoundTrip(v, rest);
  }

  lemma LongRoundTrip(v: int, rest: Bytes)
    requires Int64(v)
    ensures ParseLong(EncWord(v / 0x1_0000_0000) + EncWord(v) + rest) == Ok(v, rest)
  {
    hide EncWord, ParseWord;
    var low := (v + 0x8000_0000) % 0x1_0000_0000 - 0x8000_0000;
    SameWord(v, low);
    assert EncWord(v / 0x1_0000_0000) + EncWord(v) + rest == EncWord(v / 0x1_0000_0000) + (EncWord(low) + rest);
    WordRoundTrip(v / 0x1_0000_0000, EncWord(low) + rest);
    WordRoundTrip(low, rest);
    assert low % 0x1_0000_0000 == v % 0x1_0000_0000;
  }

  /** The low word of a long is written like the same number reduced to 32 bits. */
  lemma SameWord(v: int, low: int)
    requires low == (v + 0x8000_0000) % 0x1_0000_0000 - 0x8000_0000
    ensures EncWord(v) == EncWord(low)
  {
    var q := (v + 0x8000_0000) / 0x1_0000_0000;
    assert v == low + q * 0x1_0000_0000;
    SameByte(v, low, 1, q * 0x100_0000);
    SameByte(v, low, 0x100, q * 0x1_0000);
    SameByte(v, low, 0x1_0000, q * 0x100);
    SameByte(v, low, 0x100_0000, q);
  }

  lemma SameByte(v: int, low: int, d: int, q: int)
    requires d in {1, 0x100, 0x1_0000, 0x100_0000} && v == low + q * 0x100 * d
    ensures v / d % 0x100 == low / d % 0x100
  {
    assert v / d == low / d + q * 0x100;
    assert (low / d + q * 0x100) % 0x100 == low / d % 0x100;
  }

  lemma {:induction false} CellsRoundTrip(kind: Kind, cells: seq<int>, rest: Bytes)
    requires forall k :: 0 <= k < |cells| ==> InKind(kind, cells[k])
    ensures ParseCells(kind, |cells|, EncCells(kind, cells) + rest) == Ok(cells, rest)
  {
    hide EncCell, ParseCell;
    if cells == [] {
      assert EncCells(kind, cells) + rest == rest;
    } else {
      var after := EncCells(kind, cells[1..]) + rest;
      assert EncCells(kind, cells) + rest == EncCell(kind, cells[0]) + after;
      CellRoundTrip(kind, cells[0], after);
      CellsRoundTrip(kind, cells[1..], rest);
      assert [cells[0]] + cells[1..] == cells;
    }
  }

  lemma ItemRoundTrip(i: Item, rest: Bytes)
    requires Writable(i)
    ensures var s := EncItem(i) + rest; s != [] && s[0] != 0 && ParseItem(s) == Ok(i, rest)
  {
    hide EncOperand, ParseOperand, EncCode, ParseHead, EncWord, ParseWord, EncCells, ParseCells;
    match i
    case Run(kind, offset, cells) =>
      var after := EncCells(kind, cells) + rest;
      HeadRoundTrip(CodeOf(kind), |cells|, offset, after);
      CellsRoundTrip(kind, cells, rest);
      assert EncItem(i) + rest == EncCode(CodeOf(kind), |cells|) + EncOperand(offset) + after;
    case Text(offset, text) =>
      HeadRoundTrip(DEFS, |text|, offset, text + rest);
      BytesRoundTrip(text, rest);
      assert EncItem(i) + rest == EncCode(DEFS, |text|) + EncOperand(offset) + (text + rest);
    case NewArray(offset, element, length) =>
      var after := EncWord(length) + rest;
      HeadRoundTrip(DEFA, 1, offset, EncWord(element) + after);
      WordRoundTrip(element, after);
      WordRoundTrip(length, rest);
      assert EncItem(i) + rest == EncCode(DEFA, 1) + EncOperand(offset) + (EncWord(element) + after);
    case Enter(offset, index) =>
      HeadRoundTrip(DIND, 1, offset, EncWord(index) + rest);
      WordRoundTrip(index, rest);
      assert EncItem(i) + rest == EncCode(DIND, 1) + EncOperand(offset) + (EncWord(index) + rest);
    case Leave(offset) =>
      HeadRoundTrip(DAPOP, 1, offset, rest);
      assert EncItem(i) + rest == EncCode(DAPOP, 1) + EncOperand(offset) + rest;
  }

  /** Reading the written items builds the image that applying them one by one builds. */
  lemma {:induction false} ItemsRoundTrip(items: seq<Item>, m: Image, rest: Bytes)
    requires AllWritable(items)
    ensures ReadItems(EncItems(items) + [0] + rest, m) ==
            match ApplyAll(m, items) case Some(n) => Ok(n, rest) case None => Fail
    decreases |items|
  {
    hide EncItem, ParseItem, Apply;
    var s := EncItems(items) + [0] + rest;
    if items == [] {
      assert s == [0] + rest && s[1..] == rest;
    } else {
      var after := EncItems(items[1..]) + [0] + rest;
      assert s == EncItem(items[0]) + after;
      ItemRoundTrip(items[0], after);
      match Apply(m, items[0]) case Some(n) => ItemsRoundTrip(items[1..], n, rest); case None =>
    }
  }

  // ---- the compiler's writer ----

  /** One after the other, if the first succeeds. */
  function ThenApply(r: Option<Image>, i: Item): Option<Image> { match r case Some(m) => Apply(m, i) case None => None }

  function ThenStored(r: Option<Image>, offset: int, n: Node): Option<Image> {
    match r case Some(m) => Stored(m, offset, n) case None => None
  }

  function ThenParts(r: Option<Image>, offset: int, parts: Parts): Option<Image> {
    match r case Some(m) => StoredParts(m, offset, parts) case None => None
  }

  /** Whatever memory they start from, s is t followed by i. */
  ghost predicate IsThen(s: seq<Item>, t: seq<Item>, i: Item) { forall m :: ApplyAll(m, s) == ThenApply(ApplyAll(m, t), i) }

  ghost predicate IsStored(s: seq<Item>, t: seq<Item>, offset: int, n: Node) {
    forall m :: ApplyAll(m, s) == ThenStored(ApplyAll(m, t), offset, n)
  }

  ghost predicate IsParts(s: seq<Item>, t: seq<Item>, offset: int, parts: Parts) {
    forall m :: ApplyAll(m, s) == ThenParts(ApplyAll(m, t), offset, parts)
  }

  lemma AppendIsThen(t: seq<Item>, i: Item)
    ensures IsThen(t + [i], t, i)
  {
    forall m ensures ApplyAll(m, t + [i]) == ThenApply(ApplyAll(m, t), i) {
      ApplyAllAppend(m, t, [i]);
      if ApplyAll(m, t) != None { ApplyOne(ApplyAll(m, t).value, i); }
    }
  }

  /** A run that grows means the same as the old run and another behind it. */
  lemma GrownIsThen(t: seq<Item>, kind: Kind, offset: int, cells: seq<int>, more: seq<int>)
    ensures IsThen(t + [Run(kind, offset, cells + more)], t + [Run(kind, offset, cells)],
                   Run(kind, offset + |cells| * Size(kind), more))
  {
    AppendIsThen(t, Run(kind, offset, cells + more));
    AppendIsThen(t, Run(kind, offset, cells));
    forall m ensures ApplyAll(m, t + [Run(kind, offset, cells + more)]) ==
        ThenApply(ApplyAll(m, t + [Run(kind, offset, cells)]), Run(kind, offset + |cells| * Size(kind), more))
    {
      if ApplyAll(m, t) != None { RunsJoin(ApplyAll(m, t).value, kind, offset, cells, more); }
    }
  }

  /** The values have their kinds, offsets and lengths fit. */
  ghost predicate Storable(offset: int, n: Node)
    decreases n
  {
    && IsOperand(offset)
    && match n
       case Datum(kind, v) => InKind(kind, v)
       case Raw(bytes) => true
       case Literal(text) => |text| < 0x2000_0000
       case Structure(parts) => StorableParts(offset, parts)
       case ArrayOf(element, length, init) =>
         Int32(element) && Int32(length) && (init != None ==> StorableParts(0, init.value))
       case Nothing => true
  }

  ghost predicate StorableParts(offset: int, parts: Parts)
    decreases parts
  {
    match parts
    case End => true
    case Part(o, node, rest) => Storable(offset + o, node) && StorableParts(offset, rest)
  }

  /** How many cells can become part of one run. */
  function CellCount(n: Node): nat
    decreases n
  {
    match n
    case Datum(_, _) => 1
    case Raw(bytes) => |bytes|
    case Literal(_) => 0
    case Structure(parts) => CellCountParts(parts)
    case ArrayOf(_, _, init) => if init == None then 0 else CellCountParts(init.value)
    case Nothing => 0
  }

  function CellCountParts(parts: Parts): nat
    decreases parts
  {
    match parts case End => 0 case Part(_, node, rest) => CellCount(node) + CellCountParts(rest)
  }

  const CACHE_STEP := 1024
  const LIMIT := 0x2000_0000

  /** The growing of the cache ends within k rounds. */
  ghost predicate GrowthEnds(ncached: nat, size: nat, length: nat, k: nat)
    decreases k
  {
    ncached + size < length || (k > 0 && GrowthEnds(ncached, size, ncached + CACHE_STEP, k - 1))
  }

  /** It ends, after one round, exactly when the item is shorter than the step or fits already. */
  lemma {:induction false} GrowthEndsIff(ncached: nat, size: nat, length: nat, k: nat)
    requires k > 0
    ensures GrowthEnds(ncached, size, length, k) <==> size < CACHE_STEP || ncached + size < length
    decreases k
  {
    if k > 1 { GrowthEndsIff(ncached, size, ncached + CACHE_STEP, k - 1); }
  }

  /** An item as long as the step never fits into an empty cache. */
  lemma LongItemsGetNoRoom(k: nat)
    ensures !GrowthEnds(0, CACHE_STEP, 0, k)
  {
    if k > 0 { GrowthEndsIff(0, CACHE_STEP, 0, k); }
  }

  /** The run in the cache: its kind, where it ends, its bytes; and the length of the cache. */
  datatype Cached = Cached(kind: int, end: int, used: nat, length: nat)

  /** The cache ready for size bytes of a kind at off, if the cache ever gets long enough. */
  function Flushed(c: Cached, kind: int, off: int, size: nat): Option<Cached> {
    var used := if kind == c.kind && off == c.end then c.used else 0;
    if kind < 0 || used + size < c.length then Some(Cached(kind, off + size, used, c.length))
    else if size < CACHE_STEP then Some(Cached(kind, off + size, used, used + CACHE_STEP))
    else None
  }

  function Added(c: Cached, kind: int, off: int, size: nat): Option<Cached> {
    match Flushed(c, kind, off, size) case Some(d) => Some(d.(used := d.used + size)) case None => None
  }

  /** The cache after an initial value, if every run in it gets room. */
  function Laid(c: Cached, offset: int, n: Node): Option<Cached>
    decreases n
  {
    match n
    case Datum(kind, v) => Added(c, CodeOf(kind), offset, Size(kind))
    case Raw(bytes) => Added(c, DEFB, offset, |bytes|)
    case Literal(text) => Flushed(c, -1, -1, 0)
    case Structure(parts) => LaidParts(c, offset, parts)
    case ArrayOf(element, length, init) =>
      (match Flushed(c, -1, -1, 0)
       case None => None
       case Some(d) =>
         if init == None then Some(d)
         else match LaidParts(d, 0, init.value) case Some(e) => Flushed(e, -1, -1, 0) case None => None)
    case Nothing => Some(c)
  }

  function LaidParts(c: Cached, offset: int, parts: Parts): Option<Cached>
    decreases parts
  {
    match parts
    case End => Some(c)
    case Part(o, node, rest) => match Laid(c, offset + o, node) case Some(d) => LaidParts(d, offset, rest) case None => None
  }

  /** No raw bytes as long as the cache grows by. */
  predicate Short(n: Node)
    decreases n
  {
    match n
    case Raw(bytes) => |bytes| < CACHE_STEP
    case Structure(parts) => ShortParts(parts)
    case ArrayOf(_, _, init) => init != None ==> ShortParts(init.value)
    case _ => true
  }

  predicate ShortParts(parts: Parts)
    decreases parts
  {
    match parts case End => true case Part(_, node, rest) => Short(node) && ShortParts(rest)
  }

  /** Short runs always get room. */
  lemma {:induction false} ShortIsLaid(c: Cached, offset: int, n: Node)
    requires Short(n)
    ensures Laid(c, offset, n) != None
    decreases n
  {
    match n
    case Structure(parts) => ShortPartsAreLaid(c, offset, parts);
    case ArrayOf(_, _, init) => if init != None { ShortPartsAreLaid(Flushed(c, -1, -1, 0).value, 0, init.value); }
    case _ =>
  }

  lemma {:induction false} ShortPartsAreLaid(c: Cached, offset: int, parts: Parts)
    requires ShortParts(parts)
    ensures LaidParts(c, offset, parts) != None
    decreases parts
  {
    match parts
    case End =>
    case Part(o, node, rest) =>
      ShortIsLaid(c, offset + o, node);
      ShortPartsAreLaid(Laid(c, offset + o, node).value, offset, rest);
  }

  /** Raw bytes as long as the step are laid exactly where they fit already. */
  lemma LongIsLaidIff(c: Cached, offset: int, bytes: Bytes)
    requires |bytes| >= CACHE_STEP
    ensures Laid(c, offset, Raw(bytes)) != None <==>
            (if c.kind == DEFB && c.end == offset then c.used else 0) + |bytes| < c.length
  {
  }

  function KindOf(code: int): Kind {
    if code == DEFB then Bytes1 else if code == DEFW then Words4 else if code == DEFL then Bigs8 else Reals8
  }

  lemma {:induction false} EncItemsAppend(items: seq<Item>, i: Item)
    requires AllWritable(items) && Writable(i)
    ensures AllWritable(items + [i]) && EncItems(items + [i]) == EncItems(items) + EncItem(i)
  {
    hide EncItem, Writable;
    if items == [] {
      assert items + [i] == [i] && [i][1..] == [];
    } else {
      assert (items + [i])[1..] == items[1..] + [i];
      EncItemsAppend(items[1..], i);
    }
  }

  lemma {:induction false} EncCellsAppend(kind: Kind, cells: seq<int>, more: seq<int>)
    ensures EncCells(kind, cells + more) == EncCells(kind, cells) + EncCells(kind, more)
  {
    if cells == [] {
      assert cells + more == more;
    } else {
      assert (cells + more)[1..] == cells[1..] + more;
      EncCellsAppend(kind, cells[1..], more);
    }
  }

  lemma {:induction false} EncCellsLength(kind: Kind, cells: seq<int>)
    ensures |EncCells(kind, cells)| == |cells| * Size(kind)
  {
    if cells != [] { EncCellsLength(kind, cells[1..]); }
  }

  lemma NoBytes(kind: Kind)
    ensures EncCells(kind, []) == []
  {
  }

  lemma RunWritable(kind: Kind, offset: int, cells: seq<int>)
    requires IsOperand(offset) && |cells| < LIMIT && forall k :: 0 <= k < |cells| ==> InKind(kind, cells[k])
    ensures Writable(Run(kind, offset, cells))
  {
  }

  class DisWriter {
    var bout: Bytes
    var cache: array<Byte>
    var ncached: nat
    var ndatum: nat
    var startoff: int
    var lastoff: int
    var lastkind: int
    ghost var prefix: Bytes             // written before the data
    ghost var items: seq<Item>          // written so far
    ghost var cells: seq<int>           // cached

    ghost predicate Valid()
      reads this, cache
    {
      && AllWritable(items) && bout == prefix + EncItems(items)
      && lastkind in {-1, DEFB, DEFW, DEFL, DEFF}
      && ndatum == |cells| < LIMIT && ncached <= cache.Length
      && (lastkind == -1 ==> cells == [] && ncached == 0)
      && cache[..ncached] == EncCells(KindOf(lastkind), cells)
      && (lastkind != -1 ==> lastoff == startoff + |cells| * Size(KindOf(lastkind)))
      && (cells != [] ==> IsOperand(startoff))
      && (forall k :: 0 <= k < |cells| ==> InKind(KindOf(lastkind), cells[k]))
    }

    /** All that has been asked for: what is written and the run in the cache. */
    ghost function All(): seq<Item>
      reads this
    {
      if cells == [] then items else items + [Run(KindOf(lastkind), startoff, cells)]
    }

    /** Where the next datum would go on. */
    ghost function Cache(): Cached
      reads this
    {
      Cached(lastkind, lastoff, ncached, cache.Length)
    }

    constructor ()
      ensures bout == [] && fresh(cache) && cache.Length == 0 && lastoff == 0
    {
      bout, prefix := [], [];
      cache := new Byte[0];
      ncached, ndatum := 0, 0;
      startoff, lastoff, lastkind := 0, 0, -1;
      items, cells := [], [];
    }

    method Putb(b: Byte)
      modifies this`bout
      ensures bout == old(bout) + [b]
    {
      bout := bout + [b];
    }

    /** discon; a value that does not fit is a fatal error of the compiler. */
    method Discon(val: int)
      requires IsOperand(val)
      modifies this`bout
      ensures bout == old(bout) + EncOperand(val)
    {
      if -64 <= val <= 63 {
        Putb(val % 128);
        return;
      }
      if -8192 <= val <= 8191 {
        Putb(val / 0x100 % 64 + 0x80);
        Putb(val % 0x100);
        return;
      }
      Putb(val / 0x100_0000 % 64 + 0xC0);
      Putb(val / 0x1_0000 % 0x100);
      Putb(val / 0x100 % 0x100);
      Putb(val % 0x100);
    }

    method Disword(w: int)
      modifies this`bout
      ensures bout == old(bout) + EncWord(w)
    {
      Putb(w / 0x100_0000 % 0x100);
      Putb(w / 0x1_0000 % 0x100);
      Putb(w / 0x100 % 0x100);
      Putb(w % 0x100);
    }

    method Disdata(kind: int, n: nat)
      requires 0 < kind < 16 && n < LIMIT
      modifies this`bout
      ensures bout == old(bout) + EncCode(kind, n)
    {
      if n < DMAX && n != 0 {
        Putb(kind * 16 + n);
      } else {
        Putb(kind * 16);
        Discon(n);
      }
    }

    /** Code, count, offset, and the cached bytes. */
    method WriteRun()
      requires Valid() && cells != [] && lastkind != -1
      modifies this`bout, this`items
      ensures items == old(items) + [Run(KindOf(lastkind), startoff, cells)]
      ensures AllWritable(items) && bout == prefix + EncItems(items)
    {
      hide EncItems, EncCells, EncOperand, EncCode, AllWritable, Writable;
      ghost var run := Run(KindOf(lastkind), startoff, cells);
      RunWritable(KindOf(lastkind), startoff, cells);
      EncItemsAppend(items, run);
      Disdata(lastkind, ndatum);
      Discon(startoff);
      bout := bout + cache[..ncached];
      items := items + [run];
    }

    /** There is room for a datum of size bytes at off, at the end of a run of its kind. */
    ghost predicate Ready(kind: int, off: int, size: nat)
      reads this, cache
    {
      && AllWritable(items) && bout == prefix + EncItems(items)
      && lastkind == kind && (kind != -1 ==> startoff + |cells| * Size(KindOf(kind)) == off) && lastoff == off + size
      && ndatum == |cells| < LIMIT && ncached <= cache.Length && cache[..ncached] == EncCells(KindOf(kind), cells)
      && (cells != [] ==> IsOperand(startoff))
      && (forall k :: 0 <= k < |cells| ==> InKind(KindOf(kind), cells[k]))
      && (kind == -1 ==> cells == [] && ncached == 0)
      && (kind != -1 ==> ncached + size < cache.Length)
    }

    /** Start a new run unless the datum goes on where the cached one ends; make room for it. False when there never is. */
    method Disflush(kind: int, off: int, size: nat) returns (ok: bool)
      requires Valid() && kind in {-1, DEFB, DEFW, DEFL, DEFF}
      modifies this, cache
      ensures fresh(cache) || cache == old(cache)
      ensures ok <==> Flushed(old(Cache()), kind, off, size) != None
      ensures ok ==> Ready(kind, off, size) && All() == old(All()) && prefix == old(prefix) && |cells| <= old(|cells|)
      ensures ok ==> Some(Cache()) == Flushed(old(Cache()), kind, off, size)
    {
      hide EncItems, EncCells, AllWritable;
      if kind != lastkind || off != lastoff { StartRun(kind, off); }
      lastoff := off + size;
      ok := true;
      if kind >= 0 { ok := Grow(size); }
    }

    /** The cached run is written and an empty one begins. */
    method StartRun(kind: int, off: int)
      requires Valid() && kind in {-1, DEFB, DEFW, DEFL, DEFF}
      modifies this`bout, this`items, this`startoff, this`lastoff, this`lastkind, this`ncached, this`ndatum, this`cells
      ensures Valid() && All() == old(All())
      ensures lastkind == kind && startoff == lastoff == off && cells == [] && ncached == 0
    {
      hide EncItems, EncCells, AllWritable;
      EncCellsLength(KindOf(lastkind), cells);
      if lastkind != -1 && ncached != 0 { WriteRun(); }
      startoff, lastoff := off, off;
      lastkind := kind;
      ncached := 0;
      ndatum := 0;
      cells := [];
      NoBytes(KindOf(kind));
    }

    /** The loop that makes room. The new cache has a fixed length beyond the bytes in use: copying fails when the old one is
        longer, and otherwise the loop never ends when the datum does not fit; both are false here. */
    method Grow(size: nat) returns (ok: bool)
      requires ncached <= cache.Length
      modifies this`cache
      ensures ok <==> size < CACHE_STEP || ncached + size < old(cache).Length
      ensures ok ==> ncached + size < cache.Length && cache[..ncached] == old(cache[..ncached])
      ensures ok ==>
        cache.Length == if ncached + size < old(cache).Length then old(cache).Length else ncached + CACHE_STEP
      ensures fresh(cache) || cache == old(cache)
    {
      while ncached + size >= cache.Length
        invariant ncached <= cache.Length && cache[..ncached] == old(cache[..ncached])
        invariant fresh(cache) || cache == old(cache)
        invariant cache == old(cache) || (size < CACHE_STEP && cache.Length == ncached + CACHE_STEP)
        invariant cache == old(cache) || ncached + size >= old(cache).Length
        decreases if ncached + size >= cache.Length then 1 else 0
      {
        if cache.Length > ncached + CACHE_STEP { return false; }
        var c := new Byte[ncached + CACHE_STEP];
        forall i | 0 <= i < cache.Length { c[i] := cache[i]; }
        assert c[..ncached] == cache[..ncached];
        if ncached + size >= c.Length { return false; }
        cache := c;
      }
      ok := true;
    }

    /** The bytes of n more cells behind the cached ones. */
    method Append(bytes: Bytes, n: nat, off: int, ghost more: seq<int>)
      requires lastkind in {DEFB, DEFW, DEFL, DEFF} && Ready(lastkind, off, |bytes|) && IsOperand(off)
      requires bytes == EncCells(KindOf(lastkind), more) && n == |more| && |cells| + n < LIMIT
      requires forall k :: 0 <= k < |more| ==> InKind(KindOf(lastkind), more[k])
      modifies this`ncached, this`ndatum, this`cells, cache
      ensures Valid() && |cells| == old(|cells|) + n
      ensures IsThen(All(), old(All()), Run(KindOf(lastkind), off, more))
      ensures Cache() == old(Cache()).(used := old(ncached) + |bytes|)
    {
      hide IsThen, EncItems, EncCells, AllWritable;
      ghost var kind := KindOf(lastkind);
      EncCellsLength(kind, more);
      EncCellsAppend(kind, cells, more);
      RunGrows(items, kind, startoff, cells, more);
      StoreBytes(bytes);
      ncached := ncached + |bytes|;
      ndatum := ndatum + n;
      cells := cells + more;
    }

    method StoreBytes(bytes: Bytes)
      requires ncached + |bytes| <= cache.Length
      modifies cache
      ensures cache[..ncached + |bytes|] == old(cache[..ncached]) + bytes
    {
      var i := 0;
      while i < |bytes|
        invariant 0 <= i <= |bytes| && cache[..ncached + i] == old(cache[..ncached]) + bytes[..i]
      {
        cache[ncached + i] := bytes[i];
        i := i + 1;
      }
    }

    method Disbyte(off: int, v: Byte)
      requires Valid() && |cells| + 1 < LIMIT && IsOperand(off)
      modifies this, cache
      ensures Valid() && IsThen(All(), old(All()), Run(Bytes1, off, [v]))
      ensures prefix == old(prefix) && |cells| <= old(|cells|) + 1 && (fresh(cache) || cache == old(cache))
      ensures Some(Cache()) == Added(old(Cache()), DEFB, off, 1)
    {
      var ok := Disflush(DEFB, off, 1);
      assert EncCells(Bytes1, [v]) == [v];
      Append([v], 1, off, [v]);
    }

    method Disbytes(off: int, v: Bytes) returns (ok: bool)
      requires Valid() && |cells| + |v| < LIMIT && IsOperand(off)
      modifies this, cache
      ensures fresh(cache) || cache == old(cache)
      ensures ok <==> Added(old(Cache()), DEFB, off, |v|) != None
      ensures ok ==> Valid() && IsThen(All(), old(All()), Run(Bytes1, off, v)) && prefix == old(prefix)
      ensures ok ==> |cells| <= old(|cells|) + |v| && Some(Cache()) == Added(old(Cache()), DEFB, off, |v|)
    {
      ok := Disflush(DEFB, off, |v|);
      if !ok { return; }
      RawCells(v);
      Append(v, |v|, off, v);
    }

    method Disint(off: int, v: int)
      requires Valid() && |cells| + 1 < LIMIT && IsOperand(off) && Int32(v)
      modifies this, cache
      ensures Valid() && IsThen(All(), old(All()), Run(Words4, off, [v]))
      ensures prefix == old(prefix) && |cells| <= old(|cells|) + 1 && (fresh(cache) || cache == old(cache))
      ensures Some(Cache()) == Added(old(Cache()), DEFW, off, 4)
    {
      var ok := Disflush(DEFW, off, 4);
      OneCell(Words4, v);
      Append(EncCell(Words4, v), 1, off, [v]);
    }

    method Disbig(off: int, v: int)
      requires Valid() && |cells| + 1 < LIMIT && IsOperand(off) && Int64(v)
      modifies this, cache
      ensures Valid() && IsThen(All(), old(All()), Run(Bigs8, off, [v]))
      ensures prefix == old(prefix) && |cells| <= old(|cells|) + 1 && (fresh(cache) || cache == old(cache))
      ensures Some(Cache()) == Added(old(Cache()), DEFL, off, 8)
    {
      var ok := Disflush(DEFL, off, 8);
      OneCell(Bigs8, v);
      Append(EncCell(Bigs8, v), 1, off, [v]);
    }

    method Disreal(off: int, v: int)
      requires Valid() && |cells| + 1 < LIMIT && IsOperand(off) && Int64(v)
      modifies this, cache
      ensures Valid() && IsThen(All(), old(All()), Run(Reals8, off, [v]))
      ensures prefix == old(prefix) && |cells| <= old(|cells|) + 1 && (fresh(cache) || cache == old(cache))
      ensures Some(Cache()) == Added(old(Cache()), DEFF, off, 8)
    {
      var ok := Disflush(DEFF, off, 8);
      OneCell(Reals8, v);
      Append(EncCell(Reals8, v), 1, off, [v]);
    }

    /** An item has been written at once, behind all runs. */
    ghost method Wrote(i: Item)
      requires cells == [] && lastkind == -1 && ncached == ndatum == 0 && AllWritable(items)
      requires Writable(i) && bout == prefix + EncItems(items) + EncItem(i)
      modifies this`items
      ensures Valid() && All() == old(All()) + [i]
    {
      hide EncItem, EncItems, Writable, AllWritable;
      EncItemsAppend(items, i);
      assert prefix + EncItems(items) + EncItem(i) == prefix + (EncItems(items) + EncItem(i));
      items := items + [i];
      assert cache[..0] == EncCells(Reals8, []);
    }

    method Disstring(offset: int, text: Bytes)
      requires Valid() && IsOperand(offset) && |text| < LIMIT
      modifies this, cache
      ensures Valid() && IsThen(All(), old(All()), Text(offset, text))
      ensures prefix == old(prefix) && cells == [] && (fresh(cache) || cache == old(cache))
      ensures Some(Cache()) == Flushed(old(Cache()), -1, -1, 0)
    {
      hide EncCode, EncOperand, EncItems, AllWritable, IsThen;
      var ok := Disflush(-1, -1, 0);
      ghost var i, start := Text(offset, text), bout;
      AppendIsThen(All(), i);
      Disdata(DEFS, |text|);
      Discon(offset);
      bout := bout + text;
      Regroup4(start, EncCode(DEFS, |text|), EncOperand(offset), text, []);
      Wrote(i);
    }

    /** disdatum: the initial value n at offset; false when the cache never gets long enough for a run in it. */
    method Disdatum(offset: int, n: Node) returns (ok: bool)
      requires Valid() && Storable(offset, n) && |cells| + CellCount(n) < LIMIT
      modifies this, cache
      ensures fresh(cache) || cache == old(cache)
      ensures ok <==> Laid(old(Cache()), offset, n) != None
      ensures ok ==> Valid() && IsStored(All(), old(All()), offset, n) && prefix == old(prefix)
      ensures ok ==> |cells| <= old(|cells|) + CellCount(n) && Some(Cache()) == Laid(old(Cache()), offset, n)
      decreases n
    {
      hide IsThen, IsStored, IsParts, Valid, All, Cache, Flushed, Added;
      ghost var was, c := All(), Cache();
      ok := true;
      match n
      case Datum(Bytes1, v) =>
        Disbyte(offset, v);
        DatumStored(All(), was, offset, Bytes1, v);
      case Datum(Words4, v) =>
        Disint(offset, v);
        DatumStored(All(), was, offset, Words4, v);
      case Datum(Bigs8, v) =>
        Disbig(offset, v);
        DatumStored(All(), was, offset, Bigs8, v);
      case Datum(Reals8, v) =>
        Disreal(offset, v);
        DatumStored(All(), was, offset, Reals8, v);
      case Raw(bytes) =>
        ok := Disbytes(offset, bytes);
        if ok { RawStored(All(), was, offset, bytes); }
      case Literal(text) =>
        Disstring(offset, text);
        TextStored(All(), was, offset, text);
      case Structure(parts) =>
        ok := Disparts(offset, parts);
        if ok { StructureStored(All(), was, offset, parts); }
      case ArrayOf(element, length, init) =>
        Disarray(offset, element, length);
        ghost var a := All();
        if init == None {
          BareArrayStored(a, was, offset, element, length);
          return;
        }
        Disenter(offset);
        ghost var b := All();
        ok := Disparts(0, init.value);
        if !ok { return; }
        ghost var d := All();
        Disleave();
        ArrayStored(All(), d, b, a, was, offset, element, length, init.value);
      case Nothing =>
        NothingStored(was, offset);
    }

    /** The parts of a structure, or the elements of an array, in order. */
    method Disparts(offset: int, parts: Parts) returns (ok: bool)
      requires Valid() && StorableParts(offset, parts) && |cells| + CellCountParts(parts) < LIMIT
      modifies this, cache
      ensures fresh(cache) || cache == old(cache)
      ensures ok <==> LaidParts(old(Cache()), offset, parts) != None
      ensures ok ==> Valid() && IsParts(All(), old(All()), offset, parts) && prefix == old(prefix)
      ensures ok ==>
        |cells| <= old(|cells|) + CellCountParts(parts) && Some(Cache()) == LaidParts(old(Cache()), offset, parts)
      decreases parts
    {
      hide IsThen, IsStored, IsParts, Valid, All, Cache;
      ghost var was := All();
      ok := true;
      match parts
      case End =>
        NoParts(was, offset);
      case Part(o, node, rest) =>
        ok := Disdatum(offset + o, node);
        if !ok { return; }
        ghost var mid := All();
        ok := Disparts(offset, rest);
        if ok { MoreParts(All(), mid, was, offset, o, node, rest); }
    }

    method Disarray(offset: int, element: int, length: int)
      requires Valid() && IsOperand(offset) && Int32(element) && Int32(length)
      modifies this, cache
      ensures Valid() && IsThen(All(), old(All()), NewArray(offset, element, length)) && lastkind == -1
      ensures prefix == old(prefix) && cells == [] && (fresh(cache) || cache == old(cache))
      ensures Some(Cache()) == Flushed(old(Cache()), -1, -1, 0)
    {
      hide EncCode, EncOperand, EncWord, EncItems, AllWritable, IsThen;
      var ok := Disflush(-1, -1, 0);
      ghost var i, start := NewArray(offset, element, length), bout;
      AppendIsThen(All(), i);
      Disdata(DEFA, 1);
      Discon(offset);
      Disword(element);
      Disword(length);
      Regroup4(start, EncCode(DEFA, 1), EncOperand(offset), EncWord(element), EncWord(length));
      Wrote(i);
    }

    method Disenter(offset: int)
      requires Valid() && IsOperand(offset) && cells == [] && lastkind == -1
      modifies this, cache
      ensures Valid() && IsThen(All(), old(All()), Enter(offset, 0))
      ensures prefix == old(prefix) && cells == [] && (fresh(cache) || cache == old(cache))
      ensures Cache() == old(Cache())
    {
      hide EncCode, EncOperand, EncWord, EncItems, AllWritable, IsThen;
      ghost var i, start := Enter(offset, 0), bout;
      AppendIsThen(All(), i);
      Disdata(DIND, 1);
      Discon(offset);
      Disword(0);
      Regroup4(start, EncCode(DIND, 1), EncOperand(offset), EncWord(0), []);
      Wrote(i);
    }

    method Disleave()
      requires Valid()
      modifies this, cache
      ensures Valid() && IsThen(All(), old(All()), Leave(0))
      ensures prefix == old(prefix) && cells == [] && (fresh(cache) || cache == old(cache))
      ensures Some(Cache()) == Flushed(old(Cache()), -1, -1, 0)
    {
      hide EncCode, EncOperand, EncItems, AllWritable, IsThen;
      var ok := Disflush(-1, -1, 0);
      ghost var i, start := Leave(0), bout;
      AppendIsThen(All(), i);
      Disdata(DAPOP, 1);
      Discon(0);
      Regroup4(start, EncCode(DAPOP, 1), EncOperand(0), [], []);
      Wrote(i);
    }

    /** disvar: all globals with an initial value, the rest of the cache, and the zero that ends the data. */
    method Disvar(globals: Parts) returns (ok: bool)
      requires StorableParts(0, globals) && CellCountParts(globals) < LIMIT
      modifies this, cache
      ensures fresh(cache) || cache == old(cache)
      ensures ok <==> LaidParts(Cached(-1, old(lastoff), 0, old(cache).Length), 0, globals) != None
      ensures ok ==> prefix == old(bout) && AllWritable(items) && bout == prefix + EncItems(items) + [0]
      ensures ok ==> Coalesced(items, globals)
    {
      lastkind := -1;
      ncached := 0;
      ndatum := 0;
      prefix, items, cells := bout, [], [];
      NoBytes(KindOf(-1));
      ok := Disparts(0, globals);
      if !ok { return; }
      ok := Disflush(-1, -1, 0);
      Putb(0);
      forall m ensures ApplyAll(m, items) == StoredParts(m, 0, globals) {
        assert ApplyAll(m, items) == ThenParts(ApplyAll(m, []), 0, globals);
      }
    }
  }

  /** Items that mean what storing every initial value by itself means. */
  ghost predicate Coalesced(items: seq<Item>, globals: Parts) { forall m :: ApplyAll(m, items) == StoredParts(m, 0, globals) }

  lemma Regroup4(start: Bytes, a: Bytes, b: Bytes, c: Bytes, d: Bytes)
    ensures start + a + b + c + d == start + (a + b + c + d)
    ensures start + a + b + c == start + (a + b + c) && start + a + b == start + (a + b)
  {
  }

  lemma DatumStored(s: seq<Item>, t: seq<Item>, offset: int, kind: Kind, v: int)
    requires IsThen(s, t, Run(kind, offset, [v]))
    ensures IsStored(s, t, offset, Datum(kind, v))
  {
    forall m: Image ensures StoreRun(m, kind, offset, [v]) == Store(m, offset, Num(kind, v)) { assert [v][1..] == []; }
    forall m ensures ApplyAll(m, s) == ThenStored(ApplyAll(m, t), offset, Datum(kind, v)) {
      assert ApplyAll(m, s) == ThenApply(ApplyAll(m, t), Run(kind, offset, [v]));
    }
  }

  lemma RawStored(s: seq<Item>, t: seq<Item>, offset: int, bytes: Bytes)
    requires IsThen(s, t, Run(Bytes1, offset, bytes))
    ensures IsStored(s, t, offset, Raw(bytes))
  {
    forall m ensures ApplyAll(m, s) == ThenStored(ApplyAll(m, t), offset, Raw(bytes)) {
      assert ApplyAll(m, s) == ThenApply(ApplyAll(m, t), Run(Bytes1, offset, bytes));
    }
  }

  lemma TextStored(s: seq<Item>, t: seq<Item>, offset: int, text: Bytes)
    requires IsThen(s, t, Text(offset, text))
    ensures IsStored(s, t, offset, Literal(text))
  {
    forall m ensures ApplyAll(m, s) == ThenStored(ApplyAll(m, t), offset, Literal(text)) {
      assert ApplyAll(m, s) == ThenApply(ApplyAll(m, t), Text(offset, text));
    }
  }

  lemma StructureStored(s: seq<Item>, t: seq<Item>, offset: int, parts: Parts)
    requires IsParts(s, t, offset, parts)
    ensures IsStored(s, t, offset, Structure(parts))
  {
    forall m ensures ApplyAll(m, s) == ThenStored(ApplyAll(m, t), offset, Structure(parts)) {
      assert ApplyAll(m, s) == ThenParts(ApplyAll(m, t), offset, parts);
    }
  }

  lemma BareArrayStored(s: seq<Item>, t: seq<Item>, offset: int, element: int, length: int)
    requires IsThen(s, t, NewArray(offset, element, length))
    ensures IsStored(s, t, offset, ArrayOf(element, length, None))
  {
    forall m ensures ApplyAll(m, s) == ThenStored(ApplyAll(m, t), offset, ArrayOf(element, length, None)) {
      assert ApplyAll(m, s) == ThenApply(ApplyAll(m, t), NewArray(offset, element, length));
    }
  }

  lemma ArrayStored(s: seq<Item>, c: seq<Item>, b: seq<Item>, a: seq<Item>, t: seq<Item>, offset: int, element: int, length: int,
                    parts: Parts)
    requires IsThen(a, t, NewArray(offset, element, length)) && IsThen(b, a, Enter(offset, 0))
    requires IsParts(c, b, 0, parts) && IsThen(s, c, Leave(0))
    ensures IsStored(s, t, offset, ArrayOf(element, length, Some(parts)))
  {
    forall m ensures ApplyAll(m, s) == ThenStored(ApplyAll(m, t), offset, ArrayOf(element, length, Some(parts))) {
      assert ApplyAll(m, a) == ThenApply(ApplyAll(m, t), NewArray(offset, element, length));
      assert ApplyAll(m, b) == ThenApply(ApplyAll(m, a), Enter(offset, 0));
      assert ApplyAll(m, c) == ThenParts(ApplyAll(m, b), 0, parts);
      assert ApplyAll(m, s) == ThenApply(ApplyAll(m, c), Leave(0));
    }
  }

  lemma NothingStored(t: seq<Item>, offset: int)
    ensures IsStored(t, t, offset, Nothing)
  {
  }

  lemma NoParts(t: seq<Item>, offset: int)
    ensures IsParts(t, t, offset, End)
  {
  }

  lemma MoreParts(s: seq<Item>, mid: seq<Item>, t: seq<Item>, offset: int, o: int, node: Node, rest: Parts)
    requires IsStored(mid, t, offset + o, node) && IsParts(s, mid, offset, rest)
    ensures IsParts(s, t, offset, Part(o, node, rest))
  {
    forall m ensures ApplyAll(m, s) == ThenParts(ApplyAll(m, t), offset, Part(o, node, rest)) {
      assert ApplyAll(m, mid) == ThenStored(ApplyAll(m, t), offset + o, node);
      assert ApplyAll(m, s) == ThenParts(ApplyAll(m, mid), offset, rest);
    }
  }

  lemma RawCells(v: Bytes)
    ensures EncCells(Bytes1, v) == v
  {
    if v != [] { RawCells(v[1..]); }
  }

  lemma OneCell(kind: Kind, v: int)
    ensures EncCells(kind, [v]) == EncCell(kind, v)
  {
    assert [v][1..] == [];
  }

  /** Adding cells to the run in the cache. */
  lemma RunGrows(items: seq<Item>, kind: Kind, offset: int, cells: seq<int>, more: seq<int>)
    ensures var was := if cells == [] then items else items + [Run(kind, offset, cells)];
            var now := if cells + more == [] then items else items + [Run(kind, offset, cells + more)];
            IsThen(now, was, Run(kind, offset + |cells| * Size(kind), more))
  {
    if cells != [] {
      GrownIsThen(items, kind, offset, cells, more);
    } else {
      assert [] + more == more;
      AppendIsThen(items, Run(kind, offset, more));
    }
  }

  // ---- which values the loader can build ----

  /** Arrays have a length; those with initial elements are not empty and not nested deeper than d. */
  predicate Nests(n: Node, d: nat)
    decreases n
  {
    match n
    case Structure(parts) => NestsParts(parts, d)
    case ArrayOf(_, length, init) => length >= 0 && (init != None ==> d > 0 && length > 0 && NestsParts(init.value, d - 1))
    case _ => true
  }

  predicate NestsParts(parts: Parts, d: nat)
    decreases parts
  {
    match parts case End => true case Part(_, node, rest) => Nests(node, d) && NestsParts(rest, d)
  }

  /** Memory with a place to store into. */
  predicate Sound(m: Image) { m.base.obj < |m.objs| && |m.stack| <= STACK_SIZE }

  predicate Kept(m: Image, r: Image) { r.base == m.base && r.stack == m.stack && |r.objs| >= |m.objs| }

  lemma {:induction false} StoreRunKeeps(m: Image, kind: Kind, offset: int, cells: seq<int>)
    ensures Kept(m, StoreRun(m, kind, offset, cells))
    decreases |cells|
  {
    if cells != [] { StoreRunKeeps(Store(m, offset, Num(kind, cells[0])), kind, offset + Size(kind), cells[1..]); }
  }

  /** The loader builds a value exactly when its initialised arrays are non-empty and nested at most four deep. */
  lemma {:induction false} StoredIff(m: Image, offset: int, n: Node)
    requires Sound(m)
    ensures Stored(m, offset, n) != None <==> Nests(n, STACK_SIZE - |m.stack|)
    ensures Stored(m, offset, n) != None ==> Kept(m, Stored(m, offset, n).value)
    decreases n
  {
    match n
    case Raw(bytes) => StoreRunKeeps(m, Bytes1, offset, bytes);
    case Structure(parts) => StoredPartsIff(m, offset, parts);
    case ArrayOf(element, length, init) =>
      if length >= 0 && init != None {
        var a := Apply(m, NewArray(offset, element, length)).value;
        assert Lookup(a, offset) == Some(Ptr(|m.objs|));
        if length > 0 && |m.stack| < STACK_SIZE {
          var b := Apply(a, Enter(offset, 0)).value;
          StoredPartsIff(b, 0, init.value);
        }
      }
    case _ =>
  }

  lemma {:induction false} StoredPartsIff(m: Image, offset: int, parts: Parts)
    requires Sound(m)
    ensures StoredParts(m, offset, parts) != None <==> NestsParts(parts, STACK_SIZE - |m.stack|)
    ensures StoredParts(m, offset, parts) != None ==> Kept(m, StoredParts(m, offset, parts).value)
    decreases parts
  {
    match parts
    case End =>
    case Part(o, node, rest) =>
      StoredIff(m, offset + o, node);
      if Stored(m, offset + o, node) != None { StoredPartsIff(Stored(m, offset + o, node).value, offset, rest); }
  }

  // ---- where the loader writes ----

  function ValueSize(v: Value): nat { match v case Num(kind, _) => Size(kind) case _ => 4 }

  predicate Room(offset: int, n: nat, limit: int) { 0 <= offset && offset + n <= limit }

  /** The value lies within limit bytes, and the elements of each array within the array; sizes are those of the types. */
  predicate Inside(sizes: map<int, int>, offset: int, n: Node, limit: int)
    decreases n
  {
    match n
    case Datum(kind, _) => Room(offset, Size(kind), limit)
    case Raw(bytes) => bytes != [] ==> Room(offset, |bytes|, limit)
    case Literal(_) => Room(offset, 4, limit)
    case Structure(parts) => InsideParts(sizes, offset, parts, limit)
    case ArrayOf(element, length, init) =>
      && Room(offset, 4, limit)
      && (init != None ==> element in sizes && InsideParts(sizes, 0, init.value, length * sizes[element]))
    case Nothing => true
  }

  predicate InsideParts(sizes: map<int, int>, offset: int, parts: Parts, limit: int)
    decreases parts
  {
    match parts
    case End => true
    case Part(o, node, rest) => Inside(sizes, offset + o, node, limit) && InsideParts(sizes, offset, rest, limit)
  }

  /** The bytes of an object: the module's data, or an array of elements. */
  function Extent(sizes: map<int, int>, size: int, m: Image, i: nat): int
    requires i < |m.objs|
  {
    if i == 0 then size else if m.objs[i].element in sizes then m.objs[i].length * sizes[m.objs[i].element] else 0
  }

  /** Every value in memory lies inside its object. */
  ghost predicate Contained(sizes: map<int, int>, size: int, m: Image) {
    forall i, a :: 0 <= i < |m.objs| && a in m.objs[i].cells ==>
      Room(a, ValueSize(m.objs[i].cells[a]), Extent(sizes, size, m, i))
  }

  /** Addresses count from the start of an object, and no object changes its extent. */
  ghost predicate SameExtents(m: Image, r: Image) {
    && r.base == m.base && r.stack == m.stack && |m.objs| <= |r.objs|
    && forall i :: 0 <= i < |m.objs| ==> r.objs[i].element == m.objs[i].element && r.objs[i].length == m.objs[i].length
  }

  ghost predicate AtStart(m: Image) { m.base.obj < |m.objs| && m.base.start == 0 && |m.stack| <= STACK_SIZE }

  lemma StoreInside(sizes: map<int, int>, size: int, m: Image, offset: int, v: Value)
    requires Contained(sizes, size, m) && AtStart(m) && Room(offset, ValueSize(v), Extent(sizes, size, m, m.base.obj))
    ensures Contained(sizes, size, Store(m, offset, v)) && SameExtents(m, Store(m, offset, v))
  {
  }

  lemma {:induction false} RunInside(sizes: map<int, int>, size: int, m: Image, kind: Kind, offset: int, cells: seq<int>)
    requires Contained(sizes, size, m) && AtStart(m)
    requires cells != [] ==> Room(offset, |cells| * Size(kind), Extent(sizes, size, m, m.base.obj))
    ensures Contained(sizes, size, StoreRun(m, kind, offset, cells)) && SameExtents(m, StoreRun(m, kind, offset, cells))
    decreases |cells|
  {
    if cells != [] {
      assert |cells| * Size(kind) == Size(kind) + |cells[1..]| * Size(kind);
      StoreInside(sizes, size, m, offset, Num(kind, cells[0]));
      RunInside(sizes, size, Store(m, offset, Num(kind, cells[0])), kind, offset + Size(kind), cells[1..]);
    }
  }

  lemma ArrayInside(sizes: map<int, int>, size: int, m: Image, offset: int, element: int, length: int)
    requires Contained(sizes, size, m) && AtStart(m) && Room(offset, 4, Extent(sizes, size, m, m.base.obj)) && length >= 0
    ensures var a := Apply(m, NewArray(offset, element, length)).value;
            && Contained(sizes, size, a) && SameExtents(m, a) && Lookup(a, offset) == Some(Ptr(|m.objs|))
            && |a.objs| == |m.objs| + 1 && a.objs[|m.objs|].element == element && a.objs[|m.objs|].length == length
  {
    var b := m.(objs := m.objs + [Obj(element, length, map[])]);
    assert Contained(sizes, size, b) && Extent(sizes, size, b, m.base.obj) == Extent(sizes, size, m, m.base.obj);
    StoreInside(sizes, size, b, offset, Ptr(|m.objs|));
  }

  /** A value that lies inside its object is loaded without a store outside any object. */
  lemma {:induction false} StoredInside(sizes: map<int, int>, size: int, m: Image, offset: int, n: Node)
    requires Contained(sizes, size, m) && AtStart(m) && Stored(m, offset, n) != None
    requires Inside(sizes, offset, n, Extent(sizes, size, m, m.base.obj))
    ensures Contained(sizes, size, Stored(m, offset, n).value) && SameExtents(m, Stored(m, offset, n).value)
    decreases n
  {
    match n
    case Datum(kind, v) => StoreInside(sizes, size, m, offset, Num(kind, v));
    case Raw(bytes) => RunInside(sizes, size, m, Bytes1, offset, bytes);
    case Literal(text) => StoreInside(sizes, size, m, offset, Str(text));
    case Structure(parts) => StoredPartsInside(sizes, size, m, offset, parts);
    case ArrayOf(element, length, init) =>
      ArrayInside(sizes, size, m, offset, element, length);
      if init != None {
        var b := Apply(Apply(m, NewArray(offset, element, length)).value, Enter(offset, 0)).value;
        assert Extent(sizes, size, b, |m.objs|) == length * sizes[element];
        StoredPartsInside(sizes, size, b, 0, init.value);
      }
    case Nothing =>
  }

  lemma {:induction false} StoredPartsInside(sizes: map<int, int>, size: int, m: Image, offset: int, parts: Parts)
    requires Contained(sizes, size, m) && AtStart(m) && StoredParts(m, offset, parts) != None
    requires InsideParts(sizes, offset, parts, Extent(sizes, size, m, m.base.obj))
    ensures Contained(sizes, size, StoredParts(m, offset, parts).value)
    ensures SameExtents(m, StoredParts(m, offset, parts).value)
    decreases parts
  {
    match parts
    case End =>
    case Part(o, node, rest) =>
      StoredInside(sizes, size, m, offset + o, node);
      StoredPartsInside(sizes, size, Stored(m, offset + o, node).value, offset, rest);
  }

  // ---- the loader ----

  /** Cells of one kind, stored as they are read. */
  method ReadRun(reader: BufferedReader, kind: Kind, h: Head, m0: Image) returns (ok: bool, m: Image)
    requires reader.Valid()
    modifies reader, reader.buffer
    ensures reader.Valid()
    ensures match ParsedRun(kind, h, old(reader.Remaining()))
            case Ok(i, rest) => ok && Apply(m0, i) == Some(m) && reader.Remaining() == rest
            case Fail => !ok
  {
    hide ParseCell, ParseCells, StoreRun, Store;
    m := m0;
    var dest := h.offset;
    var idx := 0;
    NoCells(m0, kind, h.offset);
    ghost var all := reader.Remaining();
    ghost var done: seq<int> := [];
    NothingContinued(ParseCells(kind, h.count, all));
    while idx < h.count
      invariant reader.Valid() && 0 <= idx <= h.count && idx == |done| && dest == h.offset + idx * Size(kind)
      invariant ParseCells(kind, h.count, all) == Continued(done, ParseCells(kind, h.count - idx, reader.Remaining()))
      invariant m == StoreRun(m0, kind, h.offset, done)
    {
      ghost var was := reader.Remaining();
      var v;
      ok, v := ReadCell(reader, kind);
      if !ok {
        CellsFail(kind, done, h.count - idx, was);
        return false, m;
      }
      CellsStep(kind, done, v, h.count - idx, was, reader.Remaining());
      StoreRunAppend(m0, kind, h.offset, done, [v]);
      OneStore(m, kind, dest, v);
      m := Store(m, dest, Num(kind, v));
      dest := dest + Size(kind);
      done := done + [v];
      idx := idx + 1;
    }
    assert done + [] == done;
    NoMoreCells(kind, reader.Remaining());
    ok := true;
  }

  lemma NoCells(m: Image, kind: Kind, offset: int)
    ensures StoreRun(m, kind, offset, []) == m
  {
  }

  lemma NoMoreCells(kind: Kind, s: Bytes)
    ensures ParseCells(kind, 0, s) == Ok([], s)
  {
  }

  lemma CellsFail(kind: Kind, done: seq<int>, n: nat, s: Bytes)
    requires n > 0 && ParseCell(kind, s) == Fail
    ensures Continued(done, ParseCells(kind, n, s)) == Fail
  {
  }

  lemma OneStore(m: Image, kind: Kind, offset: int, v: int)
    ensures StoreRun(m, kind, offset, [v]) == Store(m, offset, Num(kind, v))
  {
    assert [v][1..] == [];
  }

  lemma CellsStep(kind: Kind, done: seq<int>, v: int, n: nat, s: Bytes, t: Bytes)
    requires n > 0 && ParseCell(kind, s) == Ok(v, t)
    ensures Continued(done, ParseCells(kind, n, s)) == Continued(done + [v], ParseCells(kind, n - 1, t))
  {
    var r := ParseCells(kind, n - 1, t);
    if r.Ok? { assert done + ([v] + r.value) == done + [v] + r.value; }
  }

  method ReadCell(reader: BufferedReader, kind: Kind) returns (ok: bool, v: int)
    requires reader.Valid()
    modifies reader, reader.buffer
    ensures reader.Valid()
    ensures match ParseCell(kind, old(reader.Remaining()))
            case Ok(x, rest) => ok && v == x && reader.Remaining() == rest
            case Fail => !ok
  {
    match kind
    case Bytes1 =>
      var b;
      ok, b := reader.GetNextByte();
      v := b;
    case Words4 =>
      ok, v := ReadNextWord(reader);
    case _ =>
      var first, second;
      ok, first := ReadNextWord(reader);
      if !ok { return false, 0; }
      ok, second := ReadNextWord(reader);
      v := first * 0x1_0000_0000 + second % 0x1_0000_0000;
  }

  /** One item: code, count, offset, and what the code asks for, straight into memory. */
  method ReadItem(reader: BufferedReader, code: Byte, m0: Image) returns (ok: bool, m: Image)
    requires reader.Valid() && code != 0
    modifies reader, reader.buffer
    ensures reader.Valid()
    ensures match ParseItem([code] + old(reader.Remaining()))
            case Fail => !ok
            case Ok(i, rest) =>
              match Apply(m0, i) case None => !ok case Some(n) => ok && m == n && reader.Remaining() == rest
  {
    hide ParseOperand, ParseBody, Apply;
    m := m0;
    ghost var all := reader.Remaining();
    assert ([code] + all)[1..] == all;
    var c: int := code;
    var count := c % 16;
    if count == 0 {
      ok, count := ReadNextOperand(reader);
      if !ok { return; }
    }
    var n: nat := if count < 0 then count + 0x1_0000_0000 else count;
    var offset;
    ok, offset := ReadNextOperand(reader);
    if !ok { return; }
    var h := Head(c / 16, n, offset);
    ok, m := ReadBody(reader, h, m0);
  }

  method ReadBody(reader: BufferedReader, h: Head, m0: Image) returns (ok: bool, m: Image)
    requires reader.Valid()
    modifies reader, reader.buffer
    ensures reader.Valid()
    ensures match ParseBody(h, old(reader.Remaining()))
            case Fail => !ok
            case Ok(i, rest) =>
              match Apply(m0, i) case None => !ok case Some(n) => ok && m == n && reader.Remaining() == rest
  {
    m := m0;
    ghost var all := reader.Remaining();
    if h.code == DEFB {
      ok, m := ReadRun(reader, Bytes1, h, m0);
    } else if h.code == DEFW {
      ok, m := ReadRun(reader, Words4, h, m0);
    } else if h.code == DEFS {
      var n, text := reader.GetNextBytes(h.count);
      if n != h.count || (n == 0 && h.count != 0) { return false, m; }
      if n == 0 { text := []; }
      m := Store(m, h.offset, Str(text));
      ok := true;
    } else if h.code == DEFF {
      ok, m := ReadRun(reader, Reals8, h, m0);
    } else if h.code == DEFA {
      var element, length;
      ok, element := ReadNextWord(reader);
      if !ok { return; }
      ok, length := ReadNextWord(reader);
      if !ok || length < 0 { return false, m; }
      m := Store(m.(objs := m.objs + [Obj(element, length, map[])]), h.offset, Ptr(|m.objs|));
    } else if h.code == DIND {
      var slot := Lookup(m, h.offset);
      var index;
      ok, index := ReadNextWord(reader);
      if !ok { return; }
      if slot == None || !slot.value.Ptr? || slot.value.obj >= |m.objs| { return false, m; }
      if index < 0 || m.objs[slot.value.obj].length <= index || |m.stack| >= STACK_SIZE { return false, m; }
      m := m.(base := Base(slot.value.obj, index * ARRAY_SIZE), stack := m.stack + [m.base]);
    } else if h.code == DAPOP {
      if m.stack == [] { return false, m; }
      m := m.(base := m.stack[|m.stack| - 1], stack := m.stack[..|m.stack| - 1]);
      ok := true;
    } else if h.code == DEFL {
      ok, m := ReadRun(reader, Bigs8, h, m0);
    } else {
      ok := false;
    }
  }

  /** read_data_section: the image depends on the bytes alone, not on how the reader gets them. */
  method ReadDataSection(reader: BufferedReader, m0: Image) returns (ok: bool, m: Image)
    requires reader.Valid()
    modifies reader, reader.buffer
    ensures reader.Valid()
    ensures match ReadItems(old(reader.Remaining()), m0)
            case Ok(n, rest) => ok && m == n && reader.Remaining() == rest
            case Fail => !ok
  {
    m := m0;
    ghost var all := reader.Remaining();
    while true
      invariant reader.Valid() && ReadItems(all, m0) == ReadItems(reader.Remaining(), m)
      decreases |reader.Remaining()|
    {
      ghost var was := reader.Remaining();
      var n, code := reader.GetNextBytes(1);
      if n != 1 { return false, m; }
      assert was == [code[0]] + reader.Remaining() && was[1..] == reader.Remaining();
      if code[0] == 0 { return true, m; }
      ok, m := ReadItem(reader, code[0], m);
      if !ok { return false, m; }
    }
  }

  /** From the compiler's globals to the loaded image: whatever the chunks, the loader builds from the coalesced runs
      exactly what storing every initial value by itself builds. */
  lemma DataRoundTrip(globals: Parts, items: seq<Item>, m: Image, rest: Bytes)
    requires AllWritable(items) && Coalesced(items, globals)
    ensures ReadItems(EncItems(items) + [0] + rest, m) ==
            match StoredParts(m, 0, globals) case Some(n) => Ok(n, rest) case None => Fail
  {
    ItemsRoundTrip(items, m, rest);
  }
}
