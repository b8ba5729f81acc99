// Whole .dis modules: the order and form in which the compiler writes their sections (limbo/compiler/com.b,
// limbo/compiler/dis.b) and in which the loader reads them (src/vm/module_reader.cpp).
module ModuleFormat {
  import opened DisFormat
  import opened DataSection
  import DataMeaning

  // ---- instructions ----

  /** How the compiler addresses an operand. */
  datatype Mode = Imm | Mp | MpInd | Fp | FpInd | Pc | Desc | Off | Noff | Err | NoOperand | Ldt

  datatype Addr = Addr(reg: int, offset: int, iface: int)

  datatype Inst = Inst(op: Byte, sm: Mode, mm: Mode, dm: Mode, s: Addr, m: Addr, d: Addr)

  /** The markers that a reached handler leaves in the code; they are not written. */
  const INOOP := 178

  /** Address mode codes, for source and destination and for the middle operand. */
  function DisMode(m: Mode): nat {
    match m
    case Mp => 0
    case Fp => 1
    case Imm => 2 case Pc => 2 case Desc => 2 case Off => 2 case Noff => 2 case Ldt => 2
    case Err => 3 case NoOperand => 3
    case MpInd => 4
    case FpInd => 5
  }

  function DisRegMode(m: Mode): nat {
    match m
    case Imm => 1 case Pc => 1 case Desc => 1 case Off => 1 case Noff => 1 case Ldt => 1
    case Fp => 2
    case Mp => 3
    case MpInd => 0 case FpInd => 0 case Err => 0 case NoOperand => 0
  }

  predicate Indirect(m: Mode) { m == MpInd || m == FpInd }

  /** The constant for a direct operand. */
  function Direct(m: Mode, a: Addr): int {
    match m
    case Imm => a.offset case Pc => a.offset case Desc => a.offset
    case Off => a.iface
    case Noff => -(a.iface + 1)
    case Fp => a.reg case Mp => a.reg case Ldt => a.reg
    case _ => 0
  }

  function EncAddr(m: Mode, a: Addr): (b: Bytes)
    ensures |b| <= 8
  {
    if Indirect(m) then EncConst(a.reg) + EncConst(a.offset) else EncConst(Direct(m, a))
  }

  function EncOpnd(m: Mode, a: Addr): (b: Bytes)
    ensures |b| <= 8
  {
    if m == NoOperand then [] else EncAddr(m, a)
  }

  function ModeByte(i: Inst): Byte { DisMode(i.sm) * 8 + DisMode(i.dm) + DisRegMode(i.mm) * 64 }

  function EncInst(i: Inst): (b: Bytes)
    ensures |b| <= MAXINST
  {
    [i.op, ModeByte(i)] + EncOpnd(i.mm, i.m) + EncOpnd(i.sm, i.s) + EncOpnd(i.dm, i.d)
  }

  const MAXINST := 26
  const NIBUF := 1024

  predicate AddrOk(m: Mode, a: Addr) {
    if Indirect(m) then IsOperand(a.reg) && IsOperand(a.offset) else IsOperand(Direct(m, a))
  }

  /** Operands in range, modes that exist; the middle operand is never doubly indirect. */
  predicate InstOk(i: Inst) {
    && AddrOk(i.sm, i.s) && AddrOk(i.mm, i.m) && AddrOk(i.dm, i.d)
    && i.sm != Err && i.dm != Err && i.mm != Err && !Indirect(i.mm)
  }

  /** The loader's instruction and its address modes, in the order of their numbers. */
  datatype AddressMode =
    | OffsetIndirectMp | OffsetIndirectFp | Immediate | NoMode
    | OffsetDoubleIndirectMp | OffsetDoubleIndirectFp | Reserved1 | Reserved2

  datatype MiddleMode = NoMiddle | SmallImmediate | SmallOffsetIndirectFp | SmallOffsetIndirectMp

  datatype Opnd = Opnd(mode: AddressMode, register1: int, register2: int)

  datatype Middle = Middle(mode: MiddleMode, register1: int)

  datatype Instr = Instr(opcode: Byte, addr_code: Byte, middle: Middle, source: Opnd, destination: Opnd)

  /** The casts of convert_to_address_mode. */
  function AddressModeOf(code: nat): AddressMode
    requires code < 8
  {
    match code
    case 0 => OffsetIndirectMp
    case 1 => OffsetIndirectFp
    case 2 => Immediate
    case 3 => NoMode
    case 4 => OffsetDoubleIndirectMp
    case 5 => OffsetDoubleIndirectFp
    case 6 => Reserved1
    case _ => Reserved2
  }

  function MiddleModeOf(code: nat): MiddleMode
    requires code < 4
  {
    match code
    case 0 => NoMiddle
    case 1 => SmallImmediate
    case 2 => SmallOffsetIndirectFp
    case _ => SmallOffsetIndirectMp
  }

  function MiddlePart(code: Byte): MiddleMode { MiddleModeOf(code / 64) }
  function SourcePart(code: Byte): AddressMode { AddressModeOf(code / 8 % 8) }
  function DestinationPart(code: Byte): AddressMode { AddressModeOf(code % 8) }

  /** The machine's mode for each mode of the compiler. */
  function MachineMode(m: Mode): AddressMode {
    match m
    case Mp => OffsetIndirectMp
    case Fp => OffsetIndirectFp
    case MpInd => OffsetDoubleIndirectMp
    case FpInd => OffsetDoubleIndirectFp
    case Err => NoMode case NoOperand => NoMode
    case _ => Immediate
  }

  function MachineMiddle(m: Mode): MiddleMode {
    match m
    case Mp => SmallOffsetIndirectMp
    case Fp => SmallOffsetIndirectFp
    case MpInd => NoMiddle case FpInd => NoMiddle case Err => NoMiddle case NoOperand => NoMiddle
    case _ => SmallImmediate
  }

  function OpndOf(m: Mode, a: Addr): Opnd {
    if m == NoOperand then Opnd(NoMode, 0, 0)
    else if Indirect(m) then Opnd(MachineMode(m), a.reg, a.offset)
    else Opnd(MachineMode(m), Direct(m, a), 0)
  }

  function MiddleOf(m: Mode, a: Addr): Middle {
    if m == NoOperand then Middle(NoMiddle, 0) else Middle(MachineMiddle(m), Direct(m, a))
  }

  function InstrOf(i: Inst): Instr {
    Instr(i.op, ModeByte(i), MiddleOf(i.mm, i.m), OpndOf(i.sm, i.s), OpndOf(i.dm, i.d))
  }

  function ParseMiddle(mode: MiddleMode, s: Bytes): Parse<Middle> {
    if mode == NoMiddle then Ok(Middle(NoMiddle, 0), s)
    else match ParseOperand(s) case Ok(v, t) => Ok(Middle(mode, v), t) case Fail => Fail
  }

  function ParseOpnd(mode: AddressMode, s: Bytes): Parse<Opnd> {
    if mode == NoMode then Ok(Opnd(NoMode, 0, 0), s)
    else match ParseOperand(s)
      case Fail => Fail
      case Ok(v, t) =>
        if mode != OffsetDoubleIndirectFp && mode != OffsetDoubleIndirectMp then Ok(Opnd(mode, v, 0), t)
        else match ParseOperand(t) case Ok(w, u) => Ok(Opnd(mode, v, w), u) case Fail => Fail
  }

  function ParseInstr(s: Bytes): Parse<Instr> {
    if |s| < 2 then Fail
    else
      var code := At(s, 1);
      match ParseMiddle(MiddlePart(code), s[2..])
      case Fail => Fail
      case Ok(middle, t) =>
        match ParseOpnd(SourcePart(code), t)
        case Fail => Fail
        case Ok(source, u) =>
          match ParseOpnd(DestinationPart(code), u)
          case Fail => Fail
          case Ok(destination, rest) => Ok(Instr(s[0], s[1], middle, source, destination), rest)
  }

  lemma ConstRoundTrip(v: int, rest: Bytes)
    requires IsOperand(v)
    ensures ParseOperand(EncConst(v) + rest) == Ok(v, rest)
  {
    OperandRoundTrip(v, rest);
  }

  lemma MiddleRoundTrip(m: Mode, a: Addr, rest: Bytes)
    requires AddrOk(m, a) && m != Err && !Indirect(m)
    ensures ParseMiddle(MachineMiddle(m), EncOpnd(m, a) + rest) == Ok(MiddleOf(m, a), rest)
  {
    if m == NoOperand { assert [] + rest == rest; } else { ConstRoundTrip(Direct(m, a), rest); }
  }

  lemma OpndRoundTrip(m: Mode, a: Addr, rest: Bytes)
    requires AddrOk(m, a) && m != Err
    ensures ParseOpnd(MachineMode(m), EncOpnd(m, a) + rest) == Ok(OpndOf(m, a), rest)
  {
    hide ParseOperand, EncConst;
    if m == NoOperand {
      assert [] + rest == rest;
    } else if Indirect(m) {
      assert EncConst(a.reg) + EncConst(a.offset) + rest == EncConst(a.reg) + (EncConst(a.offset) + rest);
      ConstRoundTrip(a.reg, EncConst(a.offset) + rest);
      ConstRoundTrip(a.offset, rest);
    } else {
      ConstRoundTrip(Direct(m, a), rest);
    }
  }

  /** The machine takes the byte apart into the modes that the compiler put together. */
  lemma ModesSurvive(i: Inst)
    ensures MiddlePart(ModeByte(i)) == MachineMiddle(i.mm)
    ensures SourcePart(ModeByte(i)) == MachineMode(i.sm) && DestinationPart(ModeByte(i)) == MachineMode(i.dm)
  {
    var code := ModeByte(i);
    assert code / 64 == DisRegMode(i.mm) && code / 8 % 8 == DisMode(i.sm) && code % 8 == DisMode(i.dm);
  }

  lemma InstRoundTrip(i: Inst, rest: Bytes)
    requires InstOk(i)
    ensures ParseInstr(EncInst(i) + rest) == Ok(InstrOf(i), rest)
  {
    hide EncOpnd, ParseMiddle, ParseOpnd, MiddleOf, OpndOf;
    var s := EncInst(i) + rest;
    var u := EncOpnd(i.dm, i.d) + rest;
    var t := EncOpnd(i.sm, i.s) + u;
    assert s[2..] == EncOpnd(i.mm, i.m) + t;
    var code := At(s, 1);
    ModesSurvive(i);
    MiddleRoundTrip(i.mm, i.m, t);
    OpndRoundTrip(i.sm, i.s, u);
    OpndRoundTrip(i.dm, i.d, rest);
  }

  // ---- what an operand refers to ----

  /** An operand of an instruction being executed: a place in memory, a constant, nil behind a nil pointer, or nothing. */
  datatype Place = Address(at: int) | Constant(value: int) | Nil | NoPlace

  /** The memory registers and the words in memory. */
  datatype Memory = Memory(fp: int, mp: int, load: int -> int)

  function Behind(p: int, offset: int): Place { if p == 0 then Nil else Address(p + offset) }

  /** What the compiler's listing of an operand denotes: `reg(fp)`, `offset(reg(fp))`, `$offset` and so on. */
  function Listed(m: Mode, a: Addr, mem: Memory): Place {
    match m
    case NoOperand => NoPlace
    case Err => NoPlace
    case Fp => Address(mem.fp + a.reg)
    case Mp => Address(mem.mp + a.reg)
    case FpInd => Behind(mem.load(mem.fp + a.reg), a.offset)
    case MpInd => Behind(mem.load(mem.mp + a.reg), a.offset)
    case Imm => Constant(a.offset)
    case Pc => Constant(a.offset)
    case Desc => Constant(a.offset)
    case Off => Constant(a.iface)
    case Noff => Constant(-(a.iface + 1))
    case Ldt => Constant(a.reg)
  }

  function DecodeOpnd(mode: AddressMode, o: Opnd, mem: Memory): Place {
    match mode
    case OffsetIndirectFp => Address(mem.fp + o.register1)
    case OffsetIndirectMp => Address(mem.mp + o.register1)
    case OffsetDoubleIndirectFp => Behind(mem.load(mem.fp + o.register1), o.register2)
    case OffsetDoubleIndirectMp => Behind(mem.load(mem.mp + o.register1), o.register2)
    case Immediate => Constant(o.register1)
    case _ => NoPlace
  }

  /** Without a middle operand the destination is used. */
  function DecodeMiddle(mode: MiddleMode, m: Middle, destination: Place, mem: Memory): Place {
    match mode
    case SmallOffsetIndirectFp => Address(mem.fp + m.register1)
    case SmallOffsetIndirectMp => Address(mem.mp + m.register1)
    case SmallImmediate => Constant(m.register1)
    case NoMiddle => destination
  }

  datatype Decoded = Decoded(src: Place, mid: Place, dest: Place)

  /** decode_address. */
  function DecodeAddress(x: Instr, mem: Memory): Decoded {
    var dest := DecodeOpnd(DestinationPart(x.addr_code), x.destination, mem);
    Decoded(DecodeOpnd(SourcePart(x.addr_code), x.source, mem), DecodeMiddle(MiddlePart(x.addr_code), x.middle, dest, mem), dest)
  }

  /** Whatever the registers and the memory, the operands of a written instruction refer, when the machine has read and decoded
      it, to what the compiler's listing says. */
  lemma OperandsMeanWhatIsListed(i: Inst, rest: Bytes, mem: Memory)
    requires InstOk(i)
    ensures match ParseInstr(EncInst(i) + rest)
            case Ok(x, t) =>
              && t == rest && x.opcode == i.op
              && DecodeAddress(x, mem) == Decoded(
                   Listed(i.sm, i.s, mem),
                   if i.mm == NoOperand then Listed(i.dm, i.d, mem) else Listed(i.mm, i.m, mem),
                   Listed(i.dm, i.d, mem))
            case Fail => false
  {
    hide ParseInstr, EncInst, ModeByte, Listed, OpndOf, MiddleOf, DecodeOpnd, DecodeMiddle, AddrOk;
    InstRoundTrip(i, rest);
    ModesSurvive(i);
    OpndMeans(i.sm, i.s, mem);
    OpndMeans(i.dm, i.d, mem);
    MiddleMeans(i.mm, i.m, Listed(i.dm, i.d, mem), mem);
  }

  lemma OpndMeans(m: Mode, a: Addr, mem: Memory)
    ensures DecodeOpnd(MachineMode(m), OpndOf(m, a), mem) == Listed(m, a, mem)
  {
  }

  lemma MiddleMeans(m: Mode, a: Addr, destination: Place, mem: Memory)
    requires m != Err && !Indirect(m)
    ensures DecodeMiddle(MachineMiddle(m), MiddleOf(m, a), destination, mem) ==
            if m == NoOperand then destination else Listed(m, a, mem)
  {
  }

  // ---- type descriptors ----

  datatype TypeDesc = TypeDesc(id: int, size: int, map_bytes: Bytes)

  const MAX_MAP := 128 * 1024

  function EncType(d: TypeDesc): Bytes { EncConst(d.id) + (EncConst(d.size) + (EncConst(|d.map_bytes|) + d.map_bytes)) }

  predicate TypeOk(d: TypeDesc) { IsOperand(d.id) && IsOperand(d.size) && |d.map_bytes| <= MAX_MAP }

  function ParseType(s: Bytes): Parse<TypeDesc> {
    match ParseOperand(s)
    case Fail => Fail
    case Ok(id, t) =>
      match ParseOperand(t)
      case Fail => Fail
      case Ok(size, u) =>
        match ParseOperand(u)
        case Fail => Fail
        case Ok(n, v) =>
          if n > MAX_MAP || n < 0 then Fail
          else match ParseBytes(v, n) case Ok(b, rest) => Ok(TypeDesc(id, size, b), rest) case Fail => Fail
  }

  lemma TypeRoundTrip(d: TypeDesc, rest: Bytes)
    requires TypeOk(d)
    ensures ParseType(EncType(d) + rest) == Ok(d, rest)
  {
    hide ParseOperand, EncConst;
    var v := d.map_bytes + rest;
    var u := EncConst(|d.map_bytes|) + v;
    var t := EncConst(d.size) + u;
    assert EncType(d) + rest == EncConst(d.id) + t;
    ConstRoundTrip(d.id, t);
    ConstRoundTrip(d.size, u);
    ConstRoundTrip(|d.map_bytes|, v);
    BytesRoundTrip(d.map_bytes, rest);
  }

  /** The descriptors by their number. */
  function TypeTable(types: seq<TypeDesc>): map<int, TypeDesc> {
    if types == [] then map[] else TypeTable(types[..|types| - 1])[types[|types| - 1].id := types[|types| - 1]]
  }

  // ---- exports and imports ----

  datatype Export = Export(pc: int, frame_type: int, sig: int, name: Bytes)

  /** What the linkage of a module holds: its data, or a function, perhaps of an adt. */
  datatype Link = Data(sig: int) | Function(pc: int, desc: int, sig: int, adt: Option<Bytes>, name: Bytes)

  const MP_NAME: Bytes := [46, 109, 112]
  const DOT: Byte := 46

  function Qualified(adt: Option<Bytes>, name: Bytes): Bytes { if adt == None then name else adt.value + [DOT] + name }

  function ExportOf(l: Link): Export {
    match l
    case Data(sig) => Export(-1, -1, sig, MP_NAME)
    case Function(pc, desc, sig, adt, name) => Export(pc, desc, sig, Qualified(adt, name))
  }

  function EncLink(l: Link): Bytes {
    match l
    case Data(sig) => EncConst(-1) + (EncConst(-1) + (EncWord(sig) + EncName(MP_NAME)))
    case Function(pc, desc, sig, adt, name) => EncConst(pc) + (EncConst(desc) + (EncWord(sig) + EncName(Qualified(adt, name))))
  }

  predicate NameOk(adt: Option<Bytes>, name: Bytes) { 0 !in name && (adt != None ==> 0 !in adt.value) }

  predicate LinkOk(l: Link) {
    Int32(l.sig) && (l.Function? ==> IsOperand(l.pc) && IsOperand(l.desc) && NameOk(l.adt, l.name))
  }

  function ParseExport(s: Bytes): Parse<Export> {
    match ParseOperand(s)
    case Fail => Fail
    case Ok(pc, t) =>
      match ParseOperand(t)
      case Fail => Fail
      case Ok(frame_type, u) =>
        match ParseWord(u)
        case Fail => Fail
        case Ok(sig, v) =>
          match ParseName(v) case Ok(name, rest) => Ok(Export(pc, frame_type, sig, name), rest) case Fail => Fail
  }

  lemma LinkRoundTrip(l: Link, rest: Bytes)
    requires LinkOk(l)
    ensures ParseExport(EncLink(l) + rest) == Ok(ExportOf(l), rest)
  {
    hide ParseOperand, EncConst, ParseWord, EncWord, ParseName, EncName;
    var e := ExportOf(l);
    var v := EncName(e.name) + rest;
    var u := EncWord(e.sig) + v;
    var t := EncConst(e.frame_type) + u;
    assert EncLink(l) + rest == EncConst(e.pc) + t;
    assert 0 !in e.name;
    ConstRoundTrip(e.pc, t);
    ConstRoundTrip(e.frame_type, u);
    WordRoundTrip(e.sig, v);
    NameRoundTrip(e.name, rest);
  }

  datatype Import = Import(sig: int, name: Bytes)

  datatype Wanted = Wanted(sig: int, adt: Option<Bytes>, name: Bytes)

  function ImportOf(w: Wanted): Import { Import(w.sig, Qualified(w.adt, w.name)) }

  function EncImport(w: Wanted): Bytes { EncWord(w.sig) + EncName(Qualified(w.adt, w.name)) }

  predicate WantedOk(w: Wanted) { Int32(w.sig) && NameOk(w.adt, w.name) }

  function ParseImport(s: Bytes): Parse<Import> {
    match ParseWord(s)
    case Fail => Fail
    case Ok(sig, t) => match ParseName(t) case Ok(name, rest) => Ok(Import(sig, name), rest) case Fail => Fail
  }

  lemma ImportRoundTrip(w: Wanted, rest: Bytes)
    requires WantedOk(w)
    ensures ParseImport(EncImport(w) + rest) == Ok(ImportOf(w), rest)
  {
    hide ParseWord, EncWord, ParseName, EncName;
    var name := Qualified(w.adt, w.name);
    assert EncImport(w) + rest == EncWord(w.sig) + (EncName(name) + rest);
    WordRoundTrip(w.sig, EncName(name) + rest);
    NameRoundTrip(name, rest);
  }

  /** The functions wanted from one module, with their number. */
  function EncImports(ws: seq<Wanted>): Bytes { EncConst(|ws|) + EncMany(ws, EncImport) }

  function ImportsOf(ws: seq<Wanted>): seq<Import> { Mapped(ws, ImportOf) }

  ghost predicate WantedsOk(ws: seq<Wanted>) { |ws| < LIMIT && forall i :: 0 <= i < |ws| ==> WantedOk(ws[i]) }

  function ParseImports(s: Bytes): Parse<seq<Import>> {
    match ParseOperand(s) case Ok(n, t) => ParseMany(n, ParseImport, t) case Fail => Fail
  }

  lemma ImportsRoundTrip(ws: seq<Wanted>, rest: Bytes)
    requires WantedsOk(ws)
    ensures ParseImports(EncImports(ws) + rest) == Ok(ImportsOf(ws), rest)
  {
    hide ParseOperand, EncConst, EncImport, ParseImport;
    var t := EncMany(ws, EncImport) + rest;
    assert EncImports(ws) + rest == EncConst(|ws|) + t;
    ConstRoundTrip(|ws|, t);
    forall i | 0 <= i < |ws| ensures ReadsBack(ws[i], EncImport, ParseImport, ImportOf) {
      forall r: Bytes ensures ParseImport(EncImport(ws[i]) + r) == Ok(ImportOf(ws[i]), r) { ImportRoundTrip(ws[i], r); }
    }
    ManyRoundTrip(ws, EncImport, ParseImport, ImportOf, rest);
  }

  // ---- exception handlers ----

  datatype Catch = Catch(name: Bytes, pc: int)

  /** A handler of the compiler; unreached ones are not written. */
  datatype Except = Except(
    reached: bool, offset: int, begin: int, end: int, desc: Option<int>, ne: nat, labs: seq<Catch>, wild: Option<int>)

  /** The loader's handler: no name for the entry that catches everything else. */
  datatype Entry = Entry(name: Option<Bytes>, pc: int)

  datatype Handler = Handler(offset: int, begin: int, end: int, desc: Option<int>, type_count: int, table: seq<Entry>)

  function EncCatch(c: Catch): Bytes { EncName(c.name) + EncConst(c.pc) }

  predicate CatchOk(c: Catch) { 0 !in c.name && IsOperand(c.pc) }

  function OrMinusOne(v: Option<int>): int { if v == None then -1 else v.value }

  function EncExcept(e: Except): Bytes {
    EncConst(e.offset) + (EncConst(e.begin) + (EncConst(e.end) + (EncConst(OrMinusOne(e.desc)) +
      (EncConst(e.ne * 0x1_0000 + |e.labs|) + (EncMany(e.labs, EncCatch) + EncConst(OrMinusOne(e.wild)))))))
  }

  ghost predicate ExceptOk(e: Except) {
    && IsOperand(e.offset) && IsOperand(e.begin) && IsOperand(e.end)
    && IsOperand(OrMinusOne(e.desc)) && IsOperand(OrMinusOne(e.wild))
    && |e.labs| < 0x1_0000 && e.ne < 0x2000 && e.desc != Some(-1)
    && forall i :: 0 <= i < |e.labs| ==> CatchOk(e.labs[i])
  }

  function EntryOf(c: Catch): Entry { Entry(Some(c.name), c.pc) }

  function HandlerOf(e: Except): Handler {
    Handler(e.offset, e.begin, e.end, e.desc, e.ne, Mapped(e.labs, EntryOf) + [Entry(None, OrMinusOne(e.wild))])
  }

  function ParseCatch(s: Bytes): Parse<Entry> {
    match ParseName(s)
    case Fail => Fail
    case Ok(name, t) => match ParseOperand(t) case Ok(pc, rest) => Ok(Entry(Some(name), pc), rest) case Fail => Fail
  }

  lemma CatchRoundTrip(c: Catch, rest: Bytes)
    requires CatchOk(c)
    ensures ParseCatch(EncCatch(c) + rest) == Ok(EntryOf(c), rest)
  {
    hide ParseOperand, EncConst, ParseName, EncName;
    assert EncCatch(c) + rest == EncName(c.name) + (EncConst(c.pc) + rest);
    NameRoundTrip(c.name, EncConst(c.pc) + rest);
    ConstRoundTrip(c.pc, rest);
  }

  /** The table and the entry for everything else. */
  function ParseTable(n: nat, s: Bytes): Parse<seq<Entry>> {
    match ParseMany(n, ParseCatch, s)
    case Fail => Fail
    case Ok(table, t) => match ParseOperand(t) case Ok(pc, rest) => Ok(table + [Entry(None, pc)], rest) case Fail => Fail
  }

  function ParseHandler(s: Bytes): Parse<Handler> {
    match ParseOperand(s)
    case Fail => Fail
    case Ok(offset, t) =>
      match ParseOperand(t)
      case Fail => Fail
      case Ok(begin, u) =>
        match ParseOperand(u)
        case Fail => Fail
        case Ok(end, v) =>
          match ParseOperand(v)
          case Fail => Fail
          case Ok(desc, w) =>
            match ParseOperand(w)
            case Fail => Fail
            case Ok(n, x) =>
              match ParseTable(n % 0x1_0000, x)
              case Fail => Fail
              case Ok(table, rest) =>
                Ok(Handler(offset, begin, end, if desc == -1 then None else Some(desc), n / 0x1_0000, table), rest)
  }

  lemma TableRoundTrip(labs: seq<Catch>, wild: int, rest: Bytes)
    requires IsOperand(wild) && forall i :: 0 <= i < |labs| ==> CatchOk(labs[i])
    ensures ParseTable(|labs|, EncMany(labs, EncCatch) + (EncConst(wild) + rest)) ==
            Ok(Mapped(labs, EntryOf) + [Entry(None, wild)], rest)
  {
    hide ParseOperand, EncConst, EncCatch, ParseCatch;
    forall i | 0 <= i < |labs| ensures ReadsBack(labs[i], EncCatch, ParseCatch, EntryOf) {
      forall r: Bytes ensures ParseCatch(EncCatch(labs[i]) + r) == Ok(EntryOf(labs[i]), r) { CatchRoundTrip(labs[i], r); }
    }
    ManyRoundTrip(labs, EncCatch, ParseCatch, EntryOf, EncConst(wild) + rest);
    ConstRoundTrip(wild, rest);
  }

  lemma ExceptRoundTrip(e: Except, rest: Bytes)
    requires ExceptOk(e)
    ensures ParseHandler(EncExcept(e) + rest) == Ok(HandlerOf(e), rest)
  {
    hide ParseOperand, EncConst, ParseTable, EncMany;
    var n := e.ne * 0x1_0000 + |e.labs|;
    var y := EncConst(OrMinusOne(e.wild)) + rest;
    var x := EncMany(e.labs, EncCatch) + y;
    var w := EncConst(n) + x;
    var v := EncConst(OrMinusOne(e.desc)) + w;
    var u := EncConst(e.end) + v;
    var t := EncConst(e.begin) + u;
    assert EncExcept(e) + rest == EncConst(e.offset) + t;
    ConstRoundTrip(e.offset, t);
    ConstRoundTrip(e.begin, u);
    ConstRoundTrip(e.end, v);
    ConstRoundTrip(OrMinusOne(e.desc), w);
    ConstRoundTrip(n, x);
    assert n % 0x1_0000 == |e.labs| && n / 0x1_0000 == e.ne;
    TableRoundTrip(e.labs, OrMinusOne(e.wild), rest);
  }

  // ---- whole modules ----

  const XMAGIC := 819248
  const SMAGIC := 923426
  const NAMELEN := 28

  /** Bits of the runtime flags. */
  const DEPRECATED_IMPORT := 4
  const HAS_HANDLER := 5
  const HAS_IMPORT := 6

  function Power2(k: nat): (p: nat)
    ensures p > 0
  {
    if k == 0 then 1 else 2 * Power2(k - 1)
  }

  predicate HasFlag(flags: int, k: nat) { flags / Power2(k) % 2 == 1 }

  datatype Header = Header(
    magic: int, signature: Bytes, flags: int, stack_extent: int, code_size: int, data_size: int, type_size: int, export_size: int,
    entry_pc: int, entry_type: int)

  datatype Module = Module(
    header: Header, code: seq<Instr>, types: map<int, TypeDesc>, image: Image, name: Bytes, exports: multiset<Export>,
    imports: seq<seq<Import>>, handlers: seq<Handler>)

  /** What the compiler has to write. */
  datatype Program = Program(
    mustcompile: bool, dontcompile: bool, maxstack: int, insts: seq<Inst>, offset: int, types: seq<TypeDesc>, globals: Parts,
    name: Bytes, links: seq<Link>, entry: Option<(int, int)>, wanted: seq<seq<Wanted>>, excs: seq<Except>, path: Bytes)

  function Hints(p: Program): int {
    (if p.mustcompile then 1 else 0) + (if p.dontcompile then 2 else 0) + 64 + (if p.excs != [] then 32 else 0)
  }

  function Written(insts: seq<Inst>): seq<Inst> {
    if insts == [] then [] else (if insts[0].op == INOOP then [] else [insts[0]]) + Written(insts[1..])
  }

  function Reached(excs: seq<Except>): seq<Except> {
    if excs == [] then [] else (if excs[0].reached then [excs[0]] else []) + Reached(excs[1..])
  }

  /** Only the markers go: an instruction of the machine, whose number is below 176, is always written. */
  lemma {:induction false} WrittenKeepsInstructions(insts: seq<Inst>)
    ensures forall i :: i in Written(insts) ==> i in insts
    ensures forall i :: i in insts && i.op < 176 ==> i in Written(insts)
    ensures (forall i :: i in insts ==> i.op < 176) ==> Written(insts) == insts
  {
    if insts != [] {
      WrittenKeepsInstructions(insts[1..]);
      assert insts == [insts[0]] + insts[1..];
    }
  }

  /** Exactly the handlers that are reached. */
  lemma {:induction false} ReachedAre(excs: seq<Except>)
    ensures forall e :: e in Reached(excs) <==> e in excs && e.reached
    ensures (forall e :: e in excs ==> e.reached) ==> Reached(excs) == excs
  {
    if excs != [] {
      ReachedAre(excs[1..]);
      assert excs == [excs[0]] + excs[1..];
    }
  }

  function Truncated(name: Bytes): Bytes { if |name| > NAMELEN - 1 then name[..NAMELEN - 1] else name }

  function Entry0(p: Program): (int, int) { if p.entry == None then (-1, -1) else p.entry.value }

  function HeaderFields(p: Program): seq<int> {
    [Hints(p), p.maxstack, |Written(p.insts)|, p.offset, |p.types|, |p.links|, Entry0(p).0, Entry0(p).1]
  }

  function HeaderOf(p: Program): Header {
    Header(819248, [], Hints(p), p.maxstack, |Written(p.insts)|, p.offset, |p.types|, |p.links|,
           if p.entry == None then -1 else p.entry.value.0, if p.entry == None then -1 else p.entry.value.1)
  }

  function ModuleOf(p: Program, image: Image): Module {
    Module(HeaderOf(p), Mapped(Written(p.insts), InstrOf), TypeTable(p.types), image, Truncated(p.name),
           multiset(Mapped(p.links, ExportOf)), Mapped(p.wanted, ImportsOf), Mapped(Reached(p.excs), HandlerOf))
  }

  /** What must hold of a program for its module to be readable; anything else does not fit the format. */
  ghost predicate ProgramOk(p: Program) {
    && (forall i :: 0 <= i < 8 ==> IsOperand(HeaderFields(p)[i]))
    && (forall i :: 0 <= i < |Written(p.insts)| ==> InstOk(Written(p.insts)[i]))
    && (Entry0(p).0 != -1 ==> 0 <= Entry0(p).0 < |Written(p.insts)|)
    && (forall i :: 0 <= i < |p.types| ==> TypeOk(p.types[i]) && 0 <= p.types[i].id < |p.types|)
    && (p.offset != 0 ==> 0 in TypeTable(p.types) && TypeTable(p.types)[0].size == p.offset)
    && 0 !in p.name && 0 !in p.path
    && (forall i :: 0 <= i < |p.links| ==> LinkOk(p.links[i]))
    && |p.wanted| < LIMIT && (forall i :: 0 <= i < |p.wanted| ==> WantedsOk(p.wanted[i]))
    && |Reached(p.excs)| < LIMIT
    && (forall i :: 0 <= i < |Reached(p.excs)| ==>
          ExceptOk(Reached(p.excs)[i]) && DescOk(Reached(p.excs)[i].desc, TypeTable(p.types)))
  }

  predicate DescOk(desc: Option<int>, types: map<int, TypeDesc>) { desc == None || desc.value in types }

  // ---- the bytes of a module ----

  function EncFront(p: Program): Bytes {
    EncConst(XMAGIC) + (EncMany(HeaderFields(p), EncConst) + (EncMany(Written(p.insts), EncInst) + EncMany(p.types, EncType)))
  }

  function EncImportSection(wanted: seq<seq<Wanted>>): Bytes { EncConst(|wanted|) + (EncMany(wanted, EncImports) + [0]) }

  function EncHandlerSection(excs: seq<Except>): Bytes {
    if excs == [] then [] else EncConst(|Reached(excs)|) + (EncMany(Reached(excs), EncExcept) + [0])
  }

  function EncBack(p: Program): Bytes {
    EncName(Truncated(p.name)) +
      (EncMany(p.links, EncLink) + (EncImportSection(p.wanted) + (EncHandlerSection(p.excs) + EncName(p.path))))
  }

  ghost function EncModule(p: Program, items: seq<Item>): Bytes
    requires AllWritable(items)
  {
    EncFront(p) + (EncItems(items) + [0] + EncBack(p))
  }

  // ---- parsing a module ----

  function ParseSignature(magic: int, s: Bytes): Parse<Bytes> {
    if magic == SMAGIC then
      match ParseOperand(s)
      case Fail => Fail
      case Ok(n, t) => if n < 0 then Fail else ParseBytes(t, n)
    else if magic == XMAGIC then Ok([], s)
    else Fail
  }

  function ParseHeader(s: Bytes): Parse<Header> {
    match ParseOperand(s)
    case Fail => Fail
    case Ok(magic, t) =>
      match ParseSignature(magic, t)
      case Fail => Fail
      case Ok(signature, u) =>
        match ParseMany(8, ParseOperand, u)
        case Fail => Fail
        case Ok(f, rest) =>
          ManyCount(8, ParseOperand, u);
          Ok(Header(magic, signature, f[0], f[1], f[2], f[3], f[4], f[5], f[6], f[7]), rest)
  }

  lemma {:induction false} ManyCount<T>(n: int, p: Bytes -> Parse<T>, s: Bytes)
    ensures ParseMany(n, p, s).Ok? ==> n >= 0 && |ParseMany(n, p, s).value| == n
    decreases if n > 0 then n else 0
  {
    if n > 0 && p(s).Ok? { ManyCount(n - 1, p, p(s).rest); }
  }

  function ParseCode(h: Header, s: Bytes): Parse<seq<Instr>> {
    match ParseMany(h.code_size, ParseInstr, s)
    case Fail => Fail
    case Ok(code, rest) => if h.entry_pc == -1 || 0 <= h.entry_pc < |code| then Ok(code, rest) else Fail
  }

  predicate InRange(types: seq<TypeDesc>, n: int) { forall i :: 0 <= i < |types| ==> 0 <= types[i].id < n }

  function ParseTypes(h: Header, s: Bytes): Parse<map<int, TypeDesc>> {
    match ParseMany(h.type_size, ParseType, s)
    case Fail => Fail
    case Ok(types, rest) => if InRange(types, h.type_size) then Ok(TypeTable(types), rest) else Fail
  }

  /** The module data before any initial value: one object of the size of type 0. */
  function EmptyImage(data_size: int): Image { Image([Obj(0, data_size, map[])], Base(0, 0), []) }

  function ParseData(h: Header, types: map<int, TypeDesc>, s: Bytes): Parse<Image> {
    if h.data_size != 0 && (0 !in types || types[0].size != h.data_size) then Fail
    else ReadItems(s, EmptyImage(h.data_size))
  }

  function ParseZero<T>(value: T, s: Bytes): Parse<T> { if s != [] && s[0] == 0 then Ok(value, s[1..]) else Fail }

  function ParseImportSection(s: Bytes): Parse<seq<seq<Import>>> {
    match ParseOperand(s)
    case Fail => Fail
    case Ok(n, t) => match ParseMany(n, ParseImports, t) case Ok(imports, u) => ParseZero(imports, u) case Fail => Fail
  }

  function ParseHandlerSection(types: map<int, TypeDesc>, s: Bytes): Parse<seq<Handler>> {
    match ParseOperand(s)
    case Fail => Fail
    case Ok(n, t) =>
      match ParseMany(n, ParseHandler, t)
      case Fail => Fail
      case Ok(handlers, u) =>
        if forall i :: 0 <= i < |handlers| ==> DescOk(handlers[i].desc, types) then ParseZero(handlers, u) else Fail
  }

  function ParseFront(s: Bytes): Parse<(Header, seq<Instr>, map<int, TypeDesc>)> {
    match ParseHeader(s)
    case Fail => Fail
    case Ok(h, t) =>
      if HasFlag(h.flags, DEPRECATED_IMPORT) then Fail
      else match ParseCode(h, t)
        case Fail => Fail
        case Ok(code, u) => match ParseTypes(h, u) case Ok(types, rest) => Ok((h, code, types), rest) case Fail => Fail
  }

  function ParseBack(h: Header, code: seq<Instr>, types: map<int, TypeDesc>, image: Image, s: Bytes): Parse<Module> {
    match ParseName(s)
    case Fail => Fail
    case Ok(name, t) =>
      match ParseMany(h.export_size, ParseExport, t)
      case Fail => Fail
      case Ok(exports, u) =>
        match (if HasFlag(h.flags, HAS_IMPORT) then ParseImportSection(u) else Ok([], u))
        case Fail => Fail
        case Ok(imports, v) =>
          match (if HasFlag(h.flags, HAS_HANDLER) then ParseHandlerSection(types, v) else Ok([], v))
          case Fail => Fail
          case Ok(handlers, rest) => Ok(Module(h, code, types, image, name, multiset(exports), imports, handlers), rest)
  }

  function ParseModule(s: Bytes): Parse<Module> {
    match ParseFront(s)
    case Fail => Fail
    case Ok(front, t) =>
      match ParseData(front.0, front.2, t)
      case Fail => Fail
      case Ok(image, u) => ParseBack(front.0, front.1, front.2, image, u)
  }

  /** Nothing but a module with one of the two magic numbers is loaded, and an unsigned one is what the compiler writes: its
      first bytes are C0 0C 80 30. */
  lemma MagicNumbers(s: Bytes, p: Program, items: seq<Item>)
    requires AllWritable(items)
    ensures ParseModule(s).Ok? ==>
      ParseOperand(s).Ok? && (ParseOperand(s).value == 819248 || ParseOperand(s).value == 923426)
    ensures |EncModule(p, items)| >= 4 && EncModule(p, items)[..4] == [0xC0, 0x0C, 0x80, 0x30]
  {
    hide ParseModule, EncModule, EncFront, EncConst, EncItems, EncBack;
    MagicFirst(s);
    StartsWith(p, items);
    MagicBytes();
  }

  lemma MagicBytes()
    ensures EncConst(XMAGIC) == [0xC0, 0x0C, 0x80, 0x30]
  {
  }

  lemma StartsWith(p: Program, items: seq<Item>)
    requires AllWritable(items)
    ensures EncConst(XMAGIC) <= EncModule(p, items)
  {
    hide EncConst, EncItems, EncBack, EncMany;
  }

  lemma MagicFirst(s: Bytes)
    ensures ParseModule(s).Ok? ==> ParseFront(s).Ok? && ParseHeader(s).Ok? && ParseOperand(s).Ok?
    ensures ParseModule(s).Ok? ==> ParseOperand(s).value == 819248 || ParseOperand(s).value == 923426
  {
    hide ParseOperand, ParseCode, ParseTypes, ParseData, ParseBack, ParseMany;
  }

  // ---- reading a module undoes writing it ----

  lemma HeaderRoundTrip(p: Program, rest: Bytes)
    requires forall i :: 0 <= i < 8 ==> IsOperand(HeaderFields(p)[i])
    ensures ParseHeader(EncConst(XMAGIC) + (EncMany(HeaderFields(p), EncConst) + rest)) == Ok(HeaderOf(p), rest)
  {
    hide ParseOperand, EncConst, EncMany, ParseMany;
    var f := HeaderFields(p);
    ConstRoundTrip(XMAGIC, EncMany(f, EncConst) + rest);
    var id := (v: int) => v;
    forall i | 0 <= i < |f| ensures ReadsBack(f[i], EncConst, ParseOperand, id) {
      forall r: Bytes ensures ParseOperand(EncConst(f[i]) + r) == Ok(f[i], r) { ConstRoundTrip(f[i], r); }
    }
    ManyRoundTrip(f, EncConst, ParseOperand, id, rest);
    assert Mapped(f, id) == f;
  }

  lemma CodeRoundTrip(p: Program, rest: Bytes)
    requires ProgramOk(p)
    ensures ParseCode(HeaderOf(p), EncMany(Written(p.insts), EncInst) + rest) == Ok(Mapped(Written(p.insts), InstrOf), rest)
  {
    var insts := Written(p.insts);
    assert forall i :: 0 <= i < |insts| ==> InstOk(insts[i]);
    hide ProgramOk, EncInst, ParseInstr, EncMany, ParseMany;
    forall i | 0 <= i < |insts| ensures ReadsBack(insts[i], EncInst, ParseInstr, InstrOf) {
      forall r: Bytes ensures ParseInstr(EncInst(insts[i]) + r) == Ok(InstrOf(insts[i]), r) { InstRoundTrip(insts[i], r); }
    }
    ManyRoundTrip(insts, EncInst, ParseInstr, InstrOf, rest);
    EntryInRange(p);
  }

  lemma EntryInRange(p: Program)
    requires ProgramOk(p)
    ensures HeaderOf(p).entry_pc == -1 || 0 <= HeaderOf(p).entry_pc < |Written(p.insts)|
  {
  }

  lemma TypesRoundTrip(p: Program, rest: Bytes)
    requires ProgramOk(p)
    ensures ParseTypes(HeaderOf(p), EncMany(p.types, EncType) + rest) == Ok(TypeTable(p.types), rest)
  {
    HintsAreFlags(p);
    FrontParts(p);
    TypesInRange(p);
    hide ProgramOk, EncMany, ParseMany, TypeTable, HeaderOf, InRange, TypeOk;
    TypeListRoundTrip(p.types, rest);
  }

  lemma TypesInRange(p: Program)
    requires ProgramOk(p)
    ensures InRange(p.types, |p.types|)
  {
  }

  lemma TypeListRoundTrip(types: seq<TypeDesc>, rest: Bytes)
    requires forall i :: 0 <= i < |types| ==> TypeOk(types[i])
    ensures ParseMany(|types|, ParseType, EncMany(types, EncType) + rest) == Ok(types, rest)
  {
    hide EncType, ParseType, EncMany, ParseMany, TypeOk;
    forall i | 0 <= i < |types| ensures ReadsBack(types[i], EncType, ParseType, SameType) {
      forall r: Bytes ensures ParseType(EncType(types[i]) + r) == Ok(types[i], r) { TypeRoundTrip(types[i], r); }
    }
    ManyRoundTrip(types, EncType, ParseType, SameType, rest);
    assert Mapped(types, SameType) == types;
  }

  function SameType(d: TypeDesc): TypeDesc { d }

  lemma LinksRoundTrip(links: seq<Link>, rest: Bytes)
    requires forall i :: 0 <= i < |links| ==> LinkOk(links[i])
    ensures ParseMany(|links|, ParseExport, EncMany(links, EncLink) + rest) == Ok(Mapped(links, ExportOf), rest)
  {
    hide EncLink, ParseExport, EncMany, ParseMany;
    forall i | 0 <= i < |links| ensures ReadsBack(links[i], EncLink, ParseExport, ExportOf) {
      forall r: Bytes ensures ParseExport(EncLink(links[i]) + r) == Ok(ExportOf(links[i]), r) { LinkRoundTrip(links[i], r); }
    }
    ManyRoundTrip(links, EncLink, ParseExport, ExportOf, rest);
  }

  lemma ImportSectionRoundTrip(wanted: seq<seq<Wanted>>, rest: Bytes)
    requires |wanted| < LIMIT && forall i :: 0 <= i < |wanted| ==> WantedsOk(wanted[i])
    ensures ParseImportSection(EncImportSection(wanted) + rest) == Ok(Mapped(wanted, ImportsOf), rest)
  {
    hide EncImports, ParseImports, ParseOperand, EncConst, EncMany, ParseMany, WantedsOk;
    var u := [0] + rest;
    assert u[1..] == rest;
    var t := EncMany(wanted, EncImports) + u;
    assert EncImportSection(wanted) + rest == EncConst(|wanted|) + t;
    ConstRoundTrip(|wanted|, t);
    forall i | 0 <= i < |wanted| ensures ReadsBack(wanted[i], EncImports, ParseImports, ImportsOf) {
      forall r: Bytes ensures ParseImports(EncImports(wanted[i]) + r) == Ok(ImportsOf(wanted[i]), r) {
        ImportsRoundTrip(wanted[i], r);
      }
    }
    ManyRoundTrip(wanted, EncImports, ParseImports, ImportsOf, u);
  }

  lemma HandlerSectionRoundTrip(excs: seq<Except>, types: map<int, TypeDesc>, rest: Bytes)
    requires excs != [] && |Reached(excs)| < LIMIT
    requires forall i :: 0 <= i < |Reached(excs)| ==> ExceptOk(Reached(excs)[i]) && DescOk(Reached(excs)[i].desc, types)
    ensures ParseHandlerSection(types, EncHandlerSection(excs) + rest) == Ok(Mapped(Reached(excs), HandlerOf), rest)
  {
    hide EncExcept, ParseHandler, ParseOperand, EncConst, EncMany, ParseMany, ExceptOk, Reached;
    var es := Reached(excs);
    var u := [0] + rest;
    assert u[1..] == rest;
    var t := EncMany(es, EncExcept) + u;
    assert EncHandlerSection(excs) + rest == EncConst(|es|) + t;
    ConstRoundTrip(|es|, t);
    forall i | 0 <= i < |es| ensures ReadsBack(es[i], EncExcept, ParseHandler, HandlerOf) {
      forall r: Bytes ensures ParseHandler(EncExcept(es[i]) + r) == Ok(HandlerOf(es[i]), r) { ExceptRoundTrip(es[i], r); }
    }
    ManyRoundTrip(es, EncExcept, ParseHandler, HandlerOf, u);
    assert forall i :: 0 <= i < |es| ==> Mapped(es, HandlerOf)[i].desc == es[i].desc;
  }

  lemma FlagsOf(p: Program)
    ensures !HasFlag(Hints(p), DEPRECATED_IMPORT) && HasFlag(Hints(p), HAS_IMPORT)
    ensures HasFlag(Hints(p), HAS_HANDLER) <==> p.excs != []
  {
    assert Power2(1) == 2 && Power2(2) == 4 && Power2(3) == 8 && Power2(4) == 16;
    assert Power2(5) == 32 && Power2(6) == 64;
  }

  lemma FrontRoundTrip(p: Program, rest: Bytes)
    requires ProgramOk(p)
    ensures ParseFront(EncFront(p) + rest) == Ok((HeaderOf(p), Mapped(Written(p.insts), InstrOf), TypeTable(p.types)), rest)
  {
    assert forall i :: 0 <= i < 8 ==> IsOperand(HeaderFields(p)[i]);
    hide ProgramOk, ParseHeader, ParseCode, ParseTypes, EncMany, EncConst, HasFlag, HeaderFields, Hints, HeaderOf, Mapped;
    hide TypeTable, Written;
    var u := EncMany(p.types, EncType) + rest;
    var t := EncMany(Written(p.insts), EncInst) + u;
    Nest(EncConst(XMAGIC), EncMany(HeaderFields(p), EncConst), EncMany(Written(p.insts), EncInst), EncMany(p.types, EncType), [],
         rest);
    assert EncMany(p.types, EncType) + [] == EncMany(p.types, EncType) && [] + rest == rest;
    assert EncFront(p) + rest == EncConst(XMAGIC) + (EncMany(HeaderFields(p), EncConst) + t);
    HeaderRoundTrip(p, t);
    CodeRoundTrip(p, u);
    TypesRoundTrip(p, rest);
    FlagsOf(p);
    HintsAreFlags(p);
  }

  lemma HintsAreFlags(p: Program)
    ensures HeaderOf(p).flags == Hints(p) && HeaderOf(p).export_size == |p.links| && HeaderOf(p).data_size == p.offset
    ensures HeaderOf(p).type_size == |p.types| && HeaderOf(p).code_size == |Written(p.insts)|
  {
  }

  lemma BackRoundTrip(p: Program, image: Image, rest: Bytes)
    requires ProgramOk(p)
    ensures var m := ModuleOf(p, image);
            ParseBack(m.header, m.code, m.types, image, EncBack(p) + rest) == Ok(m, EncName(p.path) + rest)
  {
    BackParts(p);
    hide ProgramOk, EncMany, ParseMany, EncName, ParseName, HasFlag, HeaderOf, Hints, ParseImportSection, ParseHandlerSection;
    hide EncImportSection, EncHandlerSection, TypeTable, Written, Reached, Truncated, LinkOk, Mapped, ExceptOk, WantedsOk, DescOk;
    var w := EncName(p.path) + rest;
    var v := EncHandlerSection(p.excs) + w;
    var u := EncImportSection(p.wanted) + v;
    var t := EncMany(p.links, EncLink) + u;
    Nest(EncName(Truncated(p.name)), EncMany(p.links, EncLink), EncImportSection(p.wanted), EncHandlerSection(p.excs),
         EncName(p.path), rest);
    assert EncBack(p) + rest == EncName(Truncated(p.name)) + t;
    NameRoundTrip(Truncated(p.name), t);
    LinksRoundTrip(p.links, u);
    ImportSectionRoundTrip(p.wanted, v);
    HintsAreFlags(p);
    FlagsOf(p);
    if p.excs != [] {
      HandlerSectionRoundTrip(p.excs, TypeTable(p.types), w);
    } else {
      NothingReached(p.excs);
      assert v == w;
    }
    var m := ModuleOf(p, image);
    BackPieces(m.header, m.code, m.types, image, EncBack(p) + rest, m.name, t, Mapped(p.links, ExportOf), u, m.imports, v,
               m.handlers, w);
  }

  lemma Nest(a: Bytes, b: Bytes, c: Bytes, d: Bytes, e: Bytes, rest: Bytes)
    ensures a + (b + (c + (d + e))) + rest == a + (b + (c + (d + (e + rest))))
  {
  }

  lemma BackPieces(h: Header, code: seq<Instr>, types: map<int, TypeDesc>, image: Image, s: Bytes, name: Bytes, t: Bytes,
                   exports: seq<Export>, u: Bytes, imports: seq<seq<Import>>, v: Bytes, handlers: seq<Handler>, w: Bytes)
    requires ParseName(s) == Ok(name, t) && ParseMany(h.export_size, ParseExport, t) == Ok(exports, u)
    requires HasFlag(h.flags, HAS_IMPORT) && ParseImportSection(u) == Ok(imports, v)
    requires if HasFlag(h.flags, HAS_HANDLER) then ParseHandlerSection(types, v) == Ok(handlers, w) else handlers == [] && v == w
    ensures ParseBack(h, code, types, image, s) ==
            Ok(Module(h, code, types, image, name, multiset(exports), imports, handlers), w)
  {
  }

  lemma NothingReached(excs: seq<Except>)
    requires excs == []
    ensures Mapped(Reached(excs), HandlerOf) == [] && EncHandlerSection(excs) == []
  {
  }

  lemma BackParts(p: Program)
    requires ProgramOk(p)
    ensures 0 !in Truncated(p.name) && forall i :: 0 <= i < |p.links| ==> LinkOk(p.links[i])
    ensures |p.wanted| < LIMIT && forall i :: 0 <= i < |p.wanted| ==> WantedsOk(p.wanted[i])
    ensures |Reached(p.excs)| < LIMIT
    ensures forall i :: 0 <= i < |Reached(p.excs)| ==>
      ExceptOk(Reached(p.excs)[i]) && DescOk(Reached(p.excs)[i].desc, TypeTable(p.types))
  {
  }

  /** Reading what the compiler writes gives back the same module, with the data image that storing every initial value
      by itself builds; it fails only if the loader cannot build that image. */
  lemma ModuleRoundTrip(p: Program, items: seq<Item>, rest: Bytes)
    requires ProgramOk(p) && AllWritable(items) && Coalesced(items, p.globals)
    ensures ParseModule(EncModule(p, items) + rest) ==
            match StoredParts(EmptyImage(p.offset), 0, p.globals)
            case Some(image) => Ok(ModuleOf(p, image), EncName(p.path) + rest)
            case None => Fail
  {
    DataSize(p);
    hide ProgramOk, ParseFront, ParseBack, EncFront, EncBack, EncItems, ReadItems, HeaderOf, TypeTable, Written, Coalesced;
    hide StoredParts, EmptyImage, Mapped, Reached, Truncated, AllWritable, EncName;
    var u := EncBack(p) + rest;
    var t := EncItems(items) + [0] + u;
    Nest(EncFront(p), EncItems(items) + [0], EncBack(p), [], [], rest);
    assert EncBack(p) + ([] + []) == EncBack(p) && [] + ([] + rest) == rest;
    assert EncModule(p, items) + rest == EncFront(p) + t;
    FrontRoundTrip(p, t);
    DataRoundTrip(p.globals, items, EmptyImage(p.offset), u);
    HintsAreFlags(p);
    var h, code, types := HeaderOf(p), Mapped(Written(p.insts), InstrOf), TypeTable(p.types);
    assert ParseFront(EncFront(p) + t) == Ok((h, code, types), t);
    DataParsed(h, types, t, p.offset);
    match StoredParts(EmptyImage(p.offset), 0, p.globals)
    case Some(image) =>
      BackRoundTrip(p, image, rest);
      ThreeParts(EncFront(p) + t, h, code, types, t, image, u);
    case None =>
  }

  lemma DataParsed(h: Header, types: map<int, TypeDesc>, t: Bytes, size: int)
    requires h.data_size == size && (size != 0 ==> 0 in types && types[0].size == size)
    ensures ParseData(h, types, t) == ReadItems(t, EmptyImage(size))
  {
  }

  lemma ThreeParts(s: Bytes, h: Header, code: seq<Instr>, types: map<int, TypeDesc>, t: Bytes, image: Image, u: Bytes)
    requires ParseFront(s) == Ok((h, code, types), t) && ParseData(h, types, t) == Ok(image, u)
    ensures ParseModule(s) == ParseBack(h, code, types, image, u)
  {
  }

  lemma DataSize(p: Program)
    requires ProgramOk(p)
    ensures p.offset != 0 ==> 0 in TypeTable(p.types) && TypeTable(p.types)[0].size == p.offset
  {
  }

  // ---- the loader ----

  method ReadMiddle(reader: BufferedReader, mode: MiddleMode) returns (ok: bool, x: Middle)
    requires reader.Valid()
    modifies reader, reader.buffer
    ensures reader.Valid()
    ensures match ParseMiddle(mode, old(reader.Remaining()))
            case Ok(v, rest) => ok && x == v && reader.Remaining() == rest
            case Fail => !ok
  {
    x := Middle(NoMiddle, 0);
    if mode == NoMiddle { return true, x; }
    var v;
    ok, v := ReadNextOperand(reader);
    x := Middle(mode, v);
  }

  method ReadOpnd(reader: BufferedReader, mode: AddressMode) returns (ok: bool, x: Opnd)
    requires reader.Valid()
    modifies reader, reader.buffer
    ensures reader.Valid()
    ensures match ParseOpnd(mode, old(reader.Remaining()))
            case Ok(v, rest) => ok && x == v && reader.Remaining() == rest
            case Fail => !ok
  {
    x := Opnd(NoMode, 0, 0);
    if mode == NoMode { return true, x; }
    var v;
    ok, v := ReadNextOperand(reader);
    if !ok { return; }
    x := Opnd(mode, v, 0);
    if mode == OffsetDoubleIndirectFp || mode == OffsetDoubleIndirectMp {
      var w;
      ok, w := ReadNextOperand(reader);
      x := Opnd(mode, v, w);
    }
  }

  method ReadInstr(reader: BufferedReader) returns (ok: bool, x: Instr)
    requires reader.Valid()
    modifies reader, reader.buffer
    ensures reader.Valid()
    ensures match ParseInstr(old(reader.Remaining()))
            case Ok(v, rest) => ok && x == v && reader.Remaining() == rest
            case Fail => !ok
  {
    hide ParseMiddle, ParseOpnd;
    ghost var all := reader.Remaining();
    x := Instr(0, 0, Middle(NoMiddle, 0), Opnd(NoMode, 0, 0), Opnd(NoMode, 0, 0));
    var n, b := reader.GetNextBytes(2);
    if n != 2 { return false, x; }
    assert all[2..] == reader.Remaining() && all[0] == b[0] && all[1] == b[1];
    var code := At(b, 1);
    var middle, source, destination;
    ok, middle := ReadMiddle(reader, MiddlePart(code));
    if !ok { return; }
    ok, source := ReadOpnd(reader, SourcePart(code));
    if !ok { return; }
    ok, destination := ReadOpnd(reader, DestinationPart(code));
    x := Instr(b[0], b[1], middle, source, destination);
  }

  /** read_code_section. */
  method ReadInstrs(reader: BufferedReader, n: int) returns (ok: bool, xs: seq<Instr>)
    requires reader.Valid()
    modifies reader, reader.buffer
    ensures reader.Valid()
    ensures match ParseMany(n, ParseInstr, old(reader.Remaining()))
            case Ok(v, rest) => ok && xs == v && reader.Remaining() == rest
            case Fail => !ok
  {
    hide ParseInstr;
    xs := [];
    if n < 0 { return false, xs; }
    ghost var all := reader.Remaining();
    NothingContinued(ParseMany(n, ParseInstr, all));
    var c := 0;
    while c < n
      invariant reader.Valid() && 0 <= c <= n && c == |xs|
      invariant ParseMany(n, ParseInstr, all) == Continued(xs, ParseMany(n - c, ParseInstr, reader.Remaining()))
    {
      ManyStep(n, ParseInstr, xs, all, reader.Remaining());
      var x;
      ok, x := ReadInstr(reader);
      if !ok { return false, xs; }
      xs := xs + [x];
      c := c + 1;
    }
    assert xs + [] == xs;
    ok := true;
  }

  method ReadType(reader: BufferedReader) returns (ok: bool, x: TypeDesc)
    requires reader.Valid()
    modifies reader, reader.buffer
    ensures reader.Valid()
    ensures match ParseType(old(reader.Remaining()))
            case Ok(v, rest) => ok && x == v && reader.Remaining() == rest
            case Fail => !ok
  {
    hide ParseOperand;
    x := TypeDesc(0, 0, []);
    var id, size, n;
    ok, id := ReadNextOperand(reader);
    if !ok { return; }
    ok, size := ReadNextOperand(reader);
    if !ok { return; }
    ok, n := ReadNextOperand(reader);
    if !ok { return; }
    if n > MAX_MAP || n < 0 { return false, x; }
    var b: Bytes := [];
    if n != 0 {
      ghost var was := reader.Remaining();
      var count;
      count, b := reader.GetNextBytes(n);
      if count != n { return false, x; }
      assert was[..n] == b && was[n..] == reader.Remaining();
    }
    x := TypeDesc(id, size, b);
  }

  /** read_type_section, before the descriptors take their places. */
  method ReadTypes(reader: BufferedReader, n: int) returns (ok: bool, xs: seq<TypeDesc>)
    requires reader.Valid()
    modifies reader, reader.buffer
    ensures reader.Valid()
    ensures match ParseMany(n, ParseType, old(reader.Remaining()))
            case Ok(v, rest) => ok && xs == v && reader.Remaining() == rest
            case Fail => !ok
  {
    hide ParseType;
    xs := [];
    if n < 0 { return false, xs; }
    ghost var all := reader.Remaining();
    NothingContinued(ParseMany(n, ParseType, all));
    var c := 0;
    while c < n
      invariant reader.Valid() && 0 <= c <= n && c == |xs|
      invariant ParseMany(n, ParseType, all) == Continued(xs, ParseMany(n - c, ParseType, reader.Remaining()))
    {
      ManyStep(n, ParseType, xs, all, reader.Remaining());
      var x;
      ok, x := ReadType(reader);
      if !ok { return false, xs; }
      xs := xs + [x];
      c := c + 1;
    }
    assert xs + [] == xs;
    ok := true;
  }

  method ReadExport(reader: BufferedReader) returns (ok: bool, x: Export)
    requires reader.Valid()
    modifies reader, reader.buffer
    ensures reader.Valid()
    ensures match ParseExport(old(reader.Remaining()))
            case Ok(v, rest) => ok && x == v && reader.Remaining() == rest
            case Fail => !ok
  {
    hide ParseOperand, ParseWord, ParseName;
    x := Export(0, 0, 0, []);
    var pc, frame_type, sig, name;
    ok, pc := ReadNextOperand(reader);
    if !ok { return; }
    ok, frame_type := ReadNextOperand(reader);
    if !ok { return; }
    ok, sig := ReadNextWord(reader);
    if !ok { return; }
    ok, name := reader.GetBytesUntilZero();
    x := Export(pc, frame_type, sig, name);
  }

  /** read_link_section. */
  method ReadExports(reader: BufferedReader, n: int) returns (ok: bool, xs: seq<Export>)
    requires reader.Valid()
    modifies reader, reader.buffer
    ensures reader.Valid()
    ensures match ParseMany(n, ParseExport, old(reader.Remaining()))
            case Ok(v, rest) => ok && xs == v && reader.Remaining() == rest
            case Fail => !ok
  {
    hide ParseExport;
    xs := [];
    if n < 0 { return false, xs; }
    ghost var all := reader.Remaining();
    NothingContinued(ParseMany(n, ParseExport, all));
    var c := 0;
    while c < n
      invariant reader.Valid() && 0 <= c <= n && c == |xs|
      invariant ParseMany(n, ParseExport, all) == Continued(xs, ParseMany(n - c, ParseExport, reader.Remaining()))
    {
      ManyStep(n, ParseExport, xs, all, reader.Remaining());
      var x;
      ok, x := ReadExport(reader);
      if !ok { return false, xs; }
      xs := xs + [x];
      c := c + 1;
    }
    assert xs + [] == xs;
    ok := true;
  }

  method ReadImport(reader: BufferedReader) returns (ok: bool, x: Import)
    requires reader.Valid()
    modifies reader, reader.buffer
    ensures reader.Valid()
    ensures match ParseImport(old(reader.Remaining()))
            case Ok(v, rest) => ok && x == v && reader.Remaining() == rest
            case Fail => !ok
  {
    hide ParseWord, ParseName;
    x := Import(0, []);
    var sig, name;
    ok, sig := ReadNextWord(reader);
    if !ok { return; }
    ok, name := reader.GetBytesUntilZero();
    x := Import(sig, name);
  }

  /** The functions wanted from one module. */
  method ReadImportList(reader: BufferedReader, n: int) returns (ok: bool, xs: seq<Import>)
    requires reader.Valid()
    modifies reader, reader.buffer
    ensures reader.Valid()
    ensures match ParseMany(n, ParseImport, old(reader.Remaining()))
            case Ok(v, rest) => ok && xs == v && reader.Remaining() == rest
            case Fail => !ok
  {
    hide ParseImport;
    xs := [];
    if n < 0 { return false, xs; }
    ghost var all := reader.Remaining();
    NothingContinued(ParseMany(n, ParseImport, all));
    var c := 0;
    while c < n
      invariant reader.Valid() && 0 <= c <= n && c == |xs|
      invariant ParseMany(n, ParseImport, all) == Continued(xs, ParseMany(n - c, ParseImport, reader.Remaining()))
    {
      ManyStep(n, ParseImport, xs, all, reader.Remaining());
      var x;
      ok, x := ReadImport(reader);
      if !ok { return false, xs; }
      xs := xs + [x];
      c := c + 1;
    }
    assert xs + [] == xs;
    ok := true;
  }

  method ReadImports(reader: BufferedReader) returns (ok: bool, x: seq<Import>)
    requires reader.Valid()
    modifies reader, reader.buffer
    ensures reader.Valid()
    ensures match ParseImports(old(reader.Remaining()))
            case Ok(v, rest) => ok && x == v && reader.Remaining() == rest
            case Fail => !ok
  {
    hide ParseOperand, ParseMany;
    x := [];
    var n;
    ok, n := ReadNextOperand(reader);
    if !ok { return; }
    ok, x := ReadImportList(reader, n);
  }

  /** read_import_section, all modules. */
  method ReadImportModules(reader: BufferedReader, n: int) returns (ok: bool, xs: seq<seq<Import>>)
    requires reader.Valid()
    modifies reader, reader.buffer
    ensures reader.Valid()
    ensures match ParseMany(n, ParseImports, old(reader.Remaining()))
            case Ok(v, rest) => ok && xs == v && reader.Remaining() == rest
            case Fail => !ok
  {
    hide ParseImports;
    xs := [];
    if n < 0 { return false, xs; }
    ghost var all := reader.Remaining();
    NothingContinued(ParseMany(n, ParseImports, all));
    var c := 0;
    while c < n
      invariant reader.Valid() && 0 <= c <= n && c == |xs|
      invariant ParseMany(n, ParseImports, all) == Continued(xs, ParseMany(n - c, ParseImports, reader.Remaining()))
    {
      ManyStep(n, ParseImports, xs, all, reader.Remaining());
      var x;
      ok, x := ReadImports(reader);
      if !ok { return false, xs; }
      xs := xs + [x];
      c := c + 1;
    }
    assert xs + [] == xs;
    ok := true;
  }

  method ReadCatch(reader: BufferedReader) returns (ok: bool, x: Entry)
    requires reader.Valid()
    modifies reader, reader.buffer
    ensures reader.Valid()
    ensures match ParseCatch(old(reader.Remaining()))
            case Ok(v, rest) => ok && x == v && reader.Remaining() == rest
            case Fail => !ok
  {
    hide ParseOperand, ParseName;
    x := Entry(None, 0);
    var name, pc;
    ok, name := reader.GetBytesUntilZero();
    if !ok { return; }
    ok, pc := ReadNextOperand(reader);
    x := Entry(Some(name), pc);
  }

  /** The named entries of one handler. */
  method ReadCatches(reader: BufferedReader, n: int) returns (ok: bool, xs: seq<Entry>)
    requires reader.Valid()
    modifies reader, reader.buffer
    ensures reader.Valid()
    ensures match ParseMany(n, ParseCatch, old(reader.Remaining()))
            case Ok(v, rest) => ok && xs == v && reader.Remaining() == rest
            case Fail => !ok
  {
    hide ParseCatch;
    xs := [];
    if n < 0 { return false, xs; }
    ghost var all := reader.Remaining();
    NothingContinued(ParseMany(n, ParseCatch, all));
    var c := 0;
    while c < n
      invariant reader.Valid() && 0 <= c <= n && c == |xs|
      invariant ParseMany(n, ParseCatch, all) == Continued(xs, ParseMany(n - c, ParseCatch, reader.Remaining()))
    {
      ManyStep(n, ParseCatch, xs, all, reader.Remaining());
      var x;
      ok, x := ReadCatch(reader);
      if !ok { return false, xs; }
      xs := xs + [x];
      c := c + 1;
    }
    assert xs + [] == xs;
    ok := true;
  }

  method ReadTable(reader: BufferedReader, n: nat) returns (ok: bool, x: seq<Entry>)
    requires reader.Valid()
    modifies reader, reader.buffer
    ensures reader.Valid()
    ensures match ParseTable(n, old(reader.Remaining()))
            case Ok(v, rest) => ok && x == v && reader.Remaining() == rest
            case Fail => !ok
  {
    hide ParseOperand, ParseMany;
    x := [];
    var table, pc;
    ok, table := ReadCatches(reader, n);
    if !ok { return; }
    ok, pc := ReadNextOperand(reader);
    x := table + [Entry(None, pc)];
  }

  method ReadHandler(reader: BufferedReader) returns (ok: bool, x: Handler)
    requires reader.Valid()
    modifies reader, reader.buffer
    ensures reader.Valid()
    ensures match ParseHandler(old(reader.Remaining()))
            case Ok(v, rest) => ok && x == v && reader.Remaining() == rest
            case Fail => !ok
  {
    hide ParseOperand, ParseTable;
    x := Handler(0, 0, 0, None, 0, []);
    var offset, begin, end, desc, n, table;
    ok, offset := ReadNextOperand(reader);
    if !ok { return; }
    ok, begin := ReadNextOperand(reader);
    if !ok { return; }
    ok, end := ReadNextOperand(reader);
    if !ok { return; }
    ok, desc := ReadNextOperand(reader);
    if !ok { return; }
    ok, n := ReadNextOperand(reader);
    if !ok { return; }
    ok, table := ReadTable(reader, n % 0x1_0000);
    x := Handler(offset, begin, end, if desc == -1 then None else Some(desc), n / 0x1_0000, table);
  }

  /** read_handler_section, before the descriptors are looked up. */
  method ReadHandlers(reader: BufferedReader, n: int) returns (ok: bool, xs: seq<Handler>)
    requires reader.Valid()
    modifies reader, reader.buffer
    ensures reader.Valid()
    ensures match ParseMany(n, ParseHandler, old(reader.Remaining()))
            case Ok(v, rest) => ok && xs == v && reader.Remaining() == rest
            case Fail => !ok
  {
    hide ParseHandler;
    xs := [];
    if n < 0 { return false, xs; }
    ghost var all := reader.Remaining();
    NothingContinued(ParseMany(n, ParseHandler, all));
    var c := 0;
    while c < n
      invariant reader.Valid() && 0 <= c <= n && c == |xs|
      invariant ParseMany(n, ParseHandler, all) == Continued(xs, ParseMany(n - c, ParseHandler, reader.Remaining()))
    {
      ManyStep(n, ParseHandler, xs, all, reader.Remaining());
      var x;
      ok, x := ReadHandler(reader);
      if !ok { return false, xs; }
      xs := xs + [x];
      c := c + 1;
    }
    assert xs + [] == xs;
    ok := true;
  }

  /** Eight operands, one after the other. */
  method ReadFields(reader: BufferedReader, n: int) returns (ok: bool, xs: seq<int>)
    requires reader.Valid()
    modifies reader, reader.buffer
    ensures reader.Valid()
    ensures match ParseMany(n, ParseOperand, old(reader.Remaining()))
            case Ok(v, rest) => ok && xs == v && reader.Remaining() == rest
            case Fail => !ok
  {
    hide ParseOperand;
    xs := [];
    if n < 0 { return false, xs; }
    ghost var all := reader.Remaining();
    NothingContinued(ParseMany(n, ParseOperand, all));
    var c := 0;
    while c < n
      invariant reader.Valid() && 0 <= c <= n && c == |xs|
      invariant ParseMany(n, ParseOperand, all) == Continued(xs, ParseMany(n - c, ParseOperand, reader.Remaining()))
    {
      ManyStep(n, ParseOperand, xs, all, reader.Remaining());
      var x;
      ok, x := ReadNextOperand(reader);
      if !ok { return false, xs; }
      xs := xs + [x];
      c := c + 1;
    }
    assert xs + [] == xs;
    ok := true;
  }

  method ReadSignature(reader: BufferedReader, magic: int) returns (ok: bool, x: Bytes)
    requires reader.Valid()
    modifies reader, reader.buffer
    ensures reader.Valid()
    ensures match ParseSignature(magic, old(reader.Remaining()))
            case Ok(v, rest) => ok && x == v && reader.Remaining() == rest
            case Fail => !ok
  {
    hide ParseOperand;
    x := [];
    if magic == SMAGIC {
      var n;
      ok, n := ReadNextOperand(reader);
      if !ok || n < 0 { return false, x; }
      ghost var was := reader.Remaining();
      var count, b := reader.GetNextBytes(n);
      if count != n { return false, x; }
      if n != 0 {
        x := b;
        assert was[..n] == b && was[n..] == reader.Remaining();
      } else {
        assert was[..0] == [];
      }
      return true, x;
    }
    ok := magic == XMAGIC;
  }

  method ReadHeader(reader: BufferedReader) returns (ok: bool, x: Header)
    requires reader.Valid()
    modifies reader, reader.buffer
    ensures reader.Valid()
    ensures match ParseHeader(old(reader.Remaining()))
            case Ok(v, rest) => ok && x == v && reader.Remaining() == rest
            case Fail => !ok
  {
    hide ParseOperand, ParseMany, ParseSignature;
    x := Header(0, [], 0, 0, 0, 0, 0, 0, 0, 0);
    var magic, signature, f;
    ok, magic := ReadNextOperand(reader);
    if !ok { return; }
    ok, signature := ReadSignature(reader, magic);
    if !ok { return; }
    ManyCount(8, ParseOperand, reader.Remaining());
    ok, f := ReadFields(reader, 8);
    if !ok { return; }
    x := Header(magic, signature, f[0], f[1], f[2], f[3], f[4], f[5], f[6], f[7]);
  }

  method ReadCodeSection(reader: BufferedReader, h: Header) returns (ok: bool, x: seq<Instr>)
    requires reader.Valid()
    modifies reader, reader.buffer
    ensures reader.Valid()
    ensures match ParseCode(h, old(reader.Remaining()))
            case Ok(v, rest) => ok && x == v && reader.Remaining() == rest
            case Fail => !ok
  {
    hide ParseMany;
    ok, x := ReadInstrs(reader, h.code_size);
    ok := ok && (h.entry_pc == -1 || 0 <= h.entry_pc < |x|);
  }

  method ReadTypeSection(reader: BufferedReader, h: Header) returns (ok: bool, x: map<int, TypeDesc>)
    requires reader.Valid()
    modifies reader, reader.buffer
    ensures reader.Valid()
    ensures match ParseTypes(h, old(reader.Remaining()))
            case Ok(v, rest) => ok && x == v && reader.Remaining() == rest
            case Fail => !ok
  {
    hide ParseMany;
    x := map[];
    var types;
    ok, types := ReadTypes(reader, h.type_size);
    if !ok { return; }
    var c := 0;
    while c < |types|
      invariant 0 <= c <= |types| && x == TypeTable(types[..c])
      invariant forall i :: 0 <= i < c ==> 0 <= types[i].id < h.type_size
    {
      if !(0 <= types[c].id < h.type_size) { return false, x; }
      assert types[..c + 1][..c] == types[..c];
      x := x[types[c].id := types[c]];
      c := c + 1;
    }
    assert types[..c] == types;
  }

  method ReadData(reader: BufferedReader, h: Header, types: map<int, TypeDesc>) returns (ok: bool, x: Image)
    requires reader.Valid()
    modifies reader, reader.buffer
    ensures reader.Valid()
    ensures match ParseData(h, types, old(reader.Remaining()))
            case Ok(v, rest) => ok && x == v && reader.Remaining() == rest
            case Fail => !ok
  {
    x := EmptyImage(h.data_size);
    if h.data_size != 0 && (0 !in types || types[0].size != h.data_size) { return false, x; }
    ok, x := ReadDataSection(reader, x);
  }

  /** The zero that ends a section. */
  method ReadZero(reader: BufferedReader) returns (ok: bool)
    requires reader.Valid()
    modifies reader, reader.buffer
    ensures reader.Valid()
    ensures match ParseZero(0, old(reader.Remaining()))
            case Ok(_, rest) => ok && reader.Remaining() == rest
            case Fail => !ok
  {
    var b;
    ok, b := reader.GetNextByte();
    ok := ok && b == 0;
  }

  method ReadImportSection(reader: BufferedReader) returns (ok: bool, x: seq<seq<Import>>)
    requires reader.Valid()
    modifies reader, reader.buffer
    ensures reader.Valid()
    ensures match ParseImportSection(old(reader.Remaining()))
            case Ok(v, rest) => ok && x == v && reader.Remaining() == rest
            case Fail => !ok
  {
    hide ParseOperand, ParseMany;
    x := [];
    var n;
    ok, n := ReadNextOperand(reader);
    if !ok { return; }
    ok, x := ReadImportModules(reader, n);
    if !ok { return; }
    ok := ReadZero(reader);
  }

  method ReadHandlerSection(reader: BufferedReader, types: map<int, TypeDesc>) returns (ok: bool, x: seq<Handler>)
    requires reader.Valid()
    modifies reader, reader.buffer
    ensures reader.Valid()
    ensures match ParseHandlerSection(types, old(reader.Remaining()))
            case Ok(v, rest) => ok && x == v && reader.Remaining() == rest
            case Fail => !ok
  {
    hide ParseOperand, ParseMany;
    x := [];
    var n;
    ok, n := ReadNextOperand(reader);
    if !ok { return; }
    ok, x := ReadHandlers(reader, n);
    if !ok { return; }
    var c := 0;
    while c < |x|
      invariant 0 <= c <= |x|
      invariant forall i :: 0 <= i < c ==> DescOk(x[i].desc, types)
    {
      if !DescOk(x[c].desc, types) { return false, x; }
      c := c + 1;
    }
    ok := ReadZero(reader);
  }

  method ReadBack(reader: BufferedReader, h: Header, code: seq<Instr>, types: map<int, TypeDesc>, image: Image)
    returns (ok: bool, x: Module)
    requires reader.Valid()
    modifies reader, reader.buffer
    ensures reader.Valid()
    ensures match ParseBack(h, code, types, image, old(reader.Remaining()))
            case Ok(v, rest) => ok && x == v && reader.Remaining() == rest
            case Fail => !ok
  {
    hide ParseName, ParseMany, ParseImportSection, ParseHandlerSection, HasFlag;
    x := Module(h, code, types, image, [], multiset{}, [], []);
    var name, exports;
    ok, name := reader.GetBytesUntilZero();
    if !ok { return; }
    ok, exports := ReadExports(reader, h.export_size);
    if !ok { return; }
    var imports: seq<seq<Import>>, handlers: seq<Handler> := [], [];
    if HasFlag(h.flags, HAS_IMPORT) {
      ok, imports := ReadImportSection(reader);
      if !ok { return; }
    }
    if HasFlag(h.flags, HAS_HANDLER) {
      ok, handlers := ReadHandlerSection(reader, types);
      if !ok { return; }
    }
    x := Module(h, code, types, image, name, multiset(exports), imports, handlers);
  }

  /** read_module: the result depends on the bytes alone, not on how the reader gets them. */
  method ReadModule(reader: BufferedReader) returns (ok: bool, x: Module)
    requires reader.Valid()
    modifies reader, reader.buffer
    ensures reader.Valid()
    ensures match ParseModule(old(reader.Remaining()))
            case Ok(v, rest) => ok && x == v && reader.Remaining() == rest
            case Fail => !ok
  {
    hide ParseHeader, ParseCode, ParseTypes, ParseData, ParseBack, HasFlag;
    x := Module(Header(0, [], 0, 0, 0, 0, 0, 0, 0, 0), [], map[], EmptyImage(0), [], multiset{}, [], []);
    var h, code, types, image;
    ok, h := ReadHeader(reader);
    if !ok { return; }
    if HasFlag(h.flags, DEPRECATED_IMPORT) { return false, x; }
    ok, code := ReadCodeSection(reader, h);
    if !ok { return; }
    ok, types := ReadTypeSection(reader, h);
    if !ok { return; }
    ok, image := ReadData(reader, h, types);
    if !ok { return; }
    ok, x := ReadBack(reader, h, code, types, image);
  }

  // ---- the compiler ----

  lemma {:induction false} WrittenAppend(insts: seq<Inst>, k: nat)
    requires k < |insts|
    ensures Written(insts[..k + 1]) == Written(insts[..k]) + (if insts[k].op == INOOP then [] else [insts[k]])
  {
    if k > 0 {
      WrittenAppend(insts[1..], k - 1);
      assert insts[..k + 1][1..] == insts[1..][..k] && insts[..k][1..] == insts[1..][..k - 1];
    }
  }

  lemma {:induction false} ReachedAppend(excs: seq<Except>, k: nat)
    requires k < |excs|
    ensures Reached(excs[..k + 1]) == Reached(excs[..k]) + (if excs[k].reached then [excs[k]] else [])
  {
    if k > 0 {
      ReachedAppend(excs[1..], k - 1);
      assert excs[..k + 1][1..] == excs[1..][..k] && excs[..k][1..] == excs[1..][..k - 1];
    }
  }

  lemma {:induction false} InWritten(insts: seq<Inst>, k: nat)
    requires k < |insts| && insts[k].op != INOOP
    ensures insts[k] in Written(insts)
  {
    if k > 0 { InWritten(insts[1..], k - 1); }
  }

  lemma {:induction false} InReached(excs: seq<Except>, k: nat)
    requires k < |excs| && excs[k].reached
    ensures excs[k] in Reached(excs)
  {
    if k > 0 { InReached(excs[1..], k - 1); }
  }

  /** The buffer that instructions are put together in. */
  class InstBuffer {
    const ibuf: array<Byte>
    var nibuf: nat

    ghost predicate Valid()
      reads this
    {
      ibuf.Length == NIBUF && nibuf <= NIBUF
    }

    constructor ()
      ensures Valid() && nibuf == 0 && fresh(ibuf)
    {
      ibuf := new Byte[NIBUF];
      nibuf := 0;
    }

    method Put(b: Byte)
      requires Valid() && nibuf < NIBUF
      modifies this, ibuf
      ensures Valid() && nibuf == old(nibuf) + 1 && ibuf[..nibuf] == old(ibuf[..nibuf]) + [b]
    {
      ibuf[nibuf] := b;
      nibuf := nibuf + 1;
    }

    method Disbcon(val: int)
      requires Valid() && nibuf + 4 <= NIBUF && IsOperand(val)
      modifies this, ibuf
      ensures Valid() && ibuf[..nibuf] == old(ibuf[..nibuf]) + EncConst(val) && nibuf == old(nibuf) + |EncConst(val)|
    {
      if -64 <= val <= 63 {
        Put(val % 128);
        return;
      }
      if -8192 <= val <= 8191 {
        Put(val / 0x100 % 64 + 0x80);
        Put(val % 0x100);
        return;
      }
      Put(val / 0x100_0000 % 64 + 0xC0);
      Put(val / 0x1_0000 % 0x100);
      Put(val / 0x100 % 0x100);
      Put(val % 0x100);
    }

    method Disaddr(m: Mode, a: Addr)
      requires Valid() && nibuf + 8 <= NIBUF && m != NoOperand && AddrOk(m, a)
      modifies this, ibuf
      ensures Valid() && ibuf[..nibuf] == old(ibuf[..nibuf]) + EncOpnd(m, a) && nibuf == old(nibuf) + |EncOpnd(m, a)|
    {
      hide EncConst;
      var val := 0;
      match m {
        case Imm => val := a.offset;
        case Pc => val := a.offset;
        case Desc => val := a.offset;
        case Off => val := a.iface;
        case Noff => val := -(a.iface + 1);
        case Fp => val := a.reg;
        case Mp => val := a.reg;
        case Ldt => val := a.reg;
        case FpInd =>
          Disbcon(a.reg);
          val := a.offset;
        case MpInd =>
          Disbcon(a.reg);
          val := a.offset;
        case _ =>
      }
      Disbcon(val);
    }

    method PutInst(i: Inst)
      requires Valid() && nibuf < NIBUF - MAXINST && InstOk(i)
      modifies this, ibuf
      ensures Valid() && ibuf[..nibuf] == old(ibuf[..nibuf]) + EncInst(i)
    {
      hide EncOpnd, ModeByte, AddrOk;
      ghost var start := ibuf[..nibuf];
      Put(i.op);
      Put(ModeByte(i));
      PutOpnd(i.mm, i.m);
      PutOpnd(i.sm, i.s);
      PutOpnd(i.dm, i.d);
      InstBytes(start, i.op, ModeByte(i), EncOpnd(i.mm, i.m), EncOpnd(i.sm, i.s), EncOpnd(i.dm, i.d));
    }

    /** An operand, if there is one. */
    method PutOpnd(m: Mode, a: Addr)
      requires Valid() && nibuf + 8 <= NIBUF && AddrOk(m, a)
      modifies this, ibuf
      ensures Valid() && ibuf[..nibuf] == old(ibuf[..nibuf]) + EncOpnd(m, a) && nibuf == old(nibuf) + |EncOpnd(m, a)|
    {
      if m != NoOperand { Disaddr(m, a); } else { NoBytesFor(a); }
    }
  }

  lemma InstBytes(start: Bytes, op: Byte, mode: Byte, a: Bytes, b: Bytes, c: Bytes)
    ensures start + [op] + [mode] + a + b + c == start + ([op, mode] + a + b + c)
  {
  }

  lemma NoBytesFor(a: Addr)
    ensures EncOpnd(NoOperand, a) == []
  {
  }

  /** disinst: the buffer is written out whenever another instruction might not fit. */
  method Disinst(w: DisWriter, insts: seq<Inst>)
    requires forall i :: 0 <= i < |Written(insts)| ==> InstOk(Written(insts)[i])
    modifies w`bout
    ensures w.bout == old(w.bout) + EncMany(Written(insts), EncInst)
  {
    hide EncInst, EncMany, InstOk;
    var b := new InstBuffer();
    ghost var start := w.bout;
    NothingWritten();
    var k := 0;
    while k < |insts|
      invariant 0 <= k <= |insts| && b.Valid() && fresh(b) && fresh(b.ibuf)
      invariant w.bout + b.ibuf[..b.nibuf] == start + EncMany(Written(insts[..k]), EncInst)
    {
      WrittenAppend(insts, k);
      if insts[k].op != INOOP {
        InWritten(insts, k);
        if b.nibuf >= NIBUF - MAXINST {
          w.bout := w.bout + b.ibuf[..b.nibuf];
          b.nibuf := 0;
          assert w.bout + b.ibuf[..0] == w.bout;
        }
        ghost var before := b.ibuf[..b.nibuf];
        b.PutInst(insts[k]);
        EncManyAppend(Written(insts[..k]), insts[k], EncInst);
        Assoc(w.bout, before, EncInst(insts[k]));
        Assoc(start, EncMany(Written(insts[..k]), EncInst), EncInst(insts[k]));
      } else {
        assert Written(insts[..k]) + [] == Written(insts[..k]);
      }
      k := k + 1;
    }
    assert insts[..k] == insts;
    if b.nibuf > 0 { w.bout := w.bout + b.ibuf[..b.nibuf]; }
  }

  lemma NothingWritten()
    ensures EncMany(Written([]), EncInst) == []
  {
  }

  lemma Assoc(a: Bytes, b: Bytes, c: Bytes)
    ensures a + b + c == a + (b + c)
  {
  }

  lemma ConstIsOperand(v: int)
    requires IsOperand(v)
    ensures EncConst(v) == EncOperand(v)
  {
  }

  method Discons(w: DisWriter, vs: seq<int>)
    requires forall i :: 0 <= i < |vs| ==> IsOperand(vs[i])
    modifies w`bout
    ensures w.bout == old(w.bout) + EncMany(vs, EncConst)
  {
    hide EncOperand, EncConst;
    var k := 0;
    while k < |vs|
      invariant 0 <= k <= |vs| && w.bout == old(w.bout) + EncMany(vs[..k], EncConst)
    {
      w.Discon(vs[k]);
      ConstIsOperand(vs[k]);
      EncManyAppend(vs[..k], vs[k], EncConst);
      assert vs[..k + 1] == vs[..k] + [vs[k]];
      k := k + 1;
    }
    assert vs[..k] == vs;
  }

  lemma NothingFor<T>(enc: T -> Bytes)
    ensures EncMany([], enc) == []
  {
  }

  method DisType(w: DisWriter, x: TypeDesc)
    requires TypeOk(x)
    modifies w`bout
    ensures w.bout == old(w.bout) + EncType(x)
  {
    hide EncOperand, EncConst;
    ConstIsOperand(x.id);
    ConstIsOperand(x.size);
    ConstIsOperand(|x.map_bytes|);
    w.Discon(x.id);
    w.Discon(x.size);
    w.Discon(|x.map_bytes|);
    w.bout := w.bout + x.map_bytes;
    Nest(old(w.bout), EncConst(x.id), EncConst(x.size), EncConst(|x.map_bytes|), x.map_bytes, []);
  }

  /** disdesc. */
  method Disdesc(w: DisWriter, xs: seq<TypeDesc>)
    requires forall i :: 0 <= i < |xs| ==> TypeOk(xs[i])
    modifies w`bout
    ensures w.bout == old(w.bout) + EncMany(xs, EncType)
  {
    hide EncType, EncMany;
    NothingFor<TypeDesc>(EncType);
    var k := 0;
    while k < |xs|
      invariant 0 <= k <= |xs| && w.bout == old(w.bout) + EncMany(xs[..k], EncType)
    {
      ghost var start := w.bout;
      DisType(w, xs[k]);
      EncManyAppend(xs[..k], xs[k], EncType);
      Assoc(old(w.bout), EncMany(xs[..k], EncType), EncType(xs[k]));
      assert xs[..k + 1] == xs[..k] + [xs[k]];
      k := k + 1;
    }
    assert xs[..k] == xs;
  }

  method DisName(w: DisWriter, adt: Option<Bytes>, name: Bytes)
    modifies w`bout
    ensures w.bout == old(w.bout) + EncName(Qualified(adt, name))
  {
    if adt != None {
      w.bout := w.bout + adt.value;
      w.Putb(DOT);
    }
    w.bout := w.bout + name;
    w.Putb(0);
  }

  method DisLink(w: DisWriter, x: Link)
    requires LinkOk(x)
    modifies w`bout
    ensures w.bout == old(w.bout) + EncLink(x)
  {
    hide EncOperand, EncConst, EncWord, EncName, Qualified;
    match x {
      case Data(sig) =>
        ConstIsOperand(-1);
        w.Discon(-1);
        w.Discon(-1);
        w.Disword(sig);
        PlainName(MP_NAME);
        DisName(w, None, MP_NAME);
        Nest(old(w.bout), EncConst(-1), EncConst(-1), EncWord(sig), EncName(MP_NAME), []);
      case Function(pc, desc, sig, adt, name) =>
        ConstIsOperand(pc);
        ConstIsOperand(desc);
        w.Discon(pc);
        w.Discon(desc);
        w.Disword(sig);
        DisName(w, adt, name);
        Nest(old(w.bout), EncConst(pc), EncConst(desc), EncWord(sig), EncName(Qualified(adt, name)), []);
    }
  }

  lemma PlainName(name: Bytes)
    ensures Qualified(None, name) == name
  {
  }

  /** dismod, after the name. */
  method Dismod(w: DisWriter, xs: seq<Link>)
    requires forall i :: 0 <= i < |xs| ==> LinkOk(xs[i])
    modifies w`bout
    ensures w.bout == old(w.bout) + EncMany(xs, EncLink)
  {
    hide EncLink, EncMany;
    NothingFor<Link>(EncLink);
    var k := 0;
    while k < |xs|
      invariant 0 <= k <= |xs| && w.bout == old(w.bout) + EncMany(xs[..k], EncLink)
    {
      ghost var start := w.bout;
      DisLink(w, xs[k]);
      EncManyAppend(xs[..k], xs[k], EncLink);
      Assoc(old(w.bout), EncMany(xs[..k], EncLink), EncLink(xs[k]));
      assert xs[..k + 1] == xs[..k] + [xs[k]];
      k := k + 1;
    }
    assert xs[..k] == xs;
  }

  method DisWanted(w: DisWriter, x: Wanted)
    requires WantedOk(x)
    modifies w`bout
    ensures w.bout == old(w.bout) + EncImport(x)
  {
    hide EncWord, EncName, Qualified;
    w.Disword(x.sig);
    DisName(w, x.adt, x.name);
    Assoc(old(w.bout), EncWord(x.sig), EncName(Qualified(x.adt, x.name)));
  }

  /** The functions wanted from one module. */
  method DisWanteds(w: DisWriter, xs: seq<Wanted>)
    requires forall i :: 0 <= i < |xs| ==> WantedOk(xs[i])
    modifies w`bout
    ensures w.bout == old(w.bout) + EncMany(xs, EncImport)
  {
    hide EncImport, EncMany;
    NothingFor<Wanted>(EncImport);
    var k := 0;
    while k < |xs|
      invariant 0 <= k <= |xs| && w.bout == old(w.bout) + EncMany(xs[..k], EncImport)
    {
      ghost var start := w.bout;
      DisWanted(w, xs[k]);
      EncManyAppend(xs[..k], xs[k], EncImport);
      Assoc(old(w.bout), EncMany(xs[..k], EncImport), EncImport(xs[k]));
      assert xs[..k + 1] == xs[..k] + [xs[k]];
      k := k + 1;
    }
    assert xs[..k] == xs;
  }

  method DisImports(w: DisWriter, x: seq<Wanted>)
    requires WantedsOk(x)
    modifies w`bout
    ensures w.bout == old(w.bout) + EncImports(x)
  {
    hide EncOperand, EncConst, EncMany, EncImport, WantedOk;
    ConstIsOperand(|x|);
    w.Discon(|x|);
    DisWanteds(w, x);
    Assoc(old(w.bout), EncConst(|x|), EncMany(x, EncImport));
  }

  /** The modules of the import section. */
  method DisImportModules(w: DisWriter, xs: seq<seq<Wanted>>)
    requires forall i :: 0 <= i < |xs| ==> WantedsOk(xs[i])
    modifies w`bout
    ensures w.bout == old(w.bout) + EncMany(xs, EncImports)
  {
    hide EncImports, EncMany;
    NothingFor<seq<Wanted>>(EncImports);
    var k := 0;
    while k < |xs|
      invariant 0 <= k <= |xs| && w.bout == old(w.bout) + EncMany(xs[..k], EncImports)
    {
      ghost var start := w.bout;
      DisImports(w, xs[k]);
      EncManyAppend(xs[..k], xs[k], EncImports);
      Assoc(old(w.bout), EncMany(xs[..k], EncImports), EncImports(xs[k]));
      assert xs[..k + 1] == xs[..k] + [xs[k]];
      k := k + 1;
    }
    assert xs[..k] == xs;
  }

  /** disldt. */
  method Disldt(w: DisWriter, wanted: seq<seq<Wanted>>)
    requires |wanted| < LIMIT && forall i :: 0 <= i < |wanted| ==> WantedsOk(wanted[i])
    modifies w`bout
    ensures w.bout == old(w.bout) + EncImportSection(wanted)
  {
    hide EncOperand, EncConst, EncMany, EncImports, WantedsOk;
    ConstIsOperand(|wanted|);
    ConstIsOperand(0);
    ZeroIsOneByte();
    w.Discon(|wanted|);
    DisImportModules(w, wanted);
    w.Discon(0);
    Section(old(w.bout), EncConst(|wanted|), EncMany(wanted, EncImports), [0]);
  }

  lemma Section(a: Bytes, b: Bytes, c: Bytes, d: Bytes)
    ensures a + b + c + d == a + (b + (c + d))
  {
  }

  lemma ZeroIsOneByte()
    ensures EncConst(0) == [0]
  {
  }

  method DisCatch(w: DisWriter, x: Catch)
    requires CatchOk(x)
    modifies w`bout
    ensures w.bout == old(w.bout) + EncCatch(x)
  {
    hide EncOperand, EncConst, EncName, Qualified;
    PlainName(x.name);
    DisName(w, None, x.name);
    ConstIsOperand(x.pc);
    w.Discon(x.pc);
    Assoc(old(w.bout), EncName(x.name), EncConst(x.pc));
  }

  /** The names that a handler catches. */
  method DisCatches(w: DisWriter, xs: seq<Catch>)
    requires forall i :: 0 <= i < |xs| ==> CatchOk(xs[i])
    modifies w`bout
    ensures w.bout == old(w.bout) + EncMany(xs, EncCatch)
  {
    hide EncCatch, EncMany;
    NothingFor<Catch>(EncCatch);
    var k := 0;
    while k < |xs|
      invariant 0 <= k <= |xs| && w.bout == old(w.bout) + EncMany(xs[..k], EncCatch)
    {
      ghost var start := w.bout;
      DisCatch(w, xs[k]);
      EncManyAppend(xs[..k], xs[k], EncCatch);
      Assoc(old(w.bout), EncMany(xs[..k], EncCatch), EncCatch(xs[k]));
      assert xs[..k + 1] == xs[..k] + [xs[k]];
      k := k + 1;
    }
    assert xs[..k] == xs;
  }

  method DisExcept(w: DisWriter, x: Except)
    requires ExceptOk(x)
    modifies w`bout
    ensures w.bout == old(w.bout) + EncExcept(x)
  {
    hide EncOperand, EncConst, EncMany, EncCatch, CatchOk;
    var packed := x.ne * 0x1_0000 + |x.labs|;         // c.nlab|(e.ne<<16)
    ConstIsOperand(x.offset);
    ConstIsOperand(x.begin);
    ConstIsOperand(x.end);
    ConstIsOperand(OrMinusOne(x.desc));
    ConstIsOperand(packed);
    ConstIsOperand(OrMinusOne(x.wild));
    w.Discon(x.offset);
    w.Discon(x.begin);
    w.Discon(x.end);
    w.Discon(OrMinusOne(x.desc));
    Nest(old(w.bout), EncConst(x.offset), EncConst(x.begin), EncConst(x.end), EncConst(OrMinusOne(x.desc)), []);
    ghost var head := w.bout;
    w.Discon(packed);
    DisCatches(w, x.labs);
    w.Discon(OrMinusOne(x.wild));
    ghost var tail := EncConst(packed) + (EncMany(x.labs, EncCatch) + EncConst(OrMinusOne(x.wild)));
    Nest(head, EncConst(packed), EncMany(x.labs, EncCatch), EncConst(OrMinusOne(x.wild)), [], []);
    Nest(EncConst(x.offset), EncConst(x.begin), EncConst(x.end), EncConst(OrMinusOne(x.desc)), [], tail);
    Assoc(old(w.bout), EncConst(x.offset) + (EncConst(x.begin) + (EncConst(x.end) + EncConst(OrMinusOne(x.desc)))), tail);
  }

  /** disexc: only the handlers that can be reached. */
  method Disexc(w: DisWriter, excs: seq<Except>)
    requires excs != [] && |Reached(excs)| < LIMIT && forall i :: 0 <= i < |Reached(excs)| ==> ExceptOk(Reached(excs)[i])
    modifies w`bout
    ensures w.bout == old(w.bout) + EncHandlerSection(excs)
  {
    hide EncOperand, EncConst, EncMany, EncExcept, ExceptOk;
    NothingFor<Except>(EncExcept);
    var n := 0;
    var k := 0;
    while k < |excs|
      invariant 0 <= k <= |excs| && n == |Reached(excs[..k])| && w.bout == old(w.bout)
    {
      ReachedAppend(excs, k);
      if excs[k].reached { n := n + 1; }
      k := k + 1;
    }
    assert excs[..k] == excs;
    ConstIsOperand(n);
    w.Discon(n);
    ghost var start := w.bout;
    k := 0;
    while k < |excs|
      invariant 0 <= k <= |excs| && w.bout == start + EncMany(Reached(excs[..k]), EncExcept)
    {
      ReachedAppend(excs, k);
      if excs[k].reached {
        InReached(excs, k);
        DisExcept(w, excs[k]);
        EncManyAppend(Reached(excs[..k]), excs[k], EncExcept);
        Assoc(start, EncMany(Reached(excs[..k]), EncExcept), EncExcept(excs[k]));
      } else {
        assert Reached(excs[..k]) + [] == Reached(excs[..k]);
      }
      k := k + 1;
    }
    assert excs[..k] == excs;
    ConstIsOperand(0);
    ZeroIsOneByte();
    w.Discon(0);
    Section(old(w.bout), EncConst(n), EncMany(Reached(excs), EncExcept), [0]);
  }

  /** modcom: the sections in the order of the format; false when the data never fit the writer's cache. */
  method Modcom(w: DisWriter, p: Program) returns (ok: bool, ghost items: seq<Item>)
    requires w.bout == [] && ProgramOk(p) && StorableParts(0, p.globals) && CellCountParts(p.globals) < LIMIT
    modifies w, w.cache
    ensures ok <==> LaidParts(Cached(-1, old(w.lastoff), 0, old(w.cache).Length), 0, p.globals) != None
    ensures ok ==> AllWritable(items) && Coalesced(items, p.globals) && w.bout == EncModule(p, items)
  {
    hide EncInst, EncType, EncLink, EncImportSection, EncHandlerSection, EncMany, EncConst, EncOperand, EncItems;
    hide AllWritable, Coalesced;
    FrontParts(p);
    BackParts(p);
    hide ProgramOk, InstOk, TypeOk, LinkOk, WantedsOk, ExceptOk, StorableParts, HeaderFields, Written, Reached;
    ConstIsOperand(XMAGIC);
    w.Discon(XMAGIC);
    Discons(w, HeaderFields(p));
    Disinst(w, p.insts);
    Disdesc(w, p.types);
    Nest([], EncConst(XMAGIC), EncMany(HeaderFields(p), EncConst), EncMany(Written(p.insts), EncInst),
         EncMany(p.types, EncType), []);
    assert w.bout == EncFront(p);
    ok := w.Disvar(p.globals);
    items := w.items;
    if !ok { return; }
    DisBack(w, p);
    Assoc(EncFront(p), EncItems(items), [0]);
    Assoc(EncFront(p), EncItems(items) + [0], EncBack(p));
  }

  /** The name, cut to what the format allows, and the sections after it. */
  method DisBack(w: DisWriter, p: Program)
    requires ProgramOk(p)
    modifies w`bout
    ensures w.bout == old(w.bout) + EncBack(p)
  {
    hide EncLink, EncImportSection, EncHandlerSection, EncMany, EncName, Qualified;
    BackParts(p);
    hide ProgramOk, LinkOk, WantedsOk, ExceptOk, Reached;
    var n := |p.name|;
    if n > NAMELEN - 1 { n := NAMELEN - 1; }
    assert p.name[..|p.name|] == p.name;
    PlainName(p.name[..n]);
    DisName(w, None, p.name[..n]);
    Dismod(w, p.links);
    Disldt(w, p.wanted);
    ghost var mid := w.bout;
    if p.excs != [] { Disexc(w, p.excs); } else { NothingReached(p.excs); }
    assert w.bout == mid + EncHandlerSection(p.excs);
    PlainName(p.path);
    DisName(w, None, p.path);
    LeftNest(old(w.bout), EncName(Truncated(p.name)), EncMany(p.links, EncLink), EncImportSection(p.wanted),
             EncHandlerSection(p.excs), EncName(p.path));
  }

  lemma LeftNest(a: Bytes, b: Bytes, c: Bytes, d: Bytes, e: Bytes, f: Bytes)
    ensures a + b + c + d + e + f == a + (b + (c + (d + (e + f))))
  {
  }

  lemma FrontParts(p: Program)
    requires ProgramOk(p)
    ensures forall i :: 0 <= i < |HeaderFields(p)| ==> IsOperand(HeaderFields(p)[i])
    ensures forall i :: 0 <= i < |Written(p.insts)| ==> InstOk(Written(p.insts)[i])
    ensures forall i :: 0 <= i < |p.types| ==> TypeOk(p.types[i])
  {
  }

  /** The sizes of the types, by their number. */
  function SizesOf(types: map<int, TypeDesc>): map<int, int> { map id | id in types :: types[id].size }

  /** The initial values lie inside the module's data, as the compiler lays them out. */
  predicate DataInside(p: Program) { InsideParts(SizesOf(TypeTable(p.types)), 0, p.globals, p.offset) }

  lemma LoadedInside(p: Program)
    requires DataInside(p) && StoredParts(EmptyImage(p.offset), 0, p.globals) != None
    ensures Contained(SizesOf(TypeTable(p.types)), p.offset, StoredParts(EmptyImage(p.offset), 0, p.globals).value)
  {
    StoredPartsInside(SizesOf(TypeTable(p.types)), p.offset, EmptyImage(p.offset), 0, p.globals);
  }

  /** Written by the compiler and loaded again, through a buffer of any size, a program gives the module it stands for. */
  method Reload(p: Program, capacity: nat) returns (written: bool, loaded: Option<Module>)
    requires capacity > 0 && ProgramOk(p) && StorableParts(0, p.globals) && CellCountParts(p.globals) < LIMIT
    ensures written <==> LaidParts(Cached(-1, 0, 0, 0), 0, p.globals) != None
    ensures loaded != None <==> written && NestsParts(p.globals, STACK_SIZE)
    ensures loaded != None ==>
      var m := loaded.value;
      && Some(m.image) == StoredParts(EmptyImage(p.offset), 0, p.globals) && m == ModuleOf(p, m.image)
      && (DataInside(p) ==> Contained(SizesOf(m.types), p.offset, m.image))
      && (DataMeaning.ApartIn(p.globals, 0) ==> DataMeaning.ShowsIn(m.image, 0, 0, p.globals, 1))
  {
    hide ProgramOk, EncModule, ParseModule, StoredParts, NestsParts, StorableParts, Coalesced, LaidParts, DataInside, Contained;
    var w := new DisWriter();
    ghost var items;
    written, items := Modcom(w, p);
    if !written { return false, None; }
    var reader := new BufferedReader(w.bout, capacity);
    ModuleRoundTrip(p, items, []);
    assert EncModule(p, items) + [] == EncModule(p, items);
    StoredPartsIff(EmptyImage(p.offset), 0, p.globals);
    var ok, m := ReadModule(reader);
    if !ok { return true, None; }
    if DataInside(p) { LoadedInside(p); }
    if DataMeaning.ApartIn(p.globals, 0) { DataMeaning.GlobalsAreShown(p.offset, p.globals); }
    loaded := Some(m);
  }
}
