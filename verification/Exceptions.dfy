// Exceptions: the search for a handler and the unwinding of the stack
// (src/vm/vm_exception_handler.cpp and the call, mcall, ret and raise instructions of src/vm/execution_table.cpp).
module Exceptions {

  datatype Option<T> = None | Some(value: T)

  const INVALID_PC := -1

  // ---- handlers ----

  /** One entry of an exception table; no name is the entry for every other exception, without a pc if there is none. */
  datatype Case = Case(name: Option<string>, pc: int)

  /** The instructions covered, where the exception is stored, and the size of the memory to clear first. */
  datatype Handler = Handler(begin: int, end: int, offset: nat, size: Option<nat>, cases: seq<Case>)

  class ModuleRef {
    const handlers: seq<Handler>
    const mp: int

    constructor (handlers: seq<Handler>, mp: int)
      ensures this.handlers == handlers && this.mp == mp
    {
      this.handlers := handlers;
      this.mp := mp;
    }
  }

  /** The entry is for this exception: it names it, or it is for every exception and has a pc. */
  predicate Catches(c: Case, id: string) {
    c.name == Some(id) || (c.name == None && c.pc != INVALID_PC)
  }

  predicate Covers(h: Handler, pc: int) { h.begin <= pc < h.end }

  /** Some handler of the module covers pc and has an entry for the exception. */
  predicate CanHandle(handlers: seq<Handler>, pc: int, id: string) {
    exists i, j :: 0 <= i < |handlers| && 0 <= j < |handlers[i].cases|
                && handlers[i].begin <= pc < handlers[i].end && Catches(handlers[i].cases[j], id)
  }

  /** compare_to takes no name for the empty string. */
  predicate SameName(id: string, name: Option<string>) {
    id == if name == None then "" else name.value
  }

  predicate Hits(c: Case, id: string) {
    SameName(id, c.name) || (c.name == None && c.pc != INVALID_PC)
  }

  /** The first entry that the search takes. */
  function CaseOf(cases: seq<Case>, id: string): Option<int> {
    if cases == [] then None else if Hits(cases[0], id) then Some(cases[0].pc) else CaseOf(cases[1..], id)
  }

  datatype Found = Found(handler: Handler, pc: int)

  function HandlerOf(handlers: seq<Handler>, pc: int, id: string): Option<Found> {
    if handlers == [] then None
    else if Covers(handlers[0], pc) && CaseOf(handlers[0].cases, id) != None then
      Some(Found(handlers[0], CaseOf(handlers[0].cases, id).value))
    else HandlerOf(handlers[1..], pc, id)
  }

  /** The entry that only says there is no handler for every other exception. */
  predicate IsMarker(c: Case) { c == Case(None, INVALID_PC) }

  predicate HasMarker(cases: seq<Case>) { exists j :: 0 <= j < |cases| && IsMarker(cases[j]) }

  /** A handler that covers the pc has such an entry. */
  predicate MarkerCovers(handlers: seq<Handler>, pc: int) {
    exists i :: 0 <= i < |handlers| && Covers(handlers[i], pc) && HasMarker(handlers[i].cases)
  }

  /** The search takes the entries that are for the exception, and for the empty one the markers too. */
  lemma HitsIs(c: Case, id: string)
    ensures Hits(c, id) <==> Catches(c, id) || (id == "" && IsMarker(c))
  {
  }

  /** Entry j is the first that is for the exception. */
  ghost predicate FirstCatch(cases: seq<Case>, id: string, j: nat) {
    j < |cases| && Catches(cases[j], id) && forall k :: 0 <= k < j ==> !Catches(cases[k], id)
  }

  predicate CanCatch(cases: seq<Case>, id: string) { exists j :: 0 <= j < |cases| && Catches(cases[j], id) }

  lemma {:induction false} CaseOfIs(cases: seq<Case>, id: string)
    ensures CaseOf(cases, id) != None <==> CanCatch(cases, id) || (id == "" && HasMarker(cases))
    ensures id != "" || !HasMarker(cases) ==>
      forall j: nat :: FirstCatch(cases, id, j) ==> CaseOf(cases, id) == Some(cases[j].pc)
  {
    if cases != [] {
      HitsIs(cases[0], id);
      var rest := cases[1..];
      CaseOfIs(rest, id);
      assert forall j :: 0 < j < |cases| ==> cases[j] == rest[j - 1];
      assert forall j :: 0 <= j < |rest| ==> rest[j] == cases[j + 1];
      forall j: nat | FirstCatch(cases, id, j) && (id != "" || !HasMarker(cases)) ensures CaseOf(cases, id) == Some(cases[j].pc) {
        if j > 0 { assert FirstCatch(rest, id, j - 1); }
      }
    }
  }

  /** Handler i is the first that covers the pc and has an entry for the exception. */
  ghost predicate FirstHandler(handlers: seq<Handler>, pc: int, id: string, i: nat) {
    && i < |handlers| && CanHandle([handlers[i]], pc, id)
    && forall k :: 0 <= k < i ==> !CanHandle([handlers[k]], pc, id)
  }

  lemma CanHandleOne(h: Handler, pc: int, id: string)
    ensures CanHandle([h], pc, id) <==> Covers(h, pc) && CanCatch(h.cases, id)
  {
    if Covers(h, pc) && CanCatch(h.cases, id) { assert [h][0] == h; }
  }

  lemma CanHandleSplit(handlers: seq<Handler>, pc: int, id: string)
    requires handlers != []
    ensures CanHandle(handlers, pc, id) <==> CanHandle([handlers[0]], pc, id) || CanHandle(handlers[1..], pc, id)
    ensures MarkerCovers(handlers, pc) <==>
            (Covers(handlers[0], pc) && HasMarker(handlers[0].cases)) || MarkerCovers(handlers[1..], pc)
  {
    var rest := handlers[1..];
    assert forall i :: 0 < i < |handlers| ==> handlers[i] == rest[i - 1];
    assert forall i :: 0 <= i < |rest| ==> rest[i] == handlers[i + 1];
    CanHandleOne(handlers[0], pc, id);
    if CanHandle(rest, pc, id) {
      var i, j :| 0 <= i < |rest| && 0 <= j < |rest[i].cases| && Covers(rest[i], pc) && Catches(rest[i].cases[j], id);
      assert Catches(handlers[i + 1].cases[j], id);
    }
    if Covers(handlers[0], pc) && CanCatch(handlers[0].cases, id) {
      var j :| 0 <= j < |handlers[0].cases| && Catches(handlers[0].cases[j], id);
    }
  }

  /** What the search takes. Unless the exception is the empty string and a marker covers the pc, it is the first handler that
      can take the exception, at its first entry. */
  lemma {:induction false} HandlerOfIs(handlers: seq<Handler>, pc: int, id: string)
    ensures HandlerOf(handlers, pc, id) != None <==>
            CanHandle(handlers, pc, id) || (id == "" && MarkerCovers(handlers, pc))
    ensures id != "" || !MarkerCovers(handlers, pc) ==>
      forall i: nat, j: nat :: FirstHandler(handlers, pc, id, i) && FirstCatch(handlers[i].cases, id, j) ==>
        HandlerOf(handlers, pc, id) == Some(Found(handlers[i], handlers[i].cases[j].pc))
  {
    if handlers != [] {
      var rest := handlers[1..];
      HandlerOfIs(rest, pc, id);
      CanHandleSplit(handlers, pc, id);
      CanHandleOne(handlers[0], pc, id);
      CaseOfIs(handlers[0].cases, id);
      if id != "" || !MarkerCovers(handlers, pc) { TakesFirst(handlers, pc, id); }
    }
  }

  lemma TakesFirst(handlers: seq<Handler>, pc: int, id: string)
    requires handlers != [] && (id != "" || !MarkerCovers(handlers, pc))
    requires var rest := handlers[1..];
             forall i: nat, j: nat :: FirstHandler(rest, pc, id, i) && FirstCatch(rest[i].cases, id, j) ==>
               HandlerOf(rest, pc, id) == Some(Found(rest[i], rest[i].cases[j].pc))
    ensures forall i: nat, j: nat :: FirstHandler(handlers, pc, id, i) && FirstCatch(handlers[i].cases, id, j) ==>
              HandlerOf(handlers, pc, id) == Some(Found(handlers[i], handlers[i].cases[j].pc))
  {
    hide CanHandle, CanCatch, Catches, HasMarker;
    var rest := handlers[1..];
    CanHandleOne(handlers[0], pc, id);
    CaseOfIs(handlers[0].cases, id);
    forall i: nat, j: nat | FirstHandler(handlers, pc, id, i) && FirstCatch(handlers[i].cases, id, j)
      ensures HandlerOf(handlers, pc, id) == Some(Found(handlers[i], handlers[i].cases[j].pc))
    {
      if i > 0 {
        assert forall k :: 0 <= k < i - 1 ==> rest[k] == handlers[k + 1];
        assert FirstHandler(rest, pc, id, i - 1) && rest[i - 1] == handlers[i];
      }
    }
  }

  /** The search finds something exactly where some handler can take the exception, unless the exception is the empty string,
      no handler can take it and a marker covers the pc. */
  lemma SearchIsExactIff(handlers: seq<Handler>, pc: int, id: string)
    ensures (HandlerOf(handlers, pc, id) != None <==> CanHandle(handlers, pc, id)) <==>
            id != "" || CanHandle(handlers, pc, "") || !MarkerCovers(handlers, pc)
  {
    HandlerOfIs(handlers, pc, id);
  }

  /** The empty exception, sent to no instruction by an entry that is not for it. */
  lemma MarkerIsTaken()
    ensures var handlers := [Handler(0, 1, 0, None, [Case(None, INVALID_PC)])];
            !CanHandle(handlers, 0, "") && HandlerOf(handlers, 0, "") == Some(Found(handlers[0], INVALID_PC))
  {
    var handlers := [Handler(0, 1, 0, None, [Case(None, INVALID_PC)])];
    assert CaseOf([Case(None, INVALID_PC)], "") == Some(INVALID_PC);
  }

  // ---- the stack as a value, top frame first ----

  /** What a frame remembers of its caller; a module only where the call went to another one. */
  datatype Link = Link(prev_pc: int, prev_module: ModuleRef?)

  datatype Registers = Registers(module_ref: ModuleRef, mp: int)

  /** The module and MP registers after one return. */
  function Returned(r: Registers, l: Link): Registers {
    if l.prev_module != null then Registers(l.prev_module, l.prev_module.mp) else r
  }

  /** The registers after k returns. */
  function AfterReturns(r: Registers, links: seq<Link>, k: nat): Registers
    requires k <= |links|
  {
    if k == 0 then r else Returned(AfterReturns(r, links, k - 1), links[k - 1])
  }

  /** The instruction that frame k is at: the faulting one, or the call it waits for. */
  function PcAt(pc: int, links: seq<Link>, k: nat): int
    requires k <= |links|
  {
    if k == 0 then pc else links[k - 1].prev_pc - 1
  }

  function FoundAt(r: Registers, pc: int, links: seq<Link>, id: string, k: nat): Option<Found>
    requires k <= |links|
  {
    HandlerOf(AfterReturns(r, links, k).module_ref.handlers, PcAt(pc, links, k), id)
  }

  /** Frame k can handle the exception: by a handler of the module that runs there after k returns. */
  predicate HandlesAt(r: Registers, pc: int, links: seq<Link>, id: string, k: nat)
    requires k <= |links|
  {
    CanHandle(AfterReturns(r, links, k).module_ref.handlers, PcAt(pc, links, k), id)
  }

  lemma FoundIsHandled(r: Registers, pc: int, links: seq<Link>, id: string, k: nat)
    requires id != "" && k <= |links|
    ensures FoundAt(r, pc, links, id, k) != None <==> HandlesAt(r, pc, links, id, k)
  {
    HandlerOfIs(AfterReturns(r, links, k).module_ref.handlers, PcAt(pc, links, k), id);
  }

  // ---- frames, registers and instructions ----

  class Frame {
    var prev_frame: Frame?
    var prev_pc: int
    var prev_module_ref: ModuleRef?
    var words: seq<int>

    constructor (words: seq<int>)
      ensures prev_frame == null && prev_module_ref == null && this.words == words
    {
      prev_frame, prev_pc, prev_module_ref := null, INVALID_PC, null;
      this.words := words;
    }
  }

  ghost function NthFrame(frames: seq<Frame>, k: nat): Frame? { if k < |frames| then frames[k] else null }

  ghost predicate AllDifferent(frames: seq<Frame>) { forall i, j :: 0 <= i < j < |frames| ==> frames[i] != frames[j] }

  ghost function LinkOf(f: Frame): Link
    reads f
  {
    Link(f.prev_pc, f.prev_module_ref)
  }

  ghost function LinksOf(frames: seq<Frame>): (l: seq<Link>)
    reads frames
    ensures |l| == |frames| && forall i :: 0 <= i < |frames| ==> l[i] == LinkOf(frames[i])
  {
    if frames == [] then [] else [LinkOf(frames[0])] + LinksOf(frames[1..])
  }

  class Thread {
    var top: Frame?
    var module_ref: ModuleRef
    var mp_base: int
    var pc: int
    var next_pc: int
    ghost var frames: seq<Frame>

    ghost predicate Valid()
      reads this, frames
    {
      && top == NthFrame(frames, 0)
      && (forall i :: 0 <= i < |frames| ==> frames[i].prev_frame == NthFrame(frames, i + 1))
      && AllDifferent(frames)
    }

    ghost function Regs(): Registers
      reads this
    {
      Registers(module_ref, mp_base)
    }

    ghost function Links(): seq<Link>
      reads this, frames
    {
      LinksOf(frames)
    }

    constructor (module_ref: ModuleRef, pc: int)
      ensures Valid() && frames == [] && Regs() == Registers(module_ref, module_ref.mp) && this.pc == pc
    {
      top, frames := null, [];
      this.module_ref, mp_base := module_ref, module_ref.mp;
      this.pc, next_pc := pc, pc;
    }

    /** The nearest frame with a handler that takes the exception. */
    method FindExceptionHandler(id: string)
      returns (found: Option<Found>, frame: Frame?, ghost k: nat)
      requires Valid()
      ensures k <= |frames|
      ensures forall j :: 0 <= j < k ==> FoundAt(Regs(), pc, Links(), id, j) == None
      ensures if k == |frames| then found == None && frame == null
              else frame == frames[k] && found == FoundAt(Regs(), pc, Links(), id, k) && found != None
      ensures found == None <==> frame == null
      ensures found == None <==> forall j :: 0 <= j < |frames| ==> FoundAt(Regs(), pc, Links(), id, j) == None
    {
      hide AfterReturns, LinksOf, HandlerOf, AllDifferent;
      ghost var regs, links := Regs(), Links();
      NoReturns(regs, links);
      k := 0;
      var current_module := module_ref;
      var current_pc := pc;
      frame := top;
      while frame != null
        invariant k <= |frames| && frame == NthFrame(frames, k)
        invariant current_module == AfterReturns(regs, links, k).module_ref && current_pc == PcAt(pc, links, k)
        invariant forall j :: 0 <= j < k ==> FoundAt(regs, pc, links, id, j) == None
        decreases |frames| - k
      {
        found := SearchModule(current_module.handlers, current_pc, id);
        if found != None { return; }
        assert links[k] == LinkOf(frame);
        OneReturn(regs, links, k);
        current_pc := frame.prev_pc - 1;
        if frame.prev_module_ref != null { current_module := frame.prev_module_ref; }
        frame := frame.prev_frame;
        assert frames[k].prev_frame == frame;
        k := k + 1;
      }
      found := None;
    }

    method SearchModule(handlers: seq<Handler>, pc: int, id: string) returns (found: Option<Found>)
      ensures found == HandlerOf(handlers, pc, id)
    {
      var i := 0;
      while i < |handlers|
        invariant 0 <= i <= |handlers| && HandlerOf(handlers, pc, id) == HandlerOf(handlers[i..], pc, id)
      {
        var handler := handlers[i];
        assert handlers[i..][1..] == handlers[i + 1..];
        if pc < handler.begin || handler.end <= pc {
          i := i + 1;
          continue;
        }
        var j := 0;
        while j < |handler.cases|
          invariant 0 <= j <= |handler.cases| && CaseOf(handler.cases, id) == CaseOf(handler.cases[j..], id)
        {
          var e := handler.cases[j];
          assert handler.cases[j..][1..] == handler.cases[j + 1..];
          if SameName(id, e.name) {
            return Some(Found(handler, e.pc));
          } else if e.name == None && e.pc != INVALID_PC {
            return Some(Found(handler, e.pc));
          }
          j := j + 1;
        }
        i := i + 1;
      }
      found := None;
    }

    /** The module and MP registers belong together. */
    ghost predicate Steady()
      reads this
    {
      mp_base == module_ref.mp
    }

    method Push(f: Frame)
      requires Valid() && f !in frames
      modifies this`top, this`frames, f`prev_frame
      ensures Valid() && frames == [f] + old(frames)
    {
      f.prev_frame := top;
      top := f;
      frames := [f] + frames;
    }

    method Pop()
      requires Valid() && frames != []
      modifies this`top, this`frames
      ensures Valid() && frames == old(frames)[1..]
    {
      top := top.prev_frame;
      frames := frames[1..];
    }

    /** Call inside a module. */
    method Call(f: Frame, target: int)
      requires Valid() && f !in frames && f.prev_module_ref == null
      modifies this`top, this`frames, this`next_pc, f
      ensures Valid() && frames == [f] + old(frames) && next_pc == target && Regs() == old(Regs()) && f.words == old(f.words)
      ensures Links() == [Link(old(next_pc), null)] + old(Links())
    {
      Push(f);
      f.prev_pc := next_pc;
      next_pc := target;
      assert Links() == [Link(old(next_pc), null)] + old(Links());
    }

    /** Call into another module; the frame keeps the caller's. */
    method MCall(f: Frame, target_module: ModuleRef, target: int)
      requires Valid() && f !in frames
      modifies this`top, this`frames, this`next_pc, this`module_ref, this`mp_base, f
      ensures Valid() && Steady() && frames == [f] + old(frames) && next_pc == target && module_ref == target_module
      ensures f.words == old(f.words)
      ensures Links() == [Link(old(next_pc), old(module_ref))] + old(Links())
    {
      Push(f);
      f.prev_pc := next_pc;
      f.prev_module_ref := module_ref;
      module_ref := target_module;
      mp_base := module_ref.mp;
      next_pc := target;
      assert Links() == [Link(old(next_pc), old(module_ref))] + old(Links());
    }

    /** Leaves the top frame, taking over the module it keeps, if any. */
    method Leave()
      requires Valid() && frames != []
      modifies this`top, this`frames, this`module_ref, this`mp_base, top`prev_module_ref
      ensures Valid() && frames == old(frames)[1..]
      ensures Regs() == Returned(old(Regs()), old(LinkOf(frames[0]))) && Links() == old(Links())[1..]
      ensures old(Steady()) ==> Steady()
    {
      if top.prev_module_ref != null {
        module_ref := top.prev_module_ref;
        top.prev_module_ref := null;
        mp_base := module_ref.mp;
      }
      Pop();
      assert Links() == old(Links())[1..];
    }

    /** Return: one step of AfterReturns. */
    method Ret() returns (empty: bool)
      requires Valid() && frames != []
      modifies this, top
      ensures Valid() && frames == old(frames)[1..] && (empty <==> frames == [])
      ensures Regs() == Returned(old(Regs()), old(LinkOf(frames[0]))) && next_pc == old(frames[0].prev_pc)
      ensures Links() == old(Links())[1..] && pc == old(pc)
      ensures old(Steady()) ==> Steady()
    {
      next_pc := top.prev_pc;
      Leave();
      empty := top == null;
    }

    /** Raise: nothing changes when no frame takes the exception; otherwise the stack is unwound to exactly the frame that
        the search found, the registers are what returning to it would leave, and its handler continues there. */
    method Raise(e: int, id: string) returns (handled: bool, ghost k: nat)
      requires Valid() && frames != []
      requires forall j :: 0 <= j < |frames| && FoundAt(Regs(), pc, Links(), id, j) != None ==>
        Fits(FoundAt(Regs(), pc, Links(), id, j).value.handler, frames[j].words)
      modifies this, frames
      ensures Valid() && k <= |old(frames)| && (handled <==> k < |old(frames)|)
      ensures forall j :: 0 <= j < k ==> FoundAt(old(Regs()), old(pc), old(Links()), id, j) == None
      ensures !handled ==> frames == old(frames) && Regs() == old(Regs()) && next_pc == old(next_pc) && Links() == old(Links())
      ensures !handled ==> forall j :: 0 <= j < |frames| ==> frames[j].words == old(frames[j].words)
      ensures handled ==>
        var found := FoundAt(old(Regs()), old(pc), old(Links()), id, k);
        && found != None && frames == old(frames)[k..] && frames != [] && next_pc == found.value.pc
        && Regs() == AfterReturns(old(Regs()), old(Links()), k) && Links() == old(Links())[k..]
        && Fits(found.value.handler, old(frames[k].words))
        && frames[0].words == Stored(found.value.handler, old(frames[k].words), e)
      ensures old(Steady()) ==> Steady()
    {
      hide AfterReturns, Returned, FoundAt, Stored, LinksOf, AllDifferent;
      ghost var regs, links := Regs(), Links();
      var found, target;
      found, target, k := FindExceptionHandler(id);
      assert Regs() == regs && Links() == links;
      if found == None { return false, k; }
      Resume(found.value, target, k, e);
      handled := true;
    }

    /** An exception raised in a function that was called, at its instruction `at`: either a handler there takes it, or everything
        goes as if the call itself had raised it. */
    method CallAndRaise(f: Frame, target_module: ModuleRef?, target: int, at: int, e: int, id: string)
      returns (handled: bool, ghost k: nat)
      requires Valid() && Steady() && frames != [] && f !in frames && f.prev_module_ref == null && next_pc == pc + 1
      requires var callee := if target_module == null then module_ref else target_module;
               HandlerOf(callee.handlers, at, id) != None ==> Fits(HandlerOf(callee.handlers, at, id).value.handler, f.words)
      requires forall j :: 0 <= j < |frames| && FoundAt(Regs(), pc, Links(), id, j) != None ==>
        Fits(FoundAt(Regs(), pc, Links(), id, j).value.handler, frames[j].words)
      modifies this, frames, f
      ensures Valid() && Steady() && k <= |old(frames)| + 1 && (handled <==> k <= |old(frames)|)
      ensures k == 0 <==>
        HandlerOf((if target_module == null then old(module_ref) else target_module).handlers, at, id) != None
      ensures forall j :: 0 <= j < k - 1 ==> FoundAt(old(Regs()), old(pc), old(Links()), id, j) == None
      ensures handled && k > 0 ==>
        var found := FoundAt(old(Regs()), old(pc), old(Links()), id, k - 1);
        && found != None && frames == old(frames)[k - 1..] && next_pc == found.value.pc
        && Regs() == AfterReturns(old(Regs()), old(Links()), k - 1)
        && frames[0].words == Stored(found.value.handler, old(frames[k - 1].words), e)
      ensures id != "" && CanHandle(old(module_ref).handlers, old(pc), id) ==> handled && k <= 1
      ensures id != "" && !CanHandle(old(module_ref).handlers, old(pc), id) ==> k != 1
    {
      hide AfterReturns, LinksOf, FoundAt, HandlerOf, CanHandle, AllDifferent, Stored, Fits;
      CallerHandles(Regs(), pc, Links(), id);
      ghost var r, was, links := Regs(), pc, Links();
      Enter(f, target_module, target, at, id);
      ghost var r', links' := Regs(), Links();
      forall j | 0 <= j < |frames| && FoundAt(r', at, links', id, j) != None
        ensures Fits(FoundAt(r', at, links', id, j).value.handler, frames[j].words)
      {
        assert j > 0 ==> frames[j] == old(frames)[j - 1];
      }
      handled, k := Raise(e, id);
      forall j | 0 <= j < k - 1 ensures FoundAt(r, was, links, id, j) == None { assert FoundAt(r', at, links', id, j + 1) == None; }
      assert ([f] + old(frames))[k..] == if k == 0 then [f] + old(frames) else old(frames)[k - 1..];
    }

    /** A call, up to an instruction of the function called. The search from there on is the one from the call, one frame later. */
    method Enter(f: Frame, target_module: ModuleRef?, target: int, at: int, ghost id: string)
      requires Valid() && Steady() && frames != [] && f !in frames && f.prev_module_ref == null && next_pc == pc + 1
      modifies this, f
      ensures Valid() && Steady() && frames == [f] + old(frames) && f.words == old(f.words) && pc == at
      ensures Regs().module_ref == (if target_module == null then old(module_ref) else target_module)
      ensures FoundAt(Regs(), pc, Links(), id, 0) == HandlerOf(Regs().module_ref.handlers, at, id)
      ensures forall j :: 1 <= j <= |frames| ==>
        FoundAt(Regs(), pc, Links(), id, j) == FoundAt(old(Regs()), old(pc), old(Links()), id, j - 1)
      ensures forall j :: 1 <= j <= |frames| ==> AfterReturns(Regs(), Links(), j) == AfterReturns(old(Regs()), old(Links()), j - 1)
    {
      hide AfterReturns, LinksOf, FoundAt, HandlerOf, AllDifferent;
      ghost var regs, links, was := Regs(), Links(), pc;
      if target_module == null { Call(f, target); } else { MCall(f, target_module, target); }
      pc, next_pc := at, at + 1;
      CallShifts(regs, Regs(), was, at, links, Links(), id);
    }

    /** Unwinds to the frame that the search found and sets it up for its handler. */
    method Resume(found: Found, target: Frame, ghost k: nat, e: int)
      requires Valid() && k < |frames| && target == frames[k] && Fits(found.handler, target.words)
      modifies this`top, this`frames, this`module_ref, this`mp_base, this`next_pc, frames`prev_module_ref, target`words
      ensures Valid() && frames == old(frames)[k..] && frames != [] && next_pc == found.pc
      ensures Regs() == AfterReturns(old(Regs()), old(Links()), k) && Links() == old(Links())[k..]
      ensures frames[0].words == Stored(found.handler, old(frames[k].words), e)
      ensures old(Steady()) ==> Steady()
    {
      hide AfterReturns, Returned, Stored, LinksOf, AllDifferent, Fits, NthFrame;
      Unwind(target, k);
      Store(target, found.handler, e);
      next_pc := found.pc;
    }

    /** Clears the memory of the handler and stores the exception. */
    method Store(target: Frame, handler: Handler, e: int)
      requires Valid() && frames != [] && target == frames[0] && Fits(handler, target.words)
      modifies target`words
      ensures target.words == Stored(handler, old(target.words), e)
      ensures Valid() && Links() == old(Links())
    {
      hide AllDifferent, LinksOf;
      ghost var links := Links();
      if handler.size != None {
        target.words := seq(handler.size.value, _ => 0) + target.words[handler.size.value..];
      }
      target.words := target.words[handler.offset := e];
      assert forall i :: 0 <= i < |frames| ==> LinkOf(frames[i]) == links[i];
      assert Links() == links;
    }

    /** Pops until the target frame is on top, taking over the module of each frame on the way. */
    method Unwind(target: Frame, ghost k: nat)
      requires Valid() && k < |frames| && target == frames[k]
      modifies this`top, this`frames, this`module_ref, this`mp_base, frames`prev_module_ref
      ensures Valid() && frames == old(frames)[k..] && Links() == old(Links())[k..]
      ensures Regs() == AfterReturns(old(Regs()), old(Links()), k)
      ensures old(Steady()) ==> Steady()
    {
      hide AfterReturns, Returned, LinksOf;
      ghost var n := 0;
      ghost var all, links, regs := frames, Links(), Regs();
      var found := false;
      NoReturns(regs, links);
      OnlyTopIsFirst(frames, k);
      assert links[0..] == links && all[0..] == all;
      if target == top { return; }
      while !found
        invariant Valid() && n <= k && frames == all[n..] && (found <==> n == k)
        invariant Regs() == AfterReturns(regs, links, n) && Links() == links[n..]
        invariant old(Steady()) ==> Steady()
        decreases k - n
      {
        assert frames[0] == all[n] && LinkOf(all[n]) == links[n];
        Leave();
        OneReturn(regs, links, n);
        assert links[n..][1..] == links[n + 1..] && all[n..][1..] == all[n + 1..];
        n := n + 1;
        assert n < |all| && (all[n] == target <==> n == k);
        found := target == top;
      }
    }
  }

  /** After a call the search in the frames below is the one from the call, one frame earlier. */
  lemma CallShifts(r: Registers, r': Registers, pc: int, at: int, links: seq<Link>, links': seq<Link>, id: string)
    requires links' != [] && links' == [links'[0]] + links && links'[0].prev_pc == pc + 1 && Returned(r', links'[0]) == r
    ensures FoundAt(r', at, links', id, 0) == HandlerOf(r'.module_ref.handlers, at, id)
    ensures forall j :: 1 <= j <= |links'| ==> FoundAt(r', at, links', id, j) == FoundAt(r, pc, links, id, j - 1)
    ensures forall j :: 1 <= j <= |links'| ==> AfterReturns(r', links', j) == AfterReturns(r, links, j - 1)
  {
    forall j | 1 <= j <= |links'|
      ensures FoundAt(r', at, links', id, j) == FoundAt(r, pc, links, id, j - 1)
      ensures AfterReturns(r', links', j) == AfterReturns(r, links, j - 1)
    {
      ReturnsShift(r, r', links, links', j);
    }
  }

  lemma {:induction false} ReturnsShift(r: Registers, r': Registers, links: seq<Link>, links': seq<Link>, j: nat)
    requires 1 <= j <= |links'| && links' == [links'[0]] + links && Returned(r', links'[0]) == r
    ensures AfterReturns(r', links', j) == AfterReturns(r, links, j - 1)
  {
    if j == 1 {
      NoReturns(r', links');
      OneReturn(r', links', 0);
    } else {
      ReturnsShift(r, r', links, links', j - 1);
      assert links'[j - 1] == links[j - 2];
    }
  }

  lemma CallerHandles(r: Registers, pc: int, links: seq<Link>, id: string)
    ensures id != "" ==> (FoundAt(r, pc, links, id, 0) != None <==> CanHandle(r.module_ref.handlers, pc, id))
  {
    HandlerOfIs(r.module_ref.handlers, pc, id);
  }

  lemma OnlyTopIsFirst(frames: seq<Frame>, k: nat)
    requires AllDifferent(frames) && k < |frames|
    ensures frames[k] == frames[0] <==> k == 0
  {
  }

  lemma NoReturns(r: Registers, links: seq<Link>)
    ensures AfterReturns(r, links, 0) == r
  {
  }

  lemma OneReturn(r: Registers, links: seq<Link>, k: nat)
    requires k < |links|
    ensures AfterReturns(r, links, k + 1) == Returned(AfterReturns(r, links, k), links[k])
  {
  }

  predicate Fits(h: Handler, words: seq<int>) {
    h.offset < |words| && (h.size != None ==> h.size.value <= |words|)
  }

  /** The handler's memory, cleared as far as its type goes, with the exception in place. */
  function Stored(h: Handler, words: seq<int>, e: int): seq<int>
    requires Fits(h, words)
  {
    var cleared := if h.size == None then words else seq(h.size.value, _ => 0) + words[h.size.value..];
    cleared[h.offset := e]
  }

  /** The exception is where the handler wants it, the rest of the handler's memory is clear, everything behind it is kept. */
  lemma StoredIs(h: Handler, words: seq<int>, e: int, i: nat)
    requires Fits(h, words) && i < |words|
    ensures |Stored(h, words, e)| == |words|
    ensures Stored(h, words, e)[i] ==
            if i == h.offset then e else if h.size != None && i < h.size.value then 0 else words[i]
  {
  }

  /** After a call and the matching return the registers are the caller's again. */
  lemma ReturnUndoesCall(r: Registers, target: ModuleRef, next_pc: int)
    requires r.mp == r.module_ref.mp
    ensures Returned(Registers(target, target.mp), Link(next_pc, r.module_ref)) == r
    ensures Returned(r, Link(next_pc, null)) == r
  {
  }

  /** With module and MP in step, the registers after any number of returns are the module the search used, with its MP. */
  lemma {:induction false} ReturnsKeepModuleAndMp(r: Registers, links: seq<Link>, k: nat)
    requires r.mp == r.module_ref.mp && k <= |links|
    ensures AfterReturns(r, links, k).mp == AfterReturns(r, links, k).module_ref.mp
  {
    if k > 0 { ReturnsKeepModuleAndMp(r, links, k - 1); }
  }

  /** For a non-empty exception, the frame where Raise stops is the nearest one that can handle it. */
  lemma NearestHandler(r: Registers, pc: int, links: seq<Link>, id: string, k: nat)
    requires id != "" && k <= |links|
    ensures (FoundAt(r, pc, links, id, k) != None && forall j :: 0 <= j < k ==> FoundAt(r, pc, links, id, j) == None) <==>
            (HandlesAt(r, pc, links, id, k) && forall j :: 0 <= j < k ==> !HandlesAt(r, pc, links, id, j))
  {
    FoundIsHandled(r, pc, links, id, k);
    forall j | 0 <= j < k ensures FoundAt(r, pc, links, id, j) == None <==> !HandlesAt(r, pc, links, id, j) {
      FoundIsHandled(r, pc, links, id, j);
    }
  }
}
