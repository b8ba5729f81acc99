// Reference counting: the counts of allocations and the instructions that move references
// (src/vm/vm_memory.cpp, src/vm/list.cpp, src/vm/execution_table.cpp, src/vm/stack.cpp, src/vm/garbage_collector.cpp).
// An allocation is known by its place in the heap; places are not used again.
module RefCount {

  const NIL := -1

  /** Plain allocations have pointer fields; a list has its element's pointers and then its tail; a module has its data first. */
  datatype Kind = Plain | List(element: int) | Module(builtin: bool)

  datatype Cell = Free | Live(kind: Kind, count: nat, refs: seq<int>)

  type Cells = seq<Cell>

  /** How often o occurs among some references. */
  function Occurs(refs: seq<int>, o: int): nat {
    if refs == [] then 0 else Occurs(refs[..|refs| - 1], o) + (if refs[|refs| - 1] == o then 1 else 0)
  }

  function RefsFrom(c: Cell, o: int): nat { if c.Live? then Occurs(c.refs, o) else 0 }

  /** References to o from pointer fields and tails of live allocations. */
  function HeapRefs(cells: Cells, o: int): nat {
    if cells == [] then 0 else HeapRefs(cells[..|cells| - 1], o) + RefsFrom(cells[|cells| - 1], o)
  }

  function CountOf(c: Cell): nat { if c.Live? then c.count else 0 }

  function TotalCount(cells: Cells): nat {
    if cells == [] then 0 else TotalCount(cells[..|cells| - 1]) + CountOf(cells[|cells| - 1])
  }

  predicate IsLive(cells: Cells, o: int) { 0 <= o < |cells| && cells[o].Live? }

  predicate Sound(cells: Cells, o: int, refs: int) { refs == 0 || o == NIL || IsLive(cells, o) }

  /** Every count is the number of references, those from the heap and those in xs; short are references that are not counted
      yet. Nothing refers to a freed allocation. */
  ghost predicate Counted(cells: Cells, xs: multiset<int>, short: multiset<int>) {
    && (forall o :: IsLive(cells, o) ==> cells[o].count + short[o] == HeapRefs(cells, o) + xs[o])
    && (forall o :: Sound(cells, o, HeapRefs(cells, o) + xs[o]))
  }

  /** Nothing live is unreferenced. */
  ghost predicate Positive(cells: Cells) { forall o :: IsLive(cells, o) ==> cells[o].count > 0 }

  lemma {:induction false} HeapRefsUpdate(cells: Cells, i: nat, c: Cell, o: int)
    requires i < |cells|
    ensures HeapRefs(cells[i := c], o) + RefsFrom(cells[i], o) == HeapRefs(cells, o) + RefsFrom(c, o)
  {
    var n := |cells| - 1;
    if i == n {
      assert cells[i := c][..n] == cells[..n];
    } else {
      assert cells[i := c][..n] == cells[..n][i := c];
      HeapRefsUpdate(cells[..n], i, c, o);
    }
  }

  lemma {:induction false} OccursUpdate(refs: seq<int>, k: nat, v: int, o: int)
    requires k < |refs|
    ensures Occurs(refs[k := v], o) + (if refs[k] == o then 1 else 0) == Occurs(refs, o) + (if v == o then 1 else 0)
  {
    var n := |refs| - 1;
    if k == n {
      assert refs[k := v][..n] == refs[..n];
    } else {
      assert refs[k := v][..n] == refs[..n][k := v];
      OccursUpdate(refs[..n], k, v, o);
    }
  }

  lemma {:induction false} OccursIn(refs: seq<int>, o: int)
    ensures Occurs(refs, o) == multiset(refs)[o]
  {
    if refs != [] {
      OccursIn(refs[..|refs| - 1], o);
      assert refs == refs[..|refs| - 1] + [refs[|refs| - 1]];
    }
  }

  lemma {:induction false} TotalCountUpdate(cells: Cells, i: nat, c: Cell)
    requires i < |cells|
    ensures TotalCount(cells[i := c]) + CountOf(cells[i]) == TotalCount(cells) + CountOf(c)
  {
    var n := |cells| - 1;
    if i == n {
      assert cells[i := c][..n] == cells[..n];
    } else {
      assert cells[i := c][..n] == cells[..n][i := c];
      TotalCountUpdate(cells[..n], i, c);
    }
  }

  lemma {:induction false} HeldByField(cells: Cells, i: nat, k: nat)
    requires i < |cells| && cells[i].Live? && k < |cells[i].refs|
    ensures HeapRefs(cells, cells[i].refs[k]) > 0
  {
    var o := cells[i].refs[k];
    if i < |cells| - 1 {
      HeldByField(cells[..|cells| - 1], i, k);
    } else {
      OccursIn(cells[i].refs, o);
      assert o in cells[i].refs;
    }
  }

  // ---- one step of counting ----

  /** The same references, another count. */
  lemma SameRefs(cells: Cells, o: nat, c: Cell, x: int)
    requires o < |cells| && cells[o].Live? && c.Live? && c.refs == cells[o].refs
    ensures HeapRefs(cells[o := c], x) == HeapRefs(cells, x)
  {
    HeapRefsUpdate(cells, o, c, x);
  }

  lemma AddRefCounts(cells: Cells, xs: multiset<int>, short: multiset<int>, o: int)
    requires Counted(cells, xs, short) && IsLive(cells, o)
    ensures Counted(cells[o := cells[o].(count := cells[o].count + 1)], xs + multiset{o}, short)
  {
    var after := cells[o := cells[o].(count := cells[o].count + 1)];
    forall x ensures HeapRefs(after, x) == HeapRefs(cells, x) { SameRefs(cells, o, after[o], x); }
    forall x ensures Sound(after, x, HeapRefs(after, x) + (xs + multiset{o})[x]) {
      assert Sound(cells, x, HeapRefs(cells, x) + xs[x]);
    }
  }

  lemma ReleaseCounts(cells: Cells, xs: multiset<int>, o: int)
    requires Counted(cells, xs, multiset{}) && IsLive(cells, o) && cells[o].count > 0 && o in xs
    ensures Counted(cells[o := cells[o].(count := cells[o].count - 1)], xs - multiset{o}, multiset{})
  {
    var after := cells[o := cells[o].(count := cells[o].count - 1)];
    forall x ensures HeapRefs(after, x) == HeapRefs(cells, x) { SameRefs(cells, o, after[o], x); }
    forall x ensures Sound(after, x, HeapRefs(after, x) + (xs - multiset{o})[x]) {
      assert Sound(cells, x, HeapRefs(cells, x) + xs[x]);
    }
  }

  /** When the last reference goes, nothing else refers to the allocation, and what it refers to is owed a release. */
  lemma FreeCounts(cells: Cells, xs: multiset<int>, o: int)
    requires Counted(cells, xs, multiset{}) && IsLive(cells, o) && cells[o].count == 0
    ensures HeapRefs(cells, o) == 0 && xs[o] == 0
    ensures Counted(cells[o := Free], xs + multiset(cells[o].refs), multiset{})
  {
    var after := cells[o := Free];
    var ys := xs + multiset(cells[o].refs);
    forall x ensures HeapRefs(after, x) + ys[x] == HeapRefs(cells, x) + xs[x] {
      HeapRefsUpdate(cells, o, Free, x);
      OccursIn(cells[o].refs, x);
    }
    forall x ensures Sound(after, x, HeapRefs(after, x) + ys[x]) {
      assert Sound(cells, x, HeapRefs(cells, x) + xs[x]);
    }
  }

  /** Changing a field moves a reference into the heap and another one out of it. */
  lemma FieldCounts(cells: Cells, xs: multiset<int>, short: multiset<int>, o: int, k: nat, v: int)
    requires Counted(cells, xs, short) && IsLive(cells, o) && k < |cells[o].refs| && v in xs
    ensures Counted(cells[o := cells[o].(refs := cells[o].refs[k := v])], xs - multiset{v} + multiset{cells[o].refs[k]}, short)
  {
    var was := cells[o].refs;
    var after := cells[o := cells[o].(refs := was[k := v])];
    var ys := xs - multiset{v} + multiset{was[k]};
    forall x ensures HeapRefs(after, x) + ys[x] == HeapRefs(cells, x) + xs[x] {
      HeapRefsUpdate(cells, o, after[o], x);
      OccursUpdate(was, k, v, x);
    }
    forall x ensures Sound(after, x, HeapRefs(after, x) + ys[x]) {
      assert Sound(cells, x, HeapRefs(cells, x) + xs[x]);
    }
  }

  predicate AllNil(refs: seq<int>) { forall k :: 0 <= k < |refs| ==> refs[k] == NIL }

  function Nils(n: nat): (refs: seq<int>)
    ensures |refs| == n && AllNil(refs)
  {
    seq(n, _ => NIL)
  }

  lemma {:induction false} NilsOccur(n: nat, o: int)
    requires o != NIL
    ensures Occurs(Nils(n), o) == 0
  {
    if n > 0 {
      assert Nils(n)[..n - 1] == Nils(n - 1);
      NilsOccur(n - 1, o);
    }
  }

  lemma AllocateCounts(cells: Cells, xs: multiset<int>, short: multiset<int>, kind: Kind, n: nat)
    requires Counted(cells, xs, short) && |cells| !in short
    ensures Counted(cells + [Live(kind, 1, Nils(n))], xs + multiset{|cells|}, short)
  {
    var after := cells + [Live(kind, 1, Nils(n))];
    assert after[..|cells|] == cells;
    forall x | x != NIL ensures HeapRefs(after, x) == HeapRefs(cells, x) { NilsOccur(n, x); }
    forall x ensures Sound(after, x, HeapRefs(after, x) + (xs + multiset{|cells|})[x]) {
      assert Sound(cells, x, HeapRefs(cells, x) + xs[x]);
    }
    assert Sound(cells, |cells|, HeapRefs(cells, |cells|) + xs[|cells|]);
  }

  // ---- frames, registers and tracking ----

  /** A frame: its pointers and, after a call into another module, the caller's module with the reference to its data. */
  datatype Frame = Frame(prev_module: int, prev_mp: int, slots: seq<int>)

  function FrameRefs(f: Frame): multiset<int> { multiset(f.slots) + multiset{f.prev_module, f.prev_mp} }

  function FramesRefs(frames: seq<Frame>): multiset<int> {
    if frames == [] then multiset{} else FramesRefs(frames[..|frames| - 1]) + FrameRefs(frames[|frames| - 1])
  }

  lemma {:induction false} FramesRefsUpdate(frames: seq<Frame>, i: nat, f: Frame, o: int)
    requires i < |frames|
    ensures FramesRefs(frames[i := f])[o] + FrameRefs(frames[i])[o] == FramesRefs(frames)[o] + FrameRefs(f)[o]
  {
    hide FrameRefs;
    var n := |frames| - 1;
    if i == n {
      assert frames[i := f][..n] == frames[..n];
    } else {
      assert frames[i := f][..n] == frames[..n][i := f];
      FramesRefsUpdate(frames[..n], i, f, o);
    }
  }

  lemma SlotUpdate(slots: seq<int>, k: nat, v: int, o: int)
    requires k < |slots|
    ensures multiset(slots[k := v])[o] + multiset{slots[k]}[o] == multiset(slots)[o] + multiset{v}[o]
  {
    OccursUpdate(slots, k, v, o);
    OccursIn(slots, o);
    OccursIn(slots[k := v], o);
  }

  predicate IsModule(cells: Cells, m: int) { IsLive(cells, m) && cells[m].kind.Module? && |cells[m].refs| > 0 }

  function MpOf(cells: Cells, m: int): int
    requires IsModule(cells, m)
  {
    cells[m].refs[0]
  }

  /** Cells only lose counts or are freed; what stays live keeps its references. */
  ghost predicate Shrunk(was: Cells, now: Cells) {
    |now| == |was| && forall i :: 0 <= i < |now| && now[i].Live? ==>
      was[i].Live? && now[i].kind == was[i].kind && now[i].refs == was[i].refs
  }

  lemma NilCounts(cells: Cells, xs: multiset<int>, short: multiset<int>)
    requires Counted(cells, xs, short)
    ensures Counted(cells, xs - multiset{NIL}, short) && Counted(cells, xs + multiset{NIL}, short)
  {
    forall x ensures Sound(cells, x, HeapRefs(cells, x) + (xs - multiset{NIL})[x]) {
      assert Sound(cells, x, HeapRefs(cells, x) + xs[x]);
    }
    forall x ensures Sound(cells, x, HeapRefs(cells, x) + (xs + multiset{NIL})[x]) {
      assert Sound(cells, x, HeapRefs(cells, x) + xs[x]);
    }
  }

  lemma Referenced(cells: Cells, xs: multiset<int>, short: multiset<int>, o: int)
    requires Counted(cells, xs, short) && o in xs && o != NIL
    ensures IsLive(cells, o) && cells[o].count + short[o] > 0
  {
    assert Sound(cells, o, HeapRefs(cells, o) + xs[o]);
  }

  lemma CountIs(cells: Cells, xs: multiset<int>, o: int)
    requires Counted(cells, xs, NONE) && o in xs && o != NIL
    ensures IsLive(cells, o) && cells[o].count == HeapRefs(cells, o) + xs[o] > 0
  {
    assert Sound(cells, o, HeapRefs(cells, o) + xs[o]);
  }

  // ---- the machine ----

  /** Where an instruction reads or writes a pointer. */
  datatype Loc = Slot(frame: nat, k: nat) | Field(obj: nat, k: nat)

  datatype Outcome = Done | DereferenceNil | TypeViolation | ModuleNotLoaded | NoModuleData | EmptyStack

  const NONE: multiset<int> := multiset{}

  ghost predicate FrameOk(cells: Cells, f: Frame) {
    if f.prev_module == NIL then f.prev_mp == NIL else IsModule(cells, f.prev_module) && f.prev_mp == MpOf(cells, f.prev_module)
  }

  ghost predicate FramesOk(cells: Cells, frames: seq<Frame>) { forall i :: 0 <= i < |frames| ==> FrameOk(cells, frames[i]) }

  /** The references of one thread, from its frames and registers, and the rest. */
  function AllRoots(frames: seq<Frame>, module_ref: int, mp_base: int, rest: multiset<int>): multiset<int> {
    FramesRefs(frames) + multiset{module_ref, mp_base} + rest
  }

  /** The registers and frames of a thread that is not running. */
  datatype Regs = Regs(frames: seq<Frame>, module_ref: int, mp_base: int)

  function RegsRefs(r: Regs): multiset<int> { FramesRefs(r.frames) + multiset{r.module_ref, r.mp_base} }

  function OthersRefs(others: seq<Regs>): multiset<int> {
    if others == [] then multiset{} else OthersRefs(others[..|others| - 1]) + RegsRefs(others[|others| - 1])
  }

  /** The registers and frames keep a module together with its data. */
  ghost predicate RegsOk(cells: Cells, frames: seq<Frame>, module_ref: int, mp_base: int) {
    IsModule(cells, module_ref) && mp_base == MpOf(cells, module_ref) && FramesOk(cells, frames)
  }

  ghost predicate OthersOk(cells: Cells, others: seq<Regs>) {
    forall i :: 0 <= i < |others| ==> RegsOk(cells, others[i].frames, others[i].module_ref, others[i].mp_base)
  }

  class Machine {
    var cells: Cells
    var frames: seq<Frame>              // the top one last
    var module_ref: int
    var mp_base: int
    var tracking: seq<int>
    var others: seq<Regs>               // the threads that are not running

    /** A thread that starts in a module with some data: the registers refer to both, and the module to the data. */
    constructor (data: nat)
      ensures Valid() && frames == [] && tracking == [] && others == []
    {
      cells := [Live(Module(false), 1, [1]), Live(Plain, 2, Nils(data))];
      frames, module_ref, mp_base, tracking, others := [], 0, 1, [], [];
      new;
      StartCounts(data);
    }

    /** References from the frames and registers of all threads and from the collector's list. */
    ghost function Roots(): multiset<int>
      reads this
    {
      AllRoots(frames, module_ref, mp_base, Rest())
    }

    /** References from the collector's list and from other threads. */
    ghost function Rest(): multiset<int>
      reads this`tracking, this`others
    {
      multiset(tracking) + OthersRefs(others)
    }

    /** Every count is exactly the number of references, nothing refers to anything freed, nothing live is unreferenced; the
        registers and frames keep a module together with its data. */
    ghost predicate Valid()
      reads this
    {
      && Counted(cells, Roots(), NONE) && Positive(cells)
      && IsModule(cells, module_ref) && mp_base == MpOf(cells, module_ref) && FramesOk(cells, frames)
      && OthersOk(cells, others)
    }

    predicate ValidLoc(l: Loc)
      reads this
    {
      match l
      case Slot(f, k) => f < |frames| && k < |frames[f].slots|
      case Field(o, k) => IsLive(cells, o) && !cells[o].kind.Module? && k < |cells[o].refs|
    }

    function Read(l: Loc): int
      requires ValidLoc(l)
      reads this
    {
      match l case Slot(f, k) => frames[f].slots[k] case Field(o, k) => cells[o].refs[k]
    }

    /** add_ref. */
    method AddRef(o: int, ghost xs: multiset<int>, ghost short: multiset<int>)
      requires Counted(cells, xs, short) && IsLive(cells, o)
      modifies this`cells
      ensures cells == old(cells)[o := old(cells)[o].(count := old(cells)[o].count + 1)]
      ensures Counted(cells, xs + multiset{o}, short)
      ensures SameShape(old(cells), cells) && (Positive(old(cells)) ==> Positive(cells))
    {
      AddRefCounts(cells, xs, short, o);
      cells := cells[o := cells[o].(count := cells[o].count + 1)];
    }

    /** dec_ref_count_and_free: nothing more happens while references are left; with the last one the allocation is freed
        and its own references are released in order. The cascade ends: each release takes one from the sum of all counts. */
    method DecRef(o: int, ghost xs: multiset<int>)
      requires Counted(cells, xs, multiset{}) && Positive(cells) && o in xs
      modifies this`cells
      ensures Counted(cells, xs - multiset{o}, multiset{}) && Positive(cells)
      ensures Shrunk(old(cells), cells) && SameShape(old(cells), cells)
      ensures TotalCount(cells) <= old(TotalCount(cells)) && |cells| == |old(cells)|
      ensures IsLive(old(cells), o) && old(cells)[o].count > 1 ==>
        cells == old(cells)[o := old(cells)[o].(count := old(cells)[o].count - 1)]
      ensures IsLive(old(cells), o) && old(cells)[o].count == 1 ==> cells[o] == Free
      ensures o == NIL ==> cells == old(cells)
      decreases TotalCount(cells), 0
    {
      if o == NIL {
        NilCounts(cells, xs, multiset{});
        ShrunkKeeps(cells, cells);
        return;
      }
      hide Counted, Positive, Shrunk, SameShape;
      ghost var c0 := cells;
      Referenced(cells, xs, multiset{}, o);
      ReleaseCounts(cells, xs, o);
      var c := cells[o].(count := cells[o].count - 1);
      TotalCountUpdate(cells, o, c);
      StillPositive(cells, o, c);
      StillPositive(cells, o, c);
      cells := cells[o := c];
      OneShrunk(c0, o, c);
      ShrunkKeeps(c0, cells);
      if c.count == 0 {
        FreeCounts(cells, xs - multiset{o}, o);
        TotalCountUpdate(cells, o, Free);
        cells := cells[o := Free];
        ghost var owed := xs - multiset{o} + multiset(c.refs);
        ghost var c1 := cells;
        DecRefs(c.refs, owed);
        Cancel(xs - multiset{o}, multiset(c.refs));
        ShrunkTwice(c0, c1, cells, o);
        ShrunkKeeps(c0, cells);
      }
    }

    /** Releases references in order: the pointer fields of what is destroyed, then the tail of a list. */
    method DecRefs(refs: seq<int>, ghost xs: multiset<int>)
      requires Counted(cells, xs, multiset{}) && Positive(cells) && multiset(refs) <= xs
      modifies this`cells
      ensures Counted(cells, xs - multiset(refs), multiset{}) && Positive(cells) && Shrunk(old(cells), cells)
      ensures TotalCount(cells) <= old(TotalCount(cells))
      ensures AllNil(refs) ==> cells == old(cells)
      decreases TotalCount(cells), 1
    {
      hide Counted, Positive;
      var k := 0;
      assert xs - multiset(refs[..0]) == xs;
      while k < |refs|
        invariant 0 <= k <= |refs| && Counted(cells, xs - multiset(refs[..k]), multiset{}) && Positive(cells)
        invariant Shrunk(old(cells), cells) && TotalCount(cells) <= old(TotalCount(cells))
        invariant AllNil(refs) ==> cells == old(cells)
      {
        StillOwed(refs, k, xs);
        DecRef(refs[k], xs - multiset(refs[..k]));
        k := k + 1;
      }
      assert refs[..k] == refs;
    }

    // -- instructions --

    /** A store: the new reference is counted already, the old one is still to be released. */
    method Put(l: Loc, v: int, ghost xs: multiset<int>, ghost short: multiset<int>)
      requires ValidLoc(l) && Counted(cells, Roots() + xs + multiset{v}, short)
      modifies this`cells, this`frames
      ensures Counted(cells, Roots() + xs + multiset{old(Read(l))}, short)
      ensures ValidLoc(l) && Read(l) == v
      ensures SamePrevs(old(frames), frames) && SameShape(old(cells), cells) && (Positive(old(cells)) ==> Positive(cells))
      ensures Stores(old(cells), cells, old(frames), frames, l, v)
      ensures |cells| == |old(cells)| && forall o :: IsLive(cells, o) <==> IsLive(old(cells), o)
      ensures l.Slot? ==> cells == old(cells)
      ensures l.Field? ==>
        frames == old(frames) && cells == old(cells)[l.obj := old(cells)[l.obj].(refs := old(cells)[l.obj].refs[l.k := v])]
    {
      hide Counted, Positive, SameShape, AllRoots, Rest;
      Unchanged(cells);
      match l {
        case Slot(f, k) =>
          SlotRoots(frames, module_ref, mp_base, Rest(), f, k, v, xs);
          frames := frames[f := frames[f].(slots := frames[f].slots[k := v])];
        case Field(o, k) =>
          FieldCounts(cells, Roots() + xs + multiset{v}, short, o, k, v);
          FieldRoots(Roots() + xs, v, cells[o].refs[k]);
          FieldKeeps(cells, o, k, v);
          cells := cells[o := cells[o].(refs := cells[o].refs[k := v])];
      }
    }

    /** The pointer move: reference first, store, then release what was there. */
    method MovePointer(v: int, dest: Loc)
      requires Valid() && ValidLoc(dest) && (v != NIL ==> IsLive(cells, v))
      modifies this`cells, this`frames
      ensures Valid() && Stores(old(cells), cells, old(frames), frames, dest, v) && |cells| == |old(cells)|
      ensures ValidLoc(dest) ==> Read(dest) == v
      ensures dest.Slot? || Anchored(old(cells), old(Roots()), dest.obj, dest.k) ==> ValidLoc(dest)
    {
      hide Counted, Positive, AllRoots, Rest, FramesOk, OthersOk, IsModule, SameShape, Shrunk, Anchored, Valid, Stores, KeepsRefs;
      ghost var c0, f0, roots := cells, frames, Roots();
      Parts();
      var prev := StorePointer(v, dest);
      ghost var c1 := cells;
      DecRef(prev, Roots() + multiset{prev});
      EmptyUnion(Roots(), prev);
      if dest.Field? && Anchored(c0, roots, dest.obj, dest.k) { AnchorHolds(c1, cells, Roots(), dest.obj, dest.k); }
      StoredHolds(c1, dest, v);
      Unchanged(c0);
      Unchanged(cells);
      ShrunkKeeps(c1, cells);
      StoresBetween(c0, c0, c1, cells, f0, frames, dest, v);
      Finish(c0, f0, c1, cells);
    }

    /** What a store put there stays as long as its place lives. */
    lemma StoredHolds(c1: Cells, dest: Loc, v: int)
      requires Shrunk(c1, cells)
      requires dest.Slot? ==> ValidLoc(dest) && Read(dest) == v
      requires dest.Field? ==> IsLive(c1, dest.obj) && !c1[dest.obj].kind.Module? && HoldsAt(c1, dest.obj, dest.k, v)
      ensures ValidLoc(dest) ==> Read(dest) == v
      ensures dest.Slot? || IsLive(cells, dest.obj) ==> ValidLoc(dest)
    {
    }

    lemma Parts()
      requires Valid()
      ensures Counted(cells, Roots(), NONE) && Positive(cells)
      ensures IsModule(cells, module_ref) && mp_base == MpOf(cells, module_ref)
      ensures FramesOk(cells, frames) && OthersOk(cells, others)
    {
    }

    /** The new reference is counted and stored; the old one is handed back, still to be released. */
    method StorePointer(v: int, dest: Loc) returns (prev: int)
      requires Counted(cells, Roots(), NONE) && Positive(cells) && ValidLoc(dest) && (v != NIL ==> IsLive(cells, v))
      modifies this`cells, this`frames
      ensures prev == old(Read(dest)) && Counted(cells, Roots() + multiset{prev}, NONE) && Positive(cells)
      ensures SamePrevs(old(frames), frames) && SameShape(old(cells), cells) && |cells| == |old(cells)|
      ensures Stores(old(cells), cells, old(frames), frames, dest, v)
      ensures ValidLoc(dest) && Read(dest) == v
      ensures dest.Field? ==> Roots() == old(Roots())
      ensures dest.Field? && Anchored(old(cells), old(Roots()), dest.obj, dest.k) ==> Anchored(cells, Roots(), dest.obj, dest.k)
    {
      hide Counted, Positive, AllRoots, Rest, SameShape, Anchored, Plus, Stores, KeepsRefs;
      prev := Read(dest);
      ghost var c0, f0 := cells, frames;
      EmptyUnion(Roots(), v);
      AddRefIf(v);
      ghost var c1 := cells;
      PlusKeeps(c0, v);
      Put(dest, v, NONE, NONE);
      EmptyUnion(Roots(), prev);
      if dest.Field? { AnchorStays(c0, v, cells, Roots(), dest.obj, dest.k, v); }
      Chain(c0, c0, c1, cells);
      Unchanged(cells);
      StoresBetween(c0, c1, cells, cells, f0, frames, dest, v);
    }

    /** add_ref where there is something to refer to. */
    method AddRefIf(v: int)
      requires Counted(cells, Roots(), NONE) && Positive(cells) && (v != NIL ==> IsLive(cells, v))
      modifies this`cells
      ensures cells == Plus(old(cells), v) && Counted(cells, Roots() + multiset{v}, NONE) && Positive(cells)
    {
      hide Counted, Positive, AllRoots, Rest;
      if v != NIL { AddRef(v, Roots(), NONE); } else { NilCounts(cells, Roots(), NONE); }
    }

    /** movp. */
    method Movp(src: Loc, dest: Loc)
      requires Valid() && ValidLoc(src) && ValidLoc(dest)
      modifies this`cells, this`frames
      ensures Valid() && Stores(old(cells), cells, old(frames), frames, dest, old(Read(src)))
      ensures ValidLoc(dest) ==> Read(dest) == old(Read(src))
      ensures dest.Slot? ==> ValidLoc(dest)
    {
      ReadIsLive(src);
      MovePointer(Read(src), dest);
    }

    /** What a location holds is nil or live. */
    lemma ReadIsLive(l: Loc)
      requires Valid() && ValidLoc(l)
      ensures Read(l) != NIL ==> IsLive(cells, Read(l))
    {
      LocIsCounted(cells, frames, module_ref, mp_base, Rest(), l);
      assert Sound(cells, Read(l), HeapRefs(cells, Read(l)) + Roots()[Read(l)]);
    }

    predicate IsList(o: int)
      reads this
    {
      IsLive(cells, o) && cells[o].kind.List? && |cells[o].refs| > 0
    }

    /** headp: the element of a list of pointers. */
    method Headp(src: Loc, dest: Loc) returns (out: Outcome)
      requires Valid() && ValidLoc(src) && ValidLoc(dest)
      requires Read(src) != NIL ==> IsList(Read(src)) && |cells[Read(src)].refs| == 2
      modifies this`cells, this`frames
      ensures Valid()
      ensures if old(Read(src)) == NIL then out == DereferenceNil && cells == old(cells) && frames == old(frames)
              else
                var head := old(cells)[old(Read(src))].refs[0];
                && out == Done && Stores(old(cells), cells, old(frames), frames, dest, head)
                && (ValidLoc(dest) ==> Read(dest) == head)
    {
      hide Valid, Stores;
      var list := Read(src);
      if list == NIL { return DereferenceNil; }
      ReadIsLive(Field(list, 0));
      MovePointer(cells[list].refs[0], dest);
      out := Done;
    }

    /** tail. */
    method Tail(src: Loc, dest: Loc) returns (out: Outcome)
      requires Valid() && ValidLoc(src) && ValidLoc(dest)
      requires Read(src) != NIL ==> IsList(Read(src))
      modifies this`cells, this`frames
      ensures Valid()
      ensures if old(Read(src)) == NIL then out == DereferenceNil && cells == old(cells) && frames == old(frames)
              else
                var list := old(cells)[old(Read(src))].refs;
                && out == Done && Stores(old(cells), cells, old(frames), frames, dest, list[|list| - 1])
                && (ValidLoc(dest) ==> Read(dest) == list[|list| - 1])
    {
      hide Valid, Stores;
      var list := Read(src);
      if list == NIL { return DereferenceNil; }
      var last := |cells[list].refs| - 1;
      ReadIsLive(Field(list, last));
      MovePointer(cells[list].refs[last], dest);
      out := Done;
    }

    /** A new allocation with the one reference of whoever asked for it. */
    method Allocate(kind: Kind, n: nat, ghost xs: multiset<int>, ghost short: multiset<int>) returns (o: nat)
      requires Counted(cells, xs, short) && |cells| !in short
      modifies this`cells
      ensures o == |old(cells)| && cells == old(cells) + [Live(kind, 1, Nils(n))]
      ensures Counted(cells, xs + multiset{o}, short) && SameShape(old(cells), cells)
      ensures Positive(old(cells)) ==> Positive(cells)
    {
      AllocateCounts(cells, xs, short, kind, n);
      o := |cells|;
      cells := cells + [Live(kind, 1, Nils(n))];
    }

    /** track_allocation: the collector takes a reference. */
    method Track(o: int, ghost xs: multiset<int>, ghost short: multiset<int>)
      requires Counted(cells, Roots() + xs, short) && IsLive(cells, o)
      modifies this`cells, this`tracking
      ensures Counted(cells, Roots() + xs, short) && tracking == [o] + old(tracking)
      ensures SameShape(old(cells), cells) && (Positive(old(cells)) ==> Positive(cells))
      ensures cells == old(cells)[o := old(cells)[o].(count := old(cells)[o].count + 1)]
    {
      hide Counted, Positive, SameShape, FramesRefs;
      AddRef(o, Roots() + xs, short);
      TrackRoots(FramesRefs(frames), multiset{module_ref, mp_base}, tracking, OthersRefs(others), xs, o);
      tracking := [o] + tracking;
    }

    /** frame: room for a call, all nil. */
    method AllocFrame(n: nat)
      requires Valid()
      modifies this`frames
      ensures Valid() && frames == old(frames) + [Frame(NIL, NIL, Nils(n))]
    {
      hide Counted, Positive, FramesRefs;
      ghost var before := Roots();
      var f := Frame(NIL, NIL, Nils(n));
      FramePushed(frames, f, multiset{module_ref, mp_base}, Rest());
      frames := frames + [f];
      SameUpToNil(cells, before, Roots(), NONE);
    }

    /** new: what the destination held is released first; an allocation with pointers is tracked. */
    method New(dest: Loc, n: nat) returns (ghost o: nat)
      requires Valid() && Addressable(dest)
      modifies this`cells, this`frames, this`tracking
      ensures Valid() && Stores(old(cells), cells, old(frames), frames, dest, o)
      ensures ValidLoc(dest) && Read(dest) == o && o == |old(cells)|
      ensures IsLive(cells, o) && cells[o] == Live(Plain, if n > 0 then 2 else 1, Nils(n))
      ensures tracking == if n > 0 then [o as int] + old(tracking) else old(tracking)
    {
      AddressableIsAnchored(dest);
      hide Valid, Anchored, Stores;
      ghost var c0, f0 := cells, frames;
      MovePointer(NIL, dest);
      ghost var c1, f1 := cells, frames;
      o := Place(dest, n);
      StoresTwice(c0, c1, cells, f0, f1, frames, dest, NIL, o);
    }

    /** What the address modes of an instruction can name: a slot, a field of the module's data, or a field of what a slot or a
        field of the module's data points to. */
    ghost predicate Addressable(l: Loc)
      reads this
    {
      ValidLoc(l) && (l.Field? ==>
        || l.obj == mp_base
        || (exists f: nat, s: nat :: f < |frames| && s < |frames[f].slots| && frames[f].slots[s] == l.obj)
        || (exists j: nat :: HoldsAt(cells, mp_base, j, l.obj)))
    }

    lemma AddressableIsAnchored(l: Loc)
      requires Addressable(l)
      ensures ValidLoc(l) && (l.Field? ==> Anchored(cells, Roots(), l.obj, l.k))
    {
      if l.Field? && l.obj !in Roots() {
        if f: nat, s: nat :| f < |frames| && s < |frames[f].slots| && frames[f].slots[s] == l.obj {
          SlotInFrames(frames, f, s);
        } else {
          var j: nat :| HoldsAt(cells, mp_base, j, l.obj);
          assert mp_base in Roots();
        }
      }
    }

    /** The allocation of new, its tracking and its store. */
    method Place(dest: Loc, n: nat) returns (ghost o: nat)
      requires Valid() && ValidLoc(dest) && Read(dest) == NIL
      modifies this`cells, this`frames, this`tracking
      ensures Valid() && Stores(old(cells), cells, old(frames), frames, dest, o)
      ensures ValidLoc(dest) && Read(dest) == o && o == |old(cells)|
      ensures IsLive(cells, o) && cells[o] == Live(Plain, if n > 0 then 2 else 1, Nils(n))
      ensures tracking == if n > 0 then [o as int] + old(tracking) else old(tracking)
    {
      hide Counted, Positive, AllRoots, Rest, FramesOk, OthersOk, IsModule, SameShape, Valid, Stores, KeepsRefs;
      ghost var c0, f0 := cells, frames;
      Parts();
      var a := Allocate(Plain, n, Roots(), NONE);
      o := a;
      ghost var c1 := cells;
      if n > 0 { Track(a, multiset{a}, NONE); }
      Unchanged(c1);
      ghost var c2 := cells;
      GrownKeeps(c0, c1, c2);
      Overwrite(dest, a, NIL);
      Unchanged(cells);
      StoresBetween(c0, c2, cells, cells, f0, frames, dest, a);
      Finish(c0, f0, c1, c2);
    }

    // -- lists --

    /** set_tail in the constructor of a list, and then the release of the tail by the instruction: the reference that the
        destination held is not counted until the destination is overwritten. */
    method Link(tail: int, element: int, n: nat, ghost xs: multiset<int>) returns (o: nat)
      requires Counted(cells, Roots() + xs, NONE) && Positive(cells) && (tail != NIL ==> IsLive(cells, tail))
      modifies this`cells
      ensures Counted(cells, Roots() + xs + multiset{o}, Short(tail)) && Positive(cells) && SameShape(old(cells), cells)
      ensures Linked(old(cells), cells, tail, element, n) && o == |old(cells)|
    {
      hide Counted, Positive, SameShape, AllRoots, Rest, Linked;
      ghost var ys := Roots() + xs;
      ghost var c0 := cells;
      NotShort(c0);
      o := Allocate(List(element), n + 1, ys, NONE);
      ghost var c1 := cells;
      Unchanged(cells);
      if tail != NIL {
        PositiveAt(c0, tail);
        AddRef(tail, ys + multiset{o}, NONE);
        ghost var c2 := cells;
        FieldCounts(cells, ys + multiset{o} + multiset{tail}, NONE, o, n, tail);
        FieldRoots(ys + multiset{o}, tail, NIL);
        FieldKeeps(cells, o, n, tail);
        cells := cells[o := cells[o].(refs := cells[o].refs[n := tail])];
        NilCounts(cells, ys + multiset{o} + multiset{NIL}, NONE);
        FieldRoots(ys + multiset{o}, NIL, NIL);
        EmptyUnion(ys + multiset{o}, NIL);
        Chain(c0, c1, c2, cells);
        ghost var c3 := cells;
        ReleaseShort(cells, ys + multiset{o}, tail);
        cells := cells[tail := cells[tail].(count := cells[tail].count - 1)];
        Chain(c0, c0, c3, cells);
      }
      LinkedHolds(c0, c1, cells, tail, element, n);
    }

    /** The element's pointers, counted before, are copied into the list. */
    method Copy(o: nat, values: seq<int>, ghost xs: multiset<int>, ghost short: multiset<int>)
      requires Counted(cells, Roots() + xs + multiset(values), short) && Positive(cells)
      requires IsLive(cells, o) && !cells[o].kind.Module? && |values| <= |cells[o].refs|
      requires forall k :: 0 <= k < |values| ==> cells[o].refs[k] == NIL
      modifies this`cells
      ensures Counted(cells, Roots() + xs, short) && Positive(cells) && SameShape(old(cells), cells)
      ensures cells == old(cells)[o := old(cells)[o].(refs := values + old(cells)[o].refs[|values|..])]
    {
      hide Counted, Positive, SameShape, AllRoots, Rest;
      ghost var ys := Roots() + xs;
      ghost var was := cells[o];
      var k := 0;
      assert values[0..] == values;
      assert values[..0] + was.refs[0..] == was.refs;
      Unchanged(cells);
      while k < |values|
        invariant 0 <= k <= |values| && frames == old(frames) && tracking == old(tracking)
        invariant Counted(cells, ys + multiset(values[k..]), short) && Positive(cells) && SameShape(old(cells), cells)
        invariant cells == old(cells)[o := was.(refs := values[..k] + was.refs[k..])]
      {
        ghost var c1 := cells;
        FirstOfRest(values, k, ys);
        FieldCounts(cells, ys + multiset(values[k..]), short, o, k, values[k]);
        FieldKeeps(cells, o, k, values[k]);
        CopyStep(values, was.refs, k);
        cells := cells[o := cells[o].(refs := cells[o].refs[k := values[k]])];
        Chain(old(cells), old(cells), c1, cells);
        SameUpToNil(cells, ys + multiset(values[k..]) - multiset{values[k]} + multiset{was.refs[k]},
          ys + multiset(values[k + 1..]), short);
        k := k + 1;
      }
      assert ys + multiset(values[k..]) == ys && values[..k] == values;
    }

    /** cons of an element without pointers. */
    method Cons(dest: Loc, element: int) returns (out: Outcome)
      requires Valid() && ValidLoc(dest) && (Read(dest) != NIL ==> IsList(Read(dest)))
      modifies this`cells, this`frames
      ensures Valid()
      ensures var tail, o := old(Read(dest)), |old(cells)|;
        if tail != NIL && old(cells)[tail].kind.element != element then
          out == TypeViolation && cells == old(cells) && frames == old(frames)
        else
          && out == Done && ValidLoc(dest) && Read(dest) == o
          && Stores(old(cells), cells, old(frames), frames, dest, o)
          && IsLive(cells, o) && cells[o] == Live(List(element), 1, [tail])
    {
      hide Counted, Positive, AllRoots, Rest, FramesOk, OthersOk, IsModule, SameShape, Linked, Valid, Stores, KeepsRefs;
      ghost var c0, f0 := cells, frames;
      Parts();
      var tail := Read(dest);
      if tail != NIL && cells[tail].kind.element != element { return TypeViolation; }
      ReadIsLive(dest);
      NoneMore(Roots());
      var o := Link(tail, element, 0, NONE);
      ghost var c1 := cells;
      LinkedMeans(c0, c1, tail, element, 0);
      assert Nils(0) + [tail] == [tail];
      Overwrite(dest, o, tail);
      Unchanged(c1);
      Unchanged(cells);
      StoresBetween(c0, c1, cells, cells, f0, frames, dest, o);
      Finish(c0, f0, c1, c1);
      out := Done;
    }

    /** References to all of these are added. */
    method AddRefs(values: seq<int>, ghost xs: multiset<int>, ghost short: multiset<int>)
      requires Counted(cells, xs, short) && Positive(cells)
      requires forall k :: 0 <= k < |values| && values[k] != NIL ==> IsLive(cells, values[k])
      modifies this`cells
      ensures Counted(cells, xs + multiset(values), short) && Positive(cells)
      ensures SameButCounts(old(cells), cells) && SameShape(old(cells), cells)
    {
      hide Counted, Positive, SameShape;
      var k := 0;
      assert xs + multiset(values[..0]) == xs;
      Unchanged(cells);
      while k < |values|
        invariant 0 <= k <= |values| && Counted(cells, xs + multiset(values[..k]), short) && Positive(cells)
        invariant SameButCounts(old(cells), cells) && SameShape(old(cells), cells)
      {
        ghost var c1 := cells;
        assert values[..k + 1] == values[..k] + [values[k]];
        if values[k] != NIL {
          AddRef(values[k], xs + multiset(values[..k]), short);
        } else {
          NilCounts(cells, xs + multiset(values[..k]), short);
          Unchanged(cells);
        }
        Chain(old(cells), old(cells), c1, cells);
        assert xs + multiset(values[..k + 1]) == xs + multiset(values[..k]) + multiset{values[k]};
        k := k + 1;
      }
      assert values[..k] == values;
    }

    /** A new allocation takes the place of what the destination held: nothing, or the tail of a new list. */
    method Overwrite(dest: Loc, o: int, tail: int)
      requires ValidLoc(dest) && Read(dest) == tail && Counted(cells, Roots() + multiset{o}, Short(tail)) && Positive(cells)
      modifies this`cells, this`frames
      ensures ValidLoc(dest) && Read(dest) == o && Counted(cells, Roots(), NONE) && Positive(cells)
      ensures SamePrevs(old(frames), frames) && SameShape(old(cells), cells)
      ensures Stores(old(cells), cells, old(frames), frames, dest, o)
      ensures IsLive(old(cells), o) && (dest.Field? ==> dest.obj != o) ==> IsLive(cells, o) && cells[o] == old(cells)[o]
    {
      hide Counted, Positive, SameShape, AllRoots, Rest, Stores;
      EmptyUnion(Roots(), o);
      Put(dest, o, NONE, Short(tail));
      EmptyUnion(Roots(), tail);
      Settle(cells, Roots(), tail);
    }

    /** The element goes into the new list, which is tracked if there is one. */
    method Fill(o: nat, value: int, tail: int)
      requires Counted(cells, Roots() + multiset{o}, Short(tail)) && Positive(cells) && (value != NIL ==> IsLive(cells, value))
      requires IsLive(cells, o) && cells[o].kind.List? && cells[o].refs == [NIL, tail]
      modifies this`cells, this`tracking
      ensures Counted(cells, Roots() + multiset{o}, Short(tail)) && Positive(cells)
      ensures SameShape(old(cells), cells) && |cells| == |old(cells)| && SameBefore(old(cells), cells, o)
      ensures cells[o].Live? && cells[o].kind == old(cells)[o].kind && cells[o].refs == [value, tail]
      ensures tracking == (if value != NIL then [o as int] else []) + old(tracking)
    {
      hide Counted, Positive, AllRoots, Rest, SameShape, SameBefore;
      ghost var c1 := cells;
      AddRefs([value], Roots() + multiset{o}, Short(tail));
      ghost var c2 := cells;
      SameRead(c1, c2);
      assert c2[o].refs[1..] == [tail];
      Copy(o, [value], multiset{o}, Short(tail));
      ghost var c3 := cells;
      if value != NIL { Track(o, multiset{o}, Short(tail)); } else { Unchanged(cells); }
      Chain(c1, c2, c3, cells);
      FilledShape(c1, c2, c3, cells, o);
    }

    /** consp: a new list in front of the one in the destination. */
    method Consp(src: Loc, dest: Loc, element: int) returns (out: Outcome)
      requires Valid() && ValidLoc(src) && ValidLoc(dest) && (Read(dest) != NIL ==> IsList(Read(dest)))
      modifies this`cells, this`frames, this`tracking
      ensures Valid()
      ensures var tail, value, o := old(Read(dest)), old(Read(src)), |old(cells)|;
        if tail != NIL && old(cells)[tail].kind.element != element then
          out == TypeViolation && cells == old(cells) && frames == old(frames) && tracking == old(tracking)
        else
          && out == Done && ValidLoc(dest) && Read(dest) == o
          && Stores(old(cells), cells, old(frames), frames, dest, o)
          && IsLive(cells, o) && cells[o].kind == List(element) && cells[o].refs == [value, tail]
          && tracking == (if value != NIL then [o] else []) + old(tracking)
    {
      hide Counted, Positive, AllRoots, Rest, FramesOk, OthersOk, IsModule, SameShape, SameBefore, Linked, Valid, Stores, KeepsRefs;
      ghost var c0, f0 := cells, frames;
      Parts();
      var tail := Read(dest);
      if tail != NIL && cells[tail].kind.element != element { return TypeViolation; }
      ReadIsLive(src);
      ReadIsLive(dest);
      NoneMore(Roots());
      var o := Link(tail, element, 1, NONE);
      ghost var c1 := cells;
      LinkedMeans(c0, c1, tail, element, 1);
      assert Nils(1) == [NIL];
      Fill(o, Read(src), tail);
      ghost var c2 := cells;
      FilledMeans(c0, c1, c2, o);
      Overwrite(dest, o, tail);
      Unchanged(cells);
      StoresBetween(c0, c2, cells, cells, f0, frames, dest, o);
      Finish(c0, f0, c1, c2);
      out := Done;
    }

    /** The list of consmp: the element's references are counted already. */
    method Assemble(values: seq<int>, tail: int, element: int, track: bool) returns (o: nat)
      requires Counted(cells, Roots() + multiset(values), NONE) && Positive(cells) && (tail != NIL ==> IsLive(cells, tail))
      modifies this`cells, this`tracking
      ensures o == |old(cells)| && Counted(cells, Roots() + multiset{o}, Short(tail)) && Positive(cells)
      ensures SameShape(old(cells), cells) && SameButCounts(old(cells), cells[..o]) && |cells| == o + 1
      ensures cells[o].Live? && cells[o].kind == List(element) && cells[o].refs == values + [tail]
      ensures tracking == (if track then [o as int] else []) + old(tracking)
    {
      hide Counted, Positive, AllRoots, Rest, SameShape, Linked, SameButCounts;
      ghost var c0 := cells;
      o := Link(tail, element, |values|, multiset(values));
      ghost var c1 := cells;
      LinkedMeans(c0, c1, tail, element, |values|);
      SameCells(c1);
      SwapRoots(Roots(), multiset(values), multiset{o});
      Copy(o, values, multiset{o}, Short(tail));
      ghost var c3 := cells;
      if track { Track(o, multiset{o}, Short(tail)); } else { Unchanged(cells); }
      Chain(c0, c0, c1, c3);
      Chain(c0, c0, c3, cells);
      BuiltShape(c0, c1, c1, c3, cells, o);
    }

    function ReadAll(srcs: seq<Loc>): (values: seq<int>)
      requires forall i :: 0 <= i < |srcs| ==> ValidLoc(srcs[i])
      reads this
      ensures |values| == |srcs| && forall i :: 0 <= i < |srcs| ==> values[i] == Read(srcs[i])
    {
      if srcs == [] then [] else [Read(srcs[0])] + ReadAll(srcs[1..])
    }

    /** consmp: an element of several pointers. It counts its references before the tail's type is checked: when the types
        differ (which ends the thread) they stay counted with nothing to hold them, so the counts are right then exactly if
        the element has none. */
    method Consmp(srcs: seq<Loc>, dest: Loc, element: int, size: nat) returns (out: Outcome)
      requires Valid() && ValidLoc(dest) && (Read(dest) != NIL ==> IsList(Read(dest)))
      requires forall i :: 0 <= i < |srcs| ==> ValidLoc(srcs[i])
      modifies this`cells, this`frames, this`tracking
      ensures var tail, values, o := old(Read(dest)), old(ReadAll(srcs)), |old(cells)|;
        if tail != NIL && old(cells)[tail].kind.element != element then
          && out == TypeViolation && frames == old(frames) && tracking == old(tracking)
          && Counted(cells, Roots() + multiset(values), NONE) && (Valid() <==> AllNil(values))
        else
          && Valid() && out == Done && ValidLoc(dest) && Read(dest) == o
          && Stores(old(cells), cells, old(frames), frames, dest, o)
          && IsLive(cells, o) && cells[o].kind == List(element) && cells[o].refs == values + [tail]
          && tracking == (if size > 0 then [o] else []) + old(tracking)
    {
      hide Counted, Positive, AllRoots, Rest, FramesOk, OthersOk, IsModule, SameShape, SameButCounts, Valid, Stores, KeepsRefs;
      ghost var c0, f0 := cells, frames;
      Parts();
      var tail := Read(dest);
      var values := ReadAll(srcs);
      AllLive(srcs, values);
      ReadIsLive(dest);
      AddRefs(values, Roots(), NONE);
      ghost var c1 := cells;
      SameRead(c0, c1);
      if tail != NIL && cells[tail].kind.element != element {
        Leaked(c0, values);
        return TypeViolation;
      }
      var o := Assemble(values, tail, element, size > 0);
      ghost var c2 := cells;
      SameRead(c1, cells[..o]);
      PrefixKeeps(c0, c1, c2, o);
      Overwrite(dest, o, tail);
      Unchanged(cells);
      StoresBetween(c0, c2, cells, cells, f0, frames, dest, o);
      Finish(c0, f0, c1, c2);
      out := Done;
    }

    lemma AllLive(srcs: seq<Loc>, values: seq<int>)
      requires Valid() && (forall i :: 0 <= i < |srcs| ==> ValidLoc(srcs[i])) && values == ReadAll(srcs)
      ensures forall k :: 0 <= k < |values| && values[k] != NIL ==> IsLive(cells, values[k])
    {
      forall k | 0 <= k < |values| && values[k] != NIL ensures IsLive(cells, values[k]) { ReadIsLive(srcs[k]); }
    }

    /** References that are counted but do not exist. */
    lemma Leaked(c0: Cells, values: seq<int>)
      requires Counted(cells, Roots() + multiset(values), NONE) && Positive(cells) && SameShape(c0, cells)
      requires IsModule(c0, module_ref) && mp_base == MpOf(c0, module_ref) && FramesOk(c0, frames) && OthersOk(c0, others)
      ensures Valid() <==> AllNil(values)
    {
      if AllNil(values) {
        SameUpToNil(cells, Roots() + multiset(values), Roots(), NONE);
        Unchanged(cells);
        Finish(c0, frames, cells, cells);
      } else {
        var i :| 0 <= i < |values| && values[i] != NIL;
        assert values[i] in multiset(values);
        Referenced(cells, Roots() + multiset(values), NONE, values[i]);
      }
    }

    // -- calls between modules --

    /** mcall, with the new frame on top already. A built-in module runs outside the machine and returns at once; a module of
        the machine takes over. One without data is dereferenced all the same. */
    method MCall(l: Loc) returns (out: Outcome)
      requires Valid() && ValidLoc(l) && |frames| > 0 && frames[|frames| - 1].prev_module == NIL
      requires Read(l) != NIL ==> IsModule(cells, Read(l)) && (cells[Read(l)].kind.builtin ==> MpOf(cells, Read(l)) == NIL)
      modifies this`cells, this`frames, this`module_ref, this`mp_base
      ensures Valid()
      ensures var target, n := old(Read(l)), |old(frames)| - 1;
        if target == NIL then
          && out == ModuleNotLoaded && cells == old(cells) && frames == old(frames)
          && module_ref == old(module_ref) && mp_base == old(mp_base)
        else if old(cells)[target].kind.builtin then
          && out == (if n == 0 then EmptyStack else Done) && frames == old(frames)[..n] && Shrunk(old(cells), cells)
          && module_ref == old(module_ref) && mp_base == old(mp_base)
          && (AllNil(old(frames)[n].slots) ==> cells == old(cells))
        else if MpOf(old(cells), target) == NIL then
          out == NoModuleData
        else
          && out == Done && module_ref == target && mp_base == MpOf(old(cells), target)
          && frames == old(frames)[n := Frame(old(module_ref), old(mp_base), old(frames)[n].slots)]
          && cells == Plus(Plus(old(cells), target), mp_base)
    {
      hide Valid, Shrunk;
      var target := Read(l);
      if target == NIL { return ModuleNotLoaded; }
      if cells[target].kind.builtin {
        ghost var c0 := cells;
        PlusThenReturn(target);
        Enter(target);
        out := Ret();
        PlusShrunk(c0, target, cells);
        return;
      }
      if MpOf(cells, target) == NIL { return NoModuleData; }
      Enter(target);
      out := Done;
    }

    /** The registers move into the frame on top, and take the target and its data. */
    method Enter(target: int)
      requires Valid() && |frames| > 0 && frames[|frames| - 1].prev_module == NIL && IsModule(cells, target)
      modifies this`cells, this`frames, this`module_ref, this`mp_base
      ensures Valid() && module_ref == target && mp_base == MpOf(old(cells), target)
      ensures var n := |old(frames)| - 1;
        frames == old(frames)[n := Frame(old(module_ref), old(mp_base), old(frames)[n].slots)]
      ensures cells == Plus(Plus(old(cells), target), mp_base)
    {
      hide Counted, Positive, AllRoots, Rest, SameShape, FramesOk, OthersOk, FramesRefs, IsModule, Plus;
      ghost var c0, f0, roots := cells, frames, Roots();
      var n := |frames| - 1;
      CallRoots(cells, f0, module_ref, mp_base, Rest(), target, MpOf(cells, target));
      EnterOk(target);
      frames := frames[n := Frame(module_ref, mp_base, frames[n].slots)];
      module_ref := target;
      mp_base := CountTarget(roots);
      SameUpToNil(cells, roots + multiset{target} + multiset{mp_base}, Roots(), NONE);
    }

    /** The references of the registers to the module entered and its data, if it has any. */
    method CountTarget(ghost roots: multiset<int>) returns (data: int)
      requires Counted(cells, roots, NONE) && Positive(cells) && IsModule(cells, module_ref)
      modifies this`cells
      ensures data == MpOf(old(cells), module_ref) && cells == Plus(Plus(old(cells), module_ref), data)
      ensures Counted(cells, roots + multiset{module_ref} + multiset{data}, NONE)
    {
      hide Counted, Positive;
      DataIsLive(cells, roots, module_ref);
      AddRef(module_ref, roots, NONE);
      data := MpOf(cells, module_ref);
      if data != NIL {
        AddRef(data, roots + multiset{module_ref}, NONE);
      } else {
        NilCounts(cells, roots + multiset{module_ref}, NONE);
      }
    }

    lemma EnterOk(target: int)
      requires Valid() && |frames| > 0 && IsModule(cells, target)
      ensures var n := |frames| - 1; var data := MpOf(cells, target); var now := Plus(Plus(cells, target), data);
        && RegsOk(now, frames[n := Frame(module_ref, mp_base, frames[n].slots)], target, data)
        && OthersOk(now, others) && Positive(now)
    {
      var data := MpOf(cells, target);
      CallFrames(cells, Plus(Plus(cells, target), data), frames, module_ref, mp_base, target);
      OthersPlus(cells, Plus(Plus(cells, target), data), target, data, others);
    }

    /** A module's data is live, unless it has none. */
    lemma ModuleIsLive(target: int)
      requires Valid() && IsModule(cells, target)
      ensures IsLive(cells, target) && IsModule(Plus(cells, target), target)
      ensures MpOf(Plus(cells, target), target) == MpOf(cells, target)
      ensures MpOf(cells, target) != NIL ==> IsLive(cells, MpOf(cells, target)) && IsLive(Plus(cells, target), MpOf(cells, target))
    {
      DataIsLive(cells, Roots(), target);
    }

    /** What a call counts, the return gives back. */
    lemma PlusThenReturn(target: int)
      requires Valid() && IsModule(cells, target)
      ensures var data := MpOf(cells, target); var now := Plus(Plus(cells, target), data);
              Spare(now, target) && (data == NIL || Spare(Minus(now, target), data)) && Minus(Minus(now, target), data) == cells
      ensures module_ref != NIL
    {
      ModuleIsLive(target);
      var data := MpOf(cells, target);
      if data != NIL { PlusMinus(cells, target, data); } else { PlusMinus(cells, target, target); }
    }

    /** ret: back in the caller's module if the frame came from one, and the frame is gone. */
    method Ret() returns (out: Outcome)
      requires Valid() && |frames| > 0
      modifies this`cells, this`frames, this`module_ref, this`mp_base
      ensures Valid() && Shrunk(old(cells), cells)
      ensures frames == old(frames)[..|old(frames)| - 1] && out == if frames == [] then EmptyStack else Done
      ensures var top := old(frames)[|old(frames)| - 1];
        if top.prev_module != NIL then module_ref == top.prev_module && mp_base == top.prev_mp
        else module_ref == old(module_ref) && mp_base == old(mp_base)
      ensures old(ReturnsPlainly()) ==> cells == Minus(Minus(old(cells), old(module_ref)), old(mp_base))
    {
      hide Valid, Shrunk;
      ghost var c0 := cells;
      if frames[|frames| - 1].prev_module != NIL { Leave(); } else { SelfShrunk(cells); }
      ghost var c1 := cells;
      PopFrame();
      ShrunkChain(c0, c1, cells);
      out := if frames == [] then EmptyStack else Done;
    }

    /** The frame on top is empty and from another module, and neither the module left nor its data goes with the return. */
    ghost predicate ReturnsPlainly()
      requires |frames| > 0
      reads this
    {
      var top := frames[|frames| - 1];
      && top.prev_module != NIL && AllNil(top.slots)
      && Spare(cells, module_ref) && (mp_base == NIL || Spare(Minus(cells, module_ref), mp_base))
    }

    /** The part of ret that leaves a module. */
    method Leave()
      requires Valid() && |frames| > 0 && frames[|frames| - 1].prev_module != NIL
      modifies this`cells, this`frames, this`module_ref, this`mp_base
      ensures Valid() && Shrunk(old(cells), cells)
      ensures var n := |old(frames)| - 1; var top := old(frames)[n];
        && frames == old(frames)[n := Frame(NIL, NIL, top.slots)]
        && module_ref == top.prev_module && mp_base == top.prev_mp
      ensures (
        && Spare(old(cells), old(module_ref))
        && (old(mp_base) == NIL || Spare(Minus(old(cells), old(module_ref)), old(mp_base)))) ==>
        cells == Minus(Minus(old(cells), old(module_ref)), old(mp_base))
    {
      hide Counted, Positive, AllRoots, Rest, SameShape, FramesOk, OthersOk, FramesRefs, IsModule, Shrunk;
      ghost var c0, f0, roots := cells, frames, Roots();
      var n := |frames| - 1;
      var top := frames[n];
      TopIsOk(c0, frames);
      ReturnRoots(frames, module_ref, mp_base, Rest());
      ghost var owed := roots - multiset{module_ref};
      DecRef(module_ref, roots);
      ghost var c1 := cells;
      module_ref := top.prev_module;
      frames := frames[n := top.(prev_module := NIL)];
      DecRef(mp_base, owed);
      ShrunkChain(c0, c1, cells);
      ShrunkKeeps(c0, cells);
      owed := owed - multiset{mp_base};
      KeptModule(c0, cells, owed, module_ref);
      mp_base := MpOf(cells, module_ref);
      frames := frames[n := Frame(NIL, NIL, top.slots)];
      assert frames == f0[n := Frame(NIL, NIL, top.slots)];
      SameUpToNil(cells, owed, Roots(), NONE);
      LeftFrames(c0, f0);
      Unchanged(c0);
      Unchanged(cells);
      Finish(c0, frames, c0, cells);
    }

    /** pop_frame: what the frame's pointers held is released. */
    method PopFrame()
      requires Valid() && |frames| > 0 && frames[|frames| - 1].prev_module == NIL
      modifies this`cells, this`frames
      ensures Valid() && Shrunk(old(cells), cells) && frames == old(frames)[..|old(frames)| - 1]
      ensures var slots := old(frames)[|old(frames)| - 1].slots;
        AllNil(slots) ==> cells == old(cells)
    {
      hide Counted, Positive, AllRoots, Rest, SameShape, FramesOk, OthersOk, FramesRefs, IsModule, Shrunk;
      ghost var c0, roots := cells, Roots();
      var n := |frames| - 1;
      var top := frames[n];
      PopRoots(cells, frames, module_ref, mp_base, Rest());
      DecRefs(top.slots, roots);
      frames := frames[..n];
      SameUpToNil(cells, roots - multiset(top.slots), Roots(), NONE);
      ShrunkKeeps(c0, cells);
      Unchanged(c0);
      Unchanged(cells);
      Finish(c0, frames, c0, cells);
    }

    /** A call into another module and the return from it: the registers are the caller's again and the frame is gone. Without
        pointers in the frame every count is as before; with pointers only what they kept alive can go. */
    method CallAndReturn(l: Loc) returns (out: Outcome)
      requires Valid() && ValidLoc(l) && |frames| > 0 && frames[|frames| - 1].prev_module == NIL
      requires Read(l) != NIL && IsModule(cells, Read(l))
      requires cells[Read(l)].kind.builtin <==> MpOf(cells, Read(l)) == NIL
      modifies this`cells, this`frames, this`module_ref, this`mp_base
      ensures Valid() && Shrunk(old(cells), cells) && module_ref == old(module_ref) && mp_base == old(mp_base)
      ensures var n := |old(frames)| - 1;
        frames == old(frames)[..n] && (AllNil(old(frames)[n].slots) ==> cells == old(cells))
    {
      hide Valid, Shrunk;
      ghost var c0, target := cells, Read(l);
      PlusThenReturn(target);
      var builtin := cells[Read(l)].kind.builtin;
      out := MCall(l);
      if !builtin {
        out := Ret();
        PlusShrunk(c0, target, cells);
      }
    }

    // -- threads --

    /** A worker leaves one thread and goes on with another. */
    method Switch(i: nat)
      requires Valid() && i < |others|
      modifies this`frames, this`module_ref, this`mp_base, this`others
      ensures Valid() && Roots() == old(Roots())
      ensures Regs(frames, module_ref, mp_base) == old(others)[i]
      ensures others == old(others)[i := Regs(old(frames), old(module_ref), old(mp_base))]
    {
      hide Counted, Positive, FramesRefs, OthersRefs, FramesOk, IsModule;
      ghost var was := others;
      var r, next := Regs(frames, module_ref, mp_base), others[i];
      OthersRefsUpdate(others, i, r);
      SwappedRoots(RegsRefs(r), multiset(tracking), OthersRefs(others), RegsRefs(next), OthersRefs(others[i := r]));
      SwappedOk(cells, others, i, r);
      others := others[i := r];
      frames, module_ref, mp_base := next.frames, next.module_ref, next.mp_base;
    }

    /** spawn: the frame on top holds the arguments; the new thread gets a copy of it and references of its own, and then the
        frame goes. */
    method Spawn() returns (out: Outcome)
      requires Valid() && |frames| > 0 && frames[|frames| - 1].prev_module == NIL
      modifies this`cells, this`frames, this`others
      ensures Valid() && Shrunk(old(cells), cells) && frames == old(frames)[..|old(frames)| - 1]
      ensures others == old(others) + [Regs([Frame(NIL, NIL, old(frames)[|old(frames)| - 1].slots)], module_ref, mp_base)]
      ensures out == if frames == [] then EmptyStack else Done
    {
      hide Valid, Shrunk, SameButCounts;
      ghost var c0 := cells;
      Fork();
      ghost var c1 := cells;
      PopFrame();
      CountsShrink(c0, c1, cells);
      out := if frames == [] then EmptyStack else Done;
    }

    /** The new thread: its registers, and the arguments copied and counted. */
    method Fork()
      requires Valid() && |frames| > 0
      modifies this`cells, this`others
      ensures Valid() && SameButCounts(old(cells), cells)
      ensures others == old(others) + [Regs([Frame(NIL, NIL, frames[|frames| - 1].slots)], module_ref, mp_base)]
    {
      hide Counted, Positive, FramesOk, OthersOk, IsModule, SameButCounts, AllRoots, OthersRefs;
      ghost var c0, roots := cells, Roots();
      RegistersLive();
      var slots := frames[|frames| - 1].slots;
      AddRefIf(mp_base);
      ghost var c1 := cells;
      CountFork(slots, roots + multiset{mp_base});
      PlusIsSame(c0, mp_base);
      SameTwice(c0, c1, cells);
      ForkRoots(frames, module_ref, mp_base, tracking, others, slots);
      ForkedOk(c0, cells, frames, module_ref, mp_base, others, slots);
      others := others + [Regs([Frame(NIL, NIL, slots)], module_ref, mp_base)];
      SameUpToNil(cells, roots + multiset{mp_base} + multiset{module_ref} + multiset(slots), Roots(), NONE);
    }

    /** The references of the new thread to its module and arguments. */
    method CountFork(slots: seq<int>, ghost xs: multiset<int>)
      requires Counted(cells, xs, NONE) && Positive(cells) && IsLive(cells, module_ref)
      requires forall k :: 0 <= k < |slots| && slots[k] != NIL ==> IsLive(cells, slots[k])
      modifies this`cells
      ensures Counted(cells, xs + multiset{module_ref} + multiset(slots), NONE) && Positive(cells)
      ensures SameButCounts(old(cells), cells)
    {
      hide Counted, Positive, SameButCounts;
      ghost var c0 := cells;
      PlusIsSame(c0, module_ref);
      AddRef(module_ref, xs, NONE);
      ghost var c1 := cells;
      SameRead(c0, c1);
      AddRefs(slots, xs + multiset{module_ref}, NONE);
      SameTwice(c0, c1, cells);
    }

    /** The registers and the slots of frames hold nil or something live. */
    lemma RegistersLive()
      requires Valid()
      ensures IsLive(cells, module_ref) && (mp_base != NIL ==> IsLive(cells, mp_base))
      ensures forall f, k :: 0 <= f < |frames| && 0 <= k < |frames[f].slots| && frames[f].slots[k] != NIL ==>
        IsLive(cells, frames[f].slots[k])
    {
      assert mp_base in Roots();
      if mp_base != NIL { Referenced(cells, Roots(), NONE, mp_base); }
      forall f, k | 0 <= f < |frames| && 0 <= k < |frames[f].slots| && frames[f].slots[k] != NIL
        ensures IsLive(cells, frames[f].slots[k])
      {
        ReadIsLive(Slot(f, k));
      }
    }

    /** A thread whose stack is empty goes: its registers give up their references. */
    method End(i: nat)
      requires Valid() && i < |others| && others[i].frames == []
      modifies this`cells, this`others
      ensures Valid() && Shrunk(old(cells), cells) && others == old(others)[..i] + old(others)[i + 1..]
    {
      hide Counted, Positive, FramesOk, IsModule, Shrunk, AllRoots, OthersRefs, SameShape, OthersOk;
      ghost var c0, roots := cells, Roots();
      var r := others[i];
      EndRoots(frames, module_ref, mp_base, tracking, others, i);
      EndedOk(cells, others, i);
      DecRefs([r.mp_base, r.module_ref], roots);
      others := others[..i] + others[i + 1..];
      ShrunkKeeps(c0, cells);
      Unchanged(c0);
      Unchanged(cells);
      Finish(c0, frames, c0, cells);
    }

    // -- the collector's references --

    /** One removal: the collector gives up its reference, and the allocation goes exactly if there was no other. */
    method Untrack(k: nat)
      requires Valid() && k < |tracking|
      modifies this`cells, this`tracking
      ensures Valid() && Shrunk(old(cells), cells) && tracking == old(tracking)[..k] + old(tracking)[k + 1..]
      ensures var a := old(tracking)[k]; a != NIL ==>
        if HeapRefs(old(cells), a) + old(Roots())[a] == 1 then cells[a] == Free else cells == Minus(old(cells), a)
    {
      hide OthersRefs, HeapRefs, Minus;
      hide Counted, Positive, AllRoots, SameShape, FramesOk, OthersOk, FramesRefs, IsModule, Shrunk;
      ghost var c0, roots := cells, Roots();
      var a := tracking[k];
      UntrackRoots(frames, module_ref, mp_base, tracking, OthersRefs(others), k);
      GiveUp(a, roots);
      tracking := tracking[..k] + tracking[k + 1..];
      Unchanged(c0);
      Unchanged(cells);
      Finish(c0, frames, c0, cells);
    }

    /** A release, by the number of references: the last one frees the allocation. */
    method GiveUp(a: int, ghost xs: multiset<int>)
      requires Counted(cells, xs, NONE) && Positive(cells) && a in xs
      modifies this`cells
      ensures Counted(cells, xs - multiset{a}, NONE) && Positive(cells)
      ensures Shrunk(old(cells), cells) && SameShape(old(cells), cells)
      ensures a != NIL ==>
        if HeapRefs(old(cells), a) + xs[a] == 1 then cells[a] == Free else cells == Minus(old(cells), a)
    {
      hide Counted, Positive, SameShape, Shrunk, HeapRefs;
      ghost var c0 := cells;
      if a != NIL { CountIs(cells, xs, a); }
      DecRef(a, xs);
    }

    /** sweep: goes through the list once and removes what is dead. */
    method Sweep(dead: set<int>)
      requires Valid()
      modifies this`cells, this`tracking
      ensures Valid() && Shrunk(old(cells), cells) && tracking == Kept(old(tracking), dead)
    {
      hide Valid, Shrunk, Sweeping;
      var all := tracking;
      var kept: seq<int> := [];
      var i := 0;
      SelfShrunk(cells);
      SweepStarts(all, dead);
      while i < |all|
        invariant 0 <= i <= |all| && Valid() && Shrunk(old(cells), cells) && Sweeping(tracking, kept, all, i, dead)
      {
        ghost var c1 := cells;
        SweepStep(tracking, kept, all, i, dead);
        if all[i] in dead {
          Untrack(|kept|);
          ShrunkChain(old(cells), c1, cells);
        } else {
          kept := kept + [all[i]];
        }
        i := i + 1;
      }
      SweepEnds(tracking, kept, all, dead);
    }

    lemma RootsHold()
      ensures FramesRefs(frames) <= Roots() && module_ref in Roots() && OthersRefs(others) <= Roots()
    {
    }

    /** The counts are right again, and modules are what they were. */
    lemma Finish(c0: Cells, f0: seq<Frame>, c1: Cells, c2: Cells)
      requires Counted(cells, Roots(), NONE) && Positive(cells)
      requires IsModule(c0, module_ref) && mp_base == MpOf(c0, module_ref) && FramesOk(c0, f0) && SamePrevs(f0, frames)
      requires OthersOk(c0, others)
      requires SameShape(c0, c1) && SameShape(c1, c2) && SameShape(c2, cells)
      ensures Valid()
    {
      hide Counted, Positive, AllRoots, Rest, FramesRefs, OthersRefs, FramesOk, OthersOk, IsModule, SameShape, SamePrevs;
      RootsHold();
      Chain(c0, c1, c2, cells);
      ModulesStay(c0, cells, f0, frames, module_ref, Roots());
      OthersStay(c0, cells, others, Roots());
    }
  }

  function Short(tail: int): multiset<int> { if tail == NIL then NONE else multiset{tail} }

  /** What linking leaves: the new list after everything else, holding the tail; and no other change. */
  ghost predicate Linked(was: Cells, now: Cells, tail: int, element: int, n: nat) {
    && |now| == |was| + 1 && now == was + [Live(List(element), 1, Nils(n) + [tail])]
  }

  lemma LinkedHolds(c0: Cells, c1: Cells, now: Cells, tail: int, element: int, n: nat)
    requires c1 == c0 + [Live(List(element), 1, Nils(n + 1))]
    requires tail == NIL ==> now == c1
    requires tail != NIL ==> IsLive(c0, tail)
    requires tail != NIL ==> (
      var c2 := c1[tail := c1[tail].(count := c1[tail].count + 1)];
      var c3 := c2[|c0| := c2[|c0|].(refs := c2[|c0|].refs[n := tail])];
      now == c3[tail := c3[tail].(count := c1[tail].count)])
    ensures Linked(c0, now, tail, element, n)
  {
    assert Nils(n + 1)[n := tail] == Nils(n) + [tail];
    assert Nils(n + 1) == Nils(n) + [NIL];
  }

  lemma PositiveAt(cells: Cells, o: int)
    requires Positive(cells) && IsLive(cells, o)
    ensures cells[o].count > 0
  {
  }

  lemma NotShort(cells: Cells)
    ensures |cells| !in NONE
  {
  }

  /** A count that is one too low until a reference goes. */
  lemma ReleaseShort(cells: Cells, xs: multiset<int>, o: int)
    requires Counted(cells, xs, NONE) && Positive(cells) && IsLive(cells, o) && cells[o].count > 1
    ensures var now := cells[o := cells[o].(count := cells[o].count - 1)];
            Counted(now, xs, multiset{o}) && Positive(now) && SameShape(cells, now)
  {
    var now := cells[o := cells[o].(count := cells[o].count - 1)];
    forall x ensures HeapRefs(now, x) == HeapRefs(cells, x) { SameRefs(cells, o, now[o], x); }
    forall x ensures Sound(now, x, HeapRefs(now, x) + xs[x]) { assert Sound(cells, x, HeapRefs(cells, x) + xs[x]); }
  }

  lemma Settle(cells: Cells, xs: multiset<int>, o: int)
    requires Counted(cells, xs + multiset{o}, Short(o))
    ensures Counted(cells, xs, NONE)
  {
    forall x ensures Sound(cells, x, HeapRefs(cells, x) + xs[x]) {
      assert Sound(cells, x, HeapRefs(cells, x) + (xs + multiset{o})[x]);
    }
  }

  lemma FirstOfRest(values: seq<int>, k: nat, xs: multiset<int>)
    requires k < |values|
    ensures values[k] in xs + multiset(values[k..])
    ensures UpToNil(xs + multiset(values[k + 1..]), xs + multiset(values[k..]) - multiset{values[k]} + multiset{NIL})
  {
    assert values[k..] == [values[k]] + values[k + 1..];
  }

  lemma CopyStep(values: seq<int>, refs: seq<int>, k: nat)
    requires k < |values| <= |refs|
    ensures (values[..k] + refs[k..])[k := values[k]] == values[..k + 1] + refs[k + 1..]
  {
  }

  /** The same allocations with the same references; counts may differ. */
  ghost predicate SameButCounts(was: Cells, now: Cells) {
    |now| == |was| && forall i :: 0 <= i < |now| ==>
      (now[i].Live? <==> was[i].Live?) && (now[i].Live? ==> now[i].kind == was[i].kind && now[i].refs == was[i].refs)
  }

  lemma SameRead(was: Cells, now: Cells)
    requires SameButCounts(was, now)
    ensures |now| == |was| && KeepsRefs(was, now)
    ensures forall i :: IsLive(was, i) ==> IsLive(now, i) && now[i].kind == was[i].kind && now[i].refs == was[i].refs
  {
  }

  lemma LinkedMeans(was: Cells, now: Cells, tail: int, element: int, n: nat)
    requires Linked(was, now, tail, element, n)
    ensures |now| == |was| + 1 && now[|was|] == Live(List(element), 1, Nils(n) + [tail]) && KeepsRefs(was, now)
    ensures forall i :: IsLive(was, i) ==> IsLive(now, i) && now[i] == was[i]
  {
  }

  lemma NoneMore(xs: multiset<int>)
    ensures xs + NONE == xs
  {
  }

  /** Other allocations are the same but for counts. */
  ghost predicate SameBefore(was: Cells, now: Cells, o: nat) {
    |now| == |was| && forall i :: 0 <= i < |now| && i != o ==>
      (now[i].Live? <==> was[i].Live?) && (now[i].Live? ==> now[i].kind == was[i].kind && now[i].refs == was[i].refs)
  }

  lemma FilledMeans(c0: Cells, c1: Cells, c2: Cells, o: nat)
    requires SameBefore(c1, c2, o) && |c0| == o && KeepsRefs(c0, c1)
    ensures |c2| == |c1| && KeepsRefs(c0, c2)
    ensures forall i :: IsLive(c1, i) && i != o ==> IsLive(c2, i) && c2[i].kind == c1[i].kind && c2[i].refs == c1[i].refs
  {
  }

  lemma FilledShape(c1: Cells, c2: Cells, c3: Cells, c4: Cells, o: nat)
    requires SameButCounts(c1, c2) && o < |c1|
    requires |c2| == |c3| == |c4| && c3 == c2[o := c3[o]] && c4 == c3[o := c4[o]]
    ensures SameBefore(c1, c4, o)
  {
  }

  /** Counting, filling and tracking the last allocation leaves the others the same but for counts. */
  lemma BuiltShape(c0: Cells, c1: Cells, c2: Cells, c3: Cells, c4: Cells, o: nat)
    requires o == |c0| && |c1| == o + 1 && c1[o].Live? && forall i :: IsLive(c0, i) ==> IsLive(c1, i) && c1[i] == c0[i]
    requires SameButCounts(c1, c2)
    requires |c3| == |c2| && c3[o].Live? && c3 == c2[o := c3[o]]
    requires |c4| == |c3| && c4[o].Live? && c4 == c3[o := c4[o]]
    requires c1[..o] == c0
    ensures SameButCounts(c0, c4[..o])
  {
  }

  lemma SameCells(cells: Cells)
    ensures SameButCounts(cells, cells)
  {
  }

  lemma SwapRoots(rs: multiset<int>, xs: multiset<int>, ys: multiset<int>)
    ensures rs + xs + ys == rs + ys + xs
  {
  }

  /** A list of another element type and a pointer that is not nil: after consmp a count is too high. */
  method CountLeaks() returns (m: Machine)
    ensures fresh(m) && !m.Valid()
  {
    hide Machine.Valid, Counted, Machine.Roots, SameShape, SamePrevs, KeepsRefs, Anchored;
    m := new Machine(0);
    m.AllocFrame(2);
    assert |m.frames| == 1 && |m.frames[0].slots| == 2;
    var value := m.New(Slot(0, 0), 0);
    assert m.frames[0].slots == [value as int, NIL];
    var out := m.Cons(Slot(0, 1), 1);
    assert m.frames[0].slots[0] == value;
    out := m.Consmp([Slot(0, 0)], Slot(0, 1), 2, 4);
  }

  function Plus(cells: Cells, o: int): Cells {
    if IsLive(cells, o) then cells[o := cells[o].(count := cells[o].count + 1)] else cells
  }

  /** A call puts two references in the frame and takes two new ones. */
  lemma CallRoots(cells: Cells, frames: seq<Frame>, m: int, mp: int, rest: multiset<int>, target: int, data: int)
    requires |frames| > 0 && frames[|frames| - 1].prev_module == NIL && FramesOk(cells, frames)
    ensures var n := |frames| - 1;
            var now := frames[n := Frame(m, mp, frames[n].slots)];
            UpToNil(AllRoots(now, target, data, rest), AllRoots(frames, m, mp, rest) + multiset{target} + multiset{data})
  {
    var n := |frames| - 1;
    assert FrameOk(cells, frames[n]);
    assert frames[n := Frame(m, mp, frames[n].slots)][..n] == frames[..n];
  }

  lemma CallFrames(was: Cells, now: Cells, frames: seq<Frame>, m: int, mp: int, target: int)
    requires |frames| > 0 && FramesOk(was, frames) && IsModule(was, m) && mp == MpOf(was, m) && IsModule(was, target)
    requires exists data :: now == Plus(Plus(was, target), data)
    ensures FramesOk(now, frames[|frames| - 1 := Frame(m, mp, frames[|frames| - 1].slots)])
    ensures IsModule(now, target) && MpOf(now, target) == MpOf(was, target)
    ensures Positive(was) ==> Positive(now)
  {
    forall i | 0 <= i < |frames| - 1 ensures FrameOk(now, frames[i]) { assert FrameOk(was, frames[i]); }
  }

  function Minus(cells: Cells, o: int): Cells {
    if Spare(cells, o) then cells[o := cells[o].(count := cells[o].count - 1)] else cells
  }

  /** One reference fewer does not free it. */
  predicate Spare(cells: Cells, o: int) { IsLive(cells, o) && cells[o].count > 1 }

  lemma PlusMinus(cells: Cells, o: int, p: int)
    requires IsLive(cells, o) && IsLive(cells, p) && Positive(cells)
    ensures var now := Plus(Plus(cells, o), p);
            Spare(now, o) && Spare(Minus(now, o), p) && Minus(Minus(now, o), p) == cells
  {
    PositiveAt(cells, o);
    PositiveAt(cells, p);
  }

  lemma PlusKeeps(cells: Cells, o: int)
    ensures SameShape(cells, Plus(cells, o)) && SameShape(cells, cells) && KeepsRefs(cells, Plus(cells, o))
    ensures |Plus(cells, o)| == |cells|
    ensures forall x :: IsLive(cells, x) ==> IsLive(Plus(cells, o), x) && Plus(cells, o)[x].refs == cells[x].refs
    ensures forall x :: IsLive(cells, x) ==> Plus(cells, o)[x].kind == cells[x].kind
  {
  }

  /** Counts do not matter for what has only shrunk. */
  lemma PlusShrunk(was: Cells, target: int, now: Cells)
    requires IsModule(was, target) && Shrunk(Plus(Plus(was, target), MpOf(was, target)), now)
    ensures Shrunk(was, now)
  {
  }

  lemma OthersPlus(was: Cells, now: Cells, o: int, p: int, others: seq<Regs>)
    requires OthersOk(was, others) && now == Plus(Plus(was, o), p)
    ensures OthersOk(now, others)
  {
    forall i | 0 <= i < |others| ensures RegsOk(now, others[i].frames, others[i].module_ref, others[i].mp_base) {
      var r := others[i];
      assert RegsOk(was, r.frames, r.module_ref, r.mp_base);
      forall k | 0 <= k < |r.frames| ensures FrameOk(now, r.frames[k]) { assert FrameOk(was, r.frames[k]); }
    }
  }

  lemma SelfShrunk(cells: Cells)
    ensures Shrunk(cells, cells)
  {
  }

  lemma ShrunkChain(c0: Cells, c1: Cells, c2: Cells)
    requires Shrunk(c0, c1) && Shrunk(c1, c2)
    ensures Shrunk(c0, c2)
  {
  }

  lemma TopIsOk(cells: Cells, frames: seq<Frame>)
    requires FramesOk(cells, frames) && |frames| > 0 && frames[|frames| - 1].prev_module != NIL
    ensures var top := frames[|frames| - 1]; IsModule(cells, top.prev_module) && MpOf(cells, top.prev_module) == top.prev_mp
  {
    assert FrameOk(cells, frames[|frames| - 1]);
  }

  /** A return gives up the references of the registers and takes those of the frame. */
  lemma ReturnRoots(frames: seq<Frame>, m: int, mp: int, rest: multiset<int>)
    requires |frames| > 0
    ensures var n := |frames| - 1; var top := frames[n];
            var roots := AllRoots(frames, m, mp, rest);
            && m in roots && mp in roots - multiset{m} && top.prev_module in roots - multiset{m} - multiset{mp}
            && UpToNil(AllRoots(frames[n := Frame(NIL, NIL, top.slots)], top.prev_module, top.prev_mp, rest),
                       roots - multiset{m} - multiset{mp})
  {
    var n := |frames| - 1;
    assert frames[n := Frame(NIL, NIL, frames[n].slots)][..n] == frames[..n];
  }

  lemma PopRoots(cells: Cells, frames: seq<Frame>, m: int, mp: int, rest: multiset<int>)
    requires |frames| > 0 && FramesOk(cells, frames) && frames[|frames| - 1].prev_module == NIL
    ensures var n := |frames| - 1; var slots := frames[n].slots;
            && multiset(slots) <= AllRoots(frames, m, mp, rest)
            && UpToNil(AllRoots(frames[..n], m, mp, rest), AllRoots(frames, m, mp, rest) - multiset(slots))
    ensures FramesOk(cells, frames[..|frames| - 1])
  {
    assert FrameOk(cells, frames[|frames| - 1]);
  }

  /** A module that is still referred to is still that module. */
  lemma KeptModule(was: Cells, now: Cells, xs: multiset<int>, m: int)
    requires IsModule(was, m) && SameShape(was, now) && Counted(now, xs, NONE) && m in xs
    ensures IsModule(now, m) && MpOf(now, m) == MpOf(was, m)
  {
    Referenced(now, xs, NONE, m);
  }

  lemma LeftFrames(cells: Cells, frames: seq<Frame>)
    requires |frames| > 0 && FramesOk(cells, frames)
    ensures FramesOk(cells, frames[|frames| - 1 := Frame(NIL, NIL, frames[|frames| - 1].slots)])
  {
    forall i | 0 <= i < |frames| ensures FrameOk(cells, frames[i]) {}
  }

  function Kept(all: seq<int>, dead: set<int>): seq<int> {
    if all == [] then []
    else Kept(all[..|all| - 1], dead) + (if all[|all| - 1] in dead then [] else [all[|all| - 1]])
  }

  /** Up to i the dead are gone, and what is kept so far comes before the rest. */
  ghost predicate Sweeping(tracking: seq<int>, kept: seq<int>, all: seq<int>, i: nat, dead: set<int>) {
    i <= |all| && tracking == kept + all[i..] && kept == Kept(all[..i], dead)
  }

  lemma SweepStarts(all: seq<int>, dead: set<int>)
    ensures Sweeping(all, [], all, 0, dead)
  {
  }

  lemma SweepStep(tracking: seq<int>, kept: seq<int>, all: seq<int>, i: nat, dead: set<int>)
    requires Sweeping(tracking, kept, all, i, dead) && i < |all|
    ensures |kept| < |tracking|
    ensures if all[i] in dead then Sweeping(tracking[..|kept|] + tracking[|kept| + 1..], kept, all, i + 1, dead)
            else Sweeping(tracking, kept + [all[i]], all, i + 1, dead)
  {
    assert all[..i + 1][..i] == all[..i];
  }

  lemma SweepEnds(tracking: seq<int>, kept: seq<int>, all: seq<int>, dead: set<int>)
    requires Sweeping(tracking, kept, all, |all|, dead)
    ensures tracking == Kept(all, dead)
  {
    assert all[..|all|] == all;
  }

  lemma UntrackRoots(frames: seq<Frame>, m: int, mp: int, tracking: seq<int>, os: multiset<int>, k: nat)
    requires k < |tracking|
    ensures tracking[k] in AllRoots(frames, m, mp, multiset(tracking) + os)
    ensures AllRoots(frames, m, mp, multiset(tracking[..k] + tracking[k + 1..]) + os) ==
            AllRoots(frames, m, mp, multiset(tracking) + os) - multiset{tracking[k]}
  {
    assert tracking == tracking[..k] + [tracking[k]] + tracking[k + 1..];
  }

  // ---- what releases free, and what they cannot ----

  /** Whatever a chain of references leads to from something referred to afterwards survives, with what it held. */
  lemma {:induction false} ReachedSurvives(was: Cells, now: Cells, roots: multiset<int>, path: seq<int>)
    requires Counted(now, roots, NONE) && Shrunk(was, now)
    requires |path| > 0 && path[0] in roots && NIL !in path
    requires forall i :: 0 < i < |path| ==> Holds(was, path[i - 1], path[i])
    ensures var o := path[|path| - 1]; IsLive(now, o) && IsLive(was, o) && now[o].refs == was[o].refs
  {
    var n := |path| - 1;
    var o := path[n];
    if n == 0 {
      Referenced(now, roots, NONE, o);
    } else {
      var p := path[n - 1];
      ReachedSurvives(was, now, roots, path[..n]);
      assert Holds(was, p, o);
      var k :| 0 <= k < |now[p].refs| && now[p].refs[k] == o;
      HeldByField(now, p, k);
      assert Sound(now, o, HeapRefs(now, o) + roots[o]);
    }
  }

  ghost predicate Holds(cells: Cells, p: int, o: int) { IsLive(cells, p) && o in cells[p].refs }

  lemma {:induction false} SomeoneHolds(cells: Cells, o: int) returns (p: nat)
    requires HeapRefs(cells, o) > 0
    ensures Holds(cells, p, o)
  {
    p := |cells| - 1;
    OccursIn(if cells[p].Live? then cells[p].refs else [], o);
    if !Holds(cells, p, o) {
      p := SomeoneHolds(cells[..p], o);
    }
  }

  /** What is freed had only references that were given up: from outside the heap, or from allocations freed with it. */
  lemma FreedOnlyWithItsHolders(was: Cells, xs: multiset<int>, now: Cells, ys: multiset<int>, o: int)
    requires Counted(was, xs, NONE) && Positive(was) && Counted(now, ys, NONE) && Shrunk(was, now)
    requires IsLive(was, o) && !IsLive(now, o)
    ensures ys[o] == 0 && forall p :: Holds(was, p, o) ==> !IsLive(now, p)
    ensures xs[o] > 0 || exists p :: Holds(was, p, o) && !IsLive(now, p)
  {
    assert Sound(now, o, HeapRefs(now, o) + ys[o]);
    forall p | Holds(was, p, o) ensures !IsLive(now, p) {
      if IsLive(now, p) {
        var k :| 0 <= k < |now[p].refs| && now[p].refs[k] == o;
        HeldByField(now, p, k);
      }
    }
    if xs[o] == 0 {
      var p := SomeoneHolds(was, o);
      assert Holds(was, p, o);
    }
  }

  lemma StartCounts(data: nat)
    ensures var cells := [Live(Module(false), 1, [1]), Live(Plain, 2, Nils(data))];
            Counted(cells, AllRoots([], 0, 1, multiset{}), NONE) && Positive(cells)
  {
    var cells := [Live(Module(false), 1, [1]), Live(Plain, 2, Nils(data))];
    var xs := AllRoots([], 0, 1, multiset{});
    assert xs == multiset{0, 1};
    forall o ensures o != NIL ==> HeapRefs(cells, o) == if o == 1 then 1 else 0 {
      if o != NIL { NilsOccur(data, o); }
      assert cells[..1] == [cells[0]] && [cells[0]][..0] == [] && [1][..0] == [];
      assert HeapRefs([cells[0]], o) == Occurs([1], o) == if o == 1 then 1 else 0;
    }
    forall o ensures Sound(cells, o, HeapRefs(cells, o) + xs[o]) {}
  }

  lemma TrackRoots(fs: multiset<int>, regs: multiset<int>, tracking: seq<int>, os: multiset<int>, xs: multiset<int>, o: int)
    ensures fs + regs + (multiset([o] + tracking) + os) + xs == fs + regs + (multiset(tracking) + os) + xs + multiset{o}
  {
    assert multiset([o] + tracking) == multiset{o} + multiset(tracking);
  }

  ghost predicate UpToNil(xs: multiset<int>, ys: multiset<int>) { forall o :: o != NIL ==> xs[o] == ys[o] }

  lemma SameUpToNil(cells: Cells, xs: multiset<int>, ys: multiset<int>, short: multiset<int>)
    requires Counted(cells, xs, short) && UpToNil(ys, xs)
    ensures Counted(cells, ys, short)
  {
    forall x ensures Sound(cells, x, HeapRefs(cells, x) + ys[x]) { assert Sound(cells, x, HeapRefs(cells, x) + xs[x]); }
  }

  /** What a location holds is among the references that are counted. */
  lemma LocIsCounted(cells: Cells, frames: seq<Frame>, module_ref: int, mp_base: int, rest: multiset<int>, l: Loc)
    requires l.Slot? ==> l.frame < |frames| && l.k < |frames[l.frame].slots|
    requires l.Field? ==> IsLive(cells, l.obj) && l.k < |cells[l.obj].refs|
    ensures var v := if l.Slot? then frames[l.frame].slots[l.k] else cells[l.obj].refs[l.k];
            HeapRefs(cells, v) + AllRoots(frames, module_ref, mp_base, rest)[v] > 0
  {
    match l
    case Slot(f, k) => SlotInFrames(frames, f, k);
    case Field(o, k) => HeldByField(cells, o, k);
  }

  lemma {:induction false} SlotInFrames(frames: seq<Frame>, f: nat, k: nat)
    requires f < |frames| && k < |frames[f].slots|
    ensures frames[f].slots[k] in FramesRefs(frames)
  {
    if f < |frames| - 1 {
      SlotInFrames(frames[..|frames| - 1], f, k);
    } else {
      assert frames[f].slots[k] in multiset(frames[f].slots);
    }
  }

  /** Something other than field k of the allocation itself keeps it: a frame, a register, or a field of what those hold. */
  ghost predicate Anchored(cells: Cells, roots: multiset<int>, obj: nat, k: nat) {
    obj in roots || exists p: nat, j: nat :: p in roots && HoldsAt(cells, p, j, obj) && !(p == obj && j == k)
  }

  ghost predicate HoldsAt(cells: Cells, p: int, j: nat, obj: int) {
    IsLive(cells, p) && j < |cells[p].refs| && cells[p].refs[j] == obj
  }

  /** Counting and storing do not take the anchor away. */
  lemma AnchorStays(c0: Cells, o: int, c2: Cells, roots: multiset<int>, obj: nat, k: nat, v: int)
    requires IsLive(c0, obj) && k < |c0[obj].refs|
    requires var c1 := Plus(c0, o); c2 == c1[obj := c1[obj].(refs := c1[obj].refs[k := v])]
    ensures Anchored(c0, roots, obj, k) ==> Anchored(c2, roots, obj, k)
  {
    if Anchored(c0, roots, obj, k) && obj !in roots {
      var p: nat, j: nat :| p in roots && HoldsAt(c0, p, j, obj) && !(p == obj && j == k);
      assert HoldsAt(c2, p, j, obj);
    }
  }

  lemma AnchorHolds(was: Cells, now: Cells, roots: multiset<int>, obj: nat, k: nat)
    requires Shrunk(was, now) && Counted(now, roots, NONE) && IsLive(was, obj) && Anchored(was, roots, obj, k)
    ensures IsLive(now, obj) && now[obj].kind == was[obj].kind && now[obj].refs == was[obj].refs
  {
    if obj in roots {
      Referenced(now, roots, NONE, obj);
    } else {
      var p: nat, j: nat :| p in roots && HoldsAt(was, p, j, obj) && !(p == obj && j == k);
      Referenced(now, roots, NONE, p);
      HeldByField(now, p, j);
      assert Sound(now, obj, HeapRefs(now, obj) + roots[obj]);
    }
  }

  lemma FramePushed(frames: seq<Frame>, f: Frame, regs: multiset<int>, tracking: multiset<int>)
    requires f.prev_module == f.prev_mp == NIL && AllNil(f.slots)
    ensures UpToNil(FramesRefs(frames + [f]) + regs + tracking, FramesRefs(frames) + regs + tracking)
  {
    assert (frames + [f])[..|frames|] == frames;
    assert forall o :: o != NIL ==> o !in f.slots;
    assert forall o :: o != NIL ==> FrameRefs(f)[o] == 0;
  }

  lemma Chain(c0: Cells, c1: Cells, c2: Cells, c3: Cells)
    requires SameShape(c0, c1) && SameShape(c1, c2) && SameShape(c2, c3)
    ensures SameShape(c0, c3)
  {
  }

  /** What is live now was live with the same references, or is new. */
  ghost predicate KeepsRefs(was: Cells, now: Cells) {
    |was| <= |now| && forall i :: 0 <= i < |was| && now[i].Live? ==>
      was[i].Live? && now[i].kind == was[i].kind && now[i].refs == was[i].refs
  }

  /** One store and no other: every other slot is as before, and so is every other field of what is not freed. */
  ghost predicate Stores(was: Cells, now: Cells, fs: seq<Frame>, gs: seq<Frame>, dest: Loc, v: int) {
    && |was| <= |now|
    && (forall i :: 0 <= i < |was| && now[i].Live? ==>
          was[i].Live? && now[i].kind == was[i].kind && now[i].refs == RefsStored(was[i].refs, i, dest, v))
    && gs == FramesStored(fs, dest, v)
  }

  function RefsStored(refs: seq<int>, i: nat, dest: Loc, v: int): seq<int> {
    if dest.Field? && dest.obj == i && dest.k < |refs| then refs[dest.k := v] else refs
  }

  function FramesStored(fs: seq<Frame>, dest: Loc, v: int): seq<Frame> {
    if dest.Slot? && dest.frame < |fs| && dest.k < |fs[dest.frame].slots| then
      fs[dest.frame := fs[dest.frame].(slots := fs[dest.frame].slots[dest.k := v])]
    else fs
  }

  lemma StoresBetween(c0: Cells, c1: Cells, c2: Cells, c3: Cells, fs: seq<Frame>, gs: seq<Frame>, dest: Loc, v: int)
    requires KeepsRefs(c0, c1) && Stores(c1, c2, fs, gs, dest, v) && KeepsRefs(c2, c3)
    ensures Stores(c0, c3, fs, gs, dest, v)
  {
  }

  lemma StoresTwice(c0: Cells, c1: Cells, c2: Cells, f0: seq<Frame>, f1: seq<Frame>, f2: seq<Frame>, dest: Loc, v: int, w: int)
    requires Stores(c0, c1, f0, f1, dest, v) && Stores(c1, c2, f1, f2, dest, w)
    ensures Stores(c0, c2, f0, f2, dest, w)
  {
    if dest.Slot? && dest.frame < |f0| && dest.k < |f0[dest.frame].slots| {
      assert f0[dest.frame].slots[dest.k := v][dest.k := w] == f0[dest.frame].slots[dest.k := w];
      assert f2 == FramesStored(f0, dest, w);
    }
    forall i | 0 <= i < |c0| && c2[i].Live?
      ensures RefsStored(RefsStored(c0[i].refs, i, dest, v), i, dest, w) == RefsStored(c0[i].refs, i, dest, w) {}
  }

  lemma GrownKeeps(c0: Cells, c1: Cells, c2: Cells)
    requires |c1| == |c0| + 1 && c0 == c1[..|c0|]
    requires c2 == c1 || (c1[|c0|].Live? && c2 == c1[|c0| := c1[|c0|].(count := c1[|c0|].count + 1)])
    ensures KeepsRefs(c0, c2)
  {
  }

  lemma PrefixKeeps(c0: Cells, c1: Cells, c2: Cells, o: nat)
    requires KeepsRefs(c0, c1) && o <= |c2| && KeepsRefs(c1, c2[..o])
    ensures KeepsRefs(c0, c2)
  {
    forall i | 0 <= i < |c0| && c2[i].Live? ensures c0[i].Live? && c2[i].kind == c0[i].kind && c2[i].refs == c0[i].refs {
      assert c2[..o][i] == c2[i];
    }
  }

  ghost predicate SamePrevs(fs: seq<Frame>, gs: seq<Frame>) {
    |fs| == |gs| && forall i :: 0 <= i < |fs| ==> gs[i].prev_module == fs[i].prev_module && gs[i].prev_mp == fs[i].prev_mp
  }

  /** What is live now was live, or is new; kinds stay, and so do the references of modules. */
  ghost predicate SameShape(was: Cells, now: Cells) {
    |was| <= |now| && forall i :: 0 <= i < |was| && now[i].Live? ==>
      was[i].Live? && now[i].kind == was[i].kind && (was[i].kind.Module? ==> now[i].refs == was[i].refs)
  }

  lemma Unchanged(cells: Cells)
    ensures SameShape(cells, cells) && KeepsRefs(cells, cells)
  {
  }

  lemma {:induction false} InFrames(frames: seq<Frame>, i: nat)
    requires i < |frames|
    ensures frames[i].prev_module in FramesRefs(frames)
  {
    if i < |frames| - 1 { InFrames(frames[..|frames| - 1], i); }
  }

  lemma ModulesStay(was: Cells, now: Cells, fs: seq<Frame>, gs: seq<Frame>, m: int, roots: multiset<int>)
    requires FramesOk(was, fs) && SamePrevs(fs, gs) && IsModule(was, m) && SameShape(was, now)
    requires Counted(now, roots, NONE) && FramesRefs(gs) <= roots && m in roots
    ensures FramesOk(now, gs) && IsModule(now, m) && MpOf(now, m) == MpOf(was, m)
  {
    Referenced(now, roots, NONE, m);
    forall i | 0 <= i < |gs| ensures FrameOk(now, gs[i]) {
      assert FrameOk(was, fs[i]);
      InFrames(gs, i);
      if gs[i].prev_module != NIL { Referenced(now, roots, NONE, gs[i].prev_module); }
    }
  }

  lemma OthersStay(was: Cells, now: Cells, others: seq<Regs>, roots: multiset<int>)
    requires OthersOk(was, others) && SameShape(was, now) && Counted(now, roots, NONE) && OthersRefs(others) <= roots
    ensures OthersOk(now, others)
  {
    forall i | 0 <= i < |others| ensures RegsOk(now, others[i].frames, others[i].module_ref, others[i].mp_base) {
      InOthers(others, i);
      assert RegsOk(was, others[i].frames, others[i].module_ref, others[i].mp_base);
      hide Counted, SameShape, FramesOk, OthersOk;
      SelfPrevs(others[i].frames);
      ModulesStay(was, now, others[i].frames, others[i].frames, others[i].module_ref, roots);
    }
  }

  lemma {:induction false} OthersRefsUpdate(others: seq<Regs>, i: nat, r: Regs)
    requires i < |others|
    ensures OthersRefs(others[i := r]) + RegsRefs(others[i]) == OthersRefs(others) + RegsRefs(r)
  {
    hide RegsRefs;
    var n := |others| - 1;
    if i == n {
      assert others[i := r][..n] == others[..n];
    } else {
      assert others[i := r][..n] == others[..n][i := r];
      OthersRefsUpdate(others[..n], i, r);
      SwappedRoots(RegsRefs(r), RegsRefs(others[n]), OthersRefs(others[..n]), RegsRefs(others[i]),
                   OthersRefs(others[..n][i := r]));
      hide OthersRefs;
      var x := RegsRefs(others[n]);
      assert forall xs: multiset<int>, ys: multiset<int> :: ys + (x + xs) == xs + x + ys;
    }
  }

  lemma SwappedRoots(own: multiset<int>, tracking: multiset<int>, others: multiset<int>, next: multiset<int>, now: multiset<int>)
    requires now + next == others + own
    ensures next + (tracking + now) == own + (tracking + others)
  {
    assert next + (tracking + now) == tracking + (now + next);
    assert own + (tracking + others) == tracking + (others + own);
  }

  lemma PlusIsSame(cells: Cells, o: int)
    ensures SameButCounts(cells, Plus(cells, o))
  {
  }

  lemma SameTwice(c0: Cells, c1: Cells, c2: Cells)
    requires SameButCounts(c0, c1) && SameButCounts(c1, c2)
    ensures SameButCounts(c0, c2)
  {
  }

  lemma CountsShrink(c0: Cells, c1: Cells, c2: Cells)
    requires SameButCounts(c0, c1) && Shrunk(c1, c2)
    ensures Shrunk(c0, c2)
  {
  }

  lemma OkWithCounts(was: Cells, now: Cells, frames: seq<Frame>, m: int, mp: int)
    requires RegsOk(was, frames, m, mp) && SameButCounts(was, now)
    ensures RegsOk(now, frames, m, mp)
  {
    forall k | 0 <= k < |frames| ensures FrameOk(now, frames[k]) { assert FrameOk(was, frames[k]); }
  }

  lemma ForkedOk(was: Cells, now: Cells, frames: seq<Frame>, m: int, mp: int, others: seq<Regs>, slots: seq<int>)
    requires RegsOk(was, frames, m, mp) && OthersOk(was, others) && SameButCounts(was, now)
    ensures RegsOk(now, frames, m, mp) && OthersOk(now, others + [Regs([Frame(NIL, NIL, slots)], m, mp)])
  {
    var r := Regs([Frame(NIL, NIL, slots)], m, mp);
    OkWithCounts(was, now, frames, m, mp);
    forall k | 0 <= k < |others + [r]|
      ensures RegsOk(now, (others + [r])[k].frames, (others + [r])[k].module_ref, (others + [r])[k].mp_base)
    {
      if k < |others| {
        assert RegsOk(was, others[k].frames, others[k].module_ref, others[k].mp_base);
        OkWithCounts(was, now, others[k].frames, others[k].module_ref, others[k].mp_base);
      }
    }
  }

  lemma ForkRoots(frames: seq<Frame>, m: int, mp: int, tracking: seq<int>, others: seq<Regs>, slots: seq<int>)
    ensures UpToNil(
              AllRoots(frames, m, mp, multiset(tracking) + OthersRefs(others + [Regs([Frame(NIL, NIL, slots)], m, mp)])),
              AllRoots(frames, m, mp, multiset(tracking) + OthersRefs(others)) + multiset{mp} + multiset{m} + multiset(slots))
  {
    var f := Frame(NIL, NIL, slots);
    var r := Regs([f], m, mp);
    assert (others + [r])[..|others|] == others;
    assert FramesRefs([f]) == FrameRefs(f) by { assert [f][..0] == []; }
    var xs, ys := OthersRefs(others), RegsRefs(r);
    assert OthersRefs(others + [r]) == xs + ys;
    assert ys == multiset(slots) + multiset{NIL, NIL} + multiset{m, mp};
    hide OthersRefs, RegsRefs, FramesRefs, FrameRefs;
    var own := FramesRefs(frames) + multiset{m, mp};
    forall o | o != NIL
      ensures (own + (multiset(tracking) + (xs + ys)))[o] ==
              (own + (multiset(tracking) + xs) + multiset{mp} + multiset{m} + multiset(slots))[o]
    {
      assert ys[o] == (multiset{mp} + multiset{m} + multiset(slots))[o];
    }
  }

  lemma SwappedOk(cells: Cells, others: seq<Regs>, i: nat, r: Regs)
    requires OthersOk(cells, others) && i < |others| && RegsOk(cells, r.frames, r.module_ref, r.mp_base)
    ensures OthersOk(cells, others[i := r]) && RegsOk(cells, others[i].frames, others[i].module_ref, others[i].mp_base)
  {
    hide RegsOk;
    var now := others[i := r];
    forall k | 0 <= k < |now| ensures RegsOk(cells, now[k].frames, now[k].module_ref, now[k].mp_base) {
      assert k != i ==> RegsOk(cells, others[k].frames, others[k].module_ref, others[k].mp_base);
    }
  }

  lemma {:induction false} OthersWithout(others: seq<Regs>, i: nat)
    requires i < |others|
    ensures OthersRefs(others[..i] + others[i + 1..]) + RegsRefs(others[i]) == OthersRefs(others)
  {
    hide RegsRefs;
    var n := |others| - 1;
    if i == n {
      assert others[..i] + others[i + 1..] == others[..n];
    } else {
      OthersWithout(others[..n], i);
      var without := others[..i] + others[i + 1..];
      assert without[..n - 1] == others[..n][..i] + others[..n][i + 1..] && without[n - 1] == others[n];
    }
  }

  lemma EndRoots(frames: seq<Frame>, m: int, mp: int, tracking: seq<int>, others: seq<Regs>, i: nat)
    requires i < |others| && others[i].frames == []
    ensures var gone := multiset([others[i].mp_base, others[i].module_ref]);
            var roots := AllRoots(frames, m, mp, multiset(tracking) + OthersRefs(others));
            && gone <= roots
            && AllRoots(frames, m, mp, multiset(tracking) + OthersRefs(others[..i] + others[i + 1..])) == roots - gone
  {
    OthersWithout(others, i);
    var r := others[i];
    assert RegsRefs(r) == multiset([r.mp_base, r.module_ref]);
    hide FramesRefs, OthersRefs;
    GivenUp(FramesRefs(frames) + multiset{m, mp}, multiset(tracking), OthersRefs(others[..i] + others[i + 1..]), RegsRefs(r));
  }

  lemma GivenUp(own: multiset<int>, tracking: multiset<int>, others: multiset<int>, gone: multiset<int>)
    ensures gone <= own + (tracking + (others + gone))
    ensures own + (tracking + others) == own + (tracking + (others + gone)) - gone
  {
  }

  lemma EndedOk(cells: Cells, others: seq<Regs>, i: nat)
    requires OthersOk(cells, others) && i < |others|
    ensures OthersOk(cells, others[..i] + others[i + 1..])
  {
    var now := others[..i] + others[i + 1..];
    forall k | 0 <= k < |now| ensures RegsOk(cells, now[k].frames, now[k].module_ref, now[k].mp_base) {
      var old_k := if k < i then k else k + 1;
      assert RegsOk(cells, others[old_k].frames, others[old_k].module_ref, others[old_k].mp_base);
    }
  }

  lemma DataIsLive(cells: Cells, roots: multiset<int>, m: int)
    requires Counted(cells, roots, NONE) && IsModule(cells, m)
    ensures var data := MpOf(cells, m); data != NIL ==> IsLive(cells, data) && IsLive(Plus(cells, m), data)
    ensures IsLive(cells, m) && IsModule(Plus(cells, m), m) && MpOf(Plus(cells, m), m) == MpOf(cells, m)
  {
    HeldByField(cells, m, 0);
    assert Sound(cells, MpOf(cells, m), HeapRefs(cells, MpOf(cells, m)) + roots[MpOf(cells, m)]);
  }

  lemma SelfPrevs(fs: seq<Frame>)
    ensures SamePrevs(fs, fs)
  {
  }

  lemma {:induction false} InOthers(others: seq<Regs>, i: nat)
    requires i < |others|
    ensures RegsRefs(others[i]) <= OthersRefs(others)
  {
    hide RegsRefs;
    if i < |others| - 1 { InOthers(others[..|others| - 1], i); }
  }

  lemma StillPositive(cells: Cells, o: nat, c: Cell)
    requires o < |cells| && Positive(cells)
    ensures Positive(cells[o := Free]) && (CountOf(c) > 0 ==> Positive(cells[o := c]))
    ensures cells[o := c][o := Free] == cells[o := Free]
  {
  }

  lemma OneShrunk(was: Cells, o: nat, c: Cell)
    requires o < |was| && was[o].Live? && c.Live? && c == was[o].(count := c.count)
    ensures Shrunk(was, was[o := c]) && Shrunk(was, was[o := c][o := Free])
  {
  }

  lemma ShrunkTwice(c0: Cells, c1: Cells, c2: Cells, o: nat)
    requires Shrunk(c0, c1) && Shrunk(c1, c2)
    ensures Shrunk(c0, c2)
    ensures o < |c1| && c1[o] == Free ==> c2[o] == Free
  {
  }

  lemma ShrunkKeeps(was: Cells, now: Cells)
    requires was == now || Shrunk(was, now)
    ensures Shrunk(was, now) && SameShape(was, now) && KeepsRefs(was, now)
  {
  }

  lemma FieldKeeps(cells: Cells, o: nat, k: nat, v: int)
    requires IsLive(cells, o) && !cells[o].kind.Module? && k < |cells[o].refs|
    ensures var now := cells[o := cells[o].(refs := cells[o].refs[k := v])];
            SameShape(cells, now) && (Positive(cells) ==> Positive(now)) && forall x :: IsLive(now, x) <==> IsLive(cells, x)
  {
  }

  lemma Cancel(xs: multiset<int>, ys: multiset<int>)
    ensures xs + ys - ys == xs
  {
  }

  lemma StillOwed(refs: seq<int>, k: nat, xs: multiset<int>)
    requires k < |refs| && multiset(refs) <= xs
    ensures refs[k] in xs - multiset(refs[..k])
    ensures xs - multiset(refs[..k]) - multiset{refs[k]} == xs - multiset(refs[..k + 1])
  {
    assert refs[..k + 1] == refs[..k] + [refs[k]];
    assert refs == refs[..k + 1] + refs[k + 1..];
  }

  lemma EmptyUnion(xs: multiset<int>, v: int)
    ensures xs + NONE + multiset{v} == xs + multiset{v} && xs + multiset{v} - multiset{v} == xs
  {
  }

  lemma FieldRoots(xs: multiset<int>, v: int, w: int)
    ensures xs + multiset{v} - multiset{v} + multiset{w} == xs + multiset{w}
  {
  }

  lemma SlotRoots(frames: seq<Frame>, module_ref: int, mp_base: int, rest: multiset<int>, f: nat, k: nat, v: int,
                  xs: multiset<int>)
    requires f < |frames| && k < |frames[f].slots|
    ensures var now := frames[f := frames[f].(slots := frames[f].slots[k := v])];
            AllRoots(now, module_ref, mp_base, rest) + xs + multiset{frames[f].slots[k]} ==
            AllRoots(frames, module_ref, mp_base, rest) + xs + multiset{v}
  {
    var g := frames[f].(slots := frames[f].slots[k := v]);
    var now := frames[f := g];
    forall o ensures FramesRefs(now)[o] + multiset{frames[f].slots[k]}[o] == FramesRefs(frames)[o] + multiset{v}[o] {
      FramesRefsUpdate(frames, f, g, o);
      SlotUpdate(frames[f].slots, k, v, o);
    }
  }
}
