// The collector: marking with an explicit stack, three rotating colours, sweeping of tracked allocations
// (src/vm/garbage_collector.cpp).
module Collector {
  import opened PointerMaps

  datatype Option<T> = None | Some(value: T)

  datatype Colour = White | Grey | Black

  /** get_current_colour and get_sweeper_colour. */
  function Current(epoch: nat): Colour { if epoch % 3 == 0 then White else if epoch % 3 == 1 then Grey else Black }

  function Sweeper(epoch: nat): Colour { if epoch % 3 == 0 then Grey else if epoch % 3 == 1 then Black else White }

  /** The colour swept is the one that was current two epochs ago; three epochs in a row have three colours. */
  lemma ColoursRotate(epoch: nat)
    ensures epoch >= 2 ==> Sweeper(epoch) == Current(epoch - 2)
    ensures Sweeper(epoch) != Current(epoch) && Current(epoch) != Current(epoch + 1) && Current(epoch) != Current(epoch + 2)
    ensures epoch >= 1 ==> Sweeper(epoch) != Current(epoch - 1)
  {
  }

  // ---- memory and roots ----

  /** An allocation: its type and its words. Types without a pointer map have no children for the marker. */
  datatype Object = Object(desc: TypeDesc, words: seq<nat>)

  type Heap = map<nat, Object>

  datatype Frame = Frame(prev_mp: Option<nat>, desc: TypeDesc, words: seq<nat>)

  datatype Thread = Thread(mp_base: nat, frames: seq<Frame>)

  ghost predicate PointsInto(t: TypeDesc, words: seq<nat>, h: Heap) {
    Covers(t, words) && forall k: nat :: IsField(t, words, k) ==> words[k] in h
  }

  ghost predicate HeapOk(h: Heap) { forall a :: a in h ==> PointsInto(h[a].desc, h[a].words, h) }

  ghost predicate FrameOk(f: Frame, h: Heap) {
    PointsInto(f.desc, f.words, h) && (f.prev_mp != None ==> f.prev_mp.value in h)
  }

  ghost predicate ThreadOk(t: Thread, h: Heap) { t.mp_base in h && forall i :: 0 <= i < |t.frames| ==> FrameOk(t.frames[i], h) }

  ghost predicate ThreadsOk(threads: seq<Thread>, h: Heap) { forall t :: 0 <= t < |threads| ==> ThreadOk(threads[t], h) }

  /** The allocation holds a pointer to b. */
  ghost predicate HasPointer(t: TypeDesc, words: seq<nat>, b: nat) { exists k: nat :: IsField(t, words, k) && words[k] == b }

  ghost predicate IsChild(h: Heap, a: nat, b: nat) { a in h && HasPointer(h[a].desc, h[a].words, b) }

  ghost predicate MpOfFrame(f: Frame, a: nat) { f.prev_mp == Some(a) }

  /** The module data of a thread: current, or that of a caller's module. These are always marked. */
  ghost predicate MpRoot(threads: seq<Thread>, a: nat) {
    exists t :: 0 <= t < |threads|
      && (threads[t].mp_base == a || exists i :: 0 <= i < |threads[t].frames| && MpOfFrame(threads[t].frames[i], a))
  }

  ghost predicate FrameHas(f: Frame, a: nat) { HasPointer(f.desc, f.words, a) }

  /** A pointer in some frame. */
  ghost predicate FrameRoot(threads: seq<Thread>, a: nat) {
    exists t, i :: 0 <= t < |threads| && 0 <= i < |threads[t].frames| && FrameHas(threads[t].frames[i], a)
  }

  // ---- what marking reaches ----

  type Colours = map<nat, Colour>

  ghost predicate Fresh(c: Colours, curr: Colour, a: nat) { a in c && c[a] != curr }

  ghost predicate Root(threads: seq<Thread>, c: Colours, curr: Colour, a: nat) {
    MpRoot(threads, a) || (FrameRoot(threads, a) && Fresh(c, curr, a))
  }

  /** From a root on through pointers, each to an allocation that did not have the current colour. */
  ghost predicate Path(h: Heap, threads: seq<Thread>, c: Colours, curr: Colour, p: seq<nat>) {
    && p != [] && Root(threads, c, curr, p[0])
    && forall i :: 0 < i < |p| ==> Step(h, c, curr, p[i - 1], p[i])
  }

  ghost predicate Step(h: Heap, c: Colours, curr: Colour, a: nat, b: nat) { IsChild(h, a, b) && Fresh(c, curr, b) }

  ghost predicate Reached(h: Heap, threads: seq<Thread>, c: Colours, curr: Colour, a: nat) {
    exists p: seq<nat> :: Path(h, threads, c, curr, p) && p[|p| - 1] == a
  }

  lemma RootIsReached(h: Heap, threads: seq<Thread>, c: Colours, curr: Colour, a: nat)
    requires Root(threads, c, curr, a)
    ensures Reached(h, threads, c, curr, a)
  {
    assert Path(h, threads, c, curr, [a]);
  }

  lemma StepIsReached(h: Heap, threads: seq<Thread>, c: Colours, curr: Colour, a: nat, b: nat)
    requires Reached(h, threads, c, curr, a) && Step(h, c, curr, a, b)
    ensures Reached(h, threads, c, curr, b)
  {
    var p: seq<nat> :| Path(h, threads, c, curr, p) && p[|p| - 1] == a;
    var q := p + [b];
    assert forall i :: 0 < i < |q| ==> Step(h, c, curr, q[i - 1], q[i]);
    assert Path(h, threads, c, curr, q);
  }

  /** A set that holds the roots and is closed under steps holds everything reached. */
  lemma {:induction false} ClosedHoldsPath(h: Heap, threads: seq<Thread>, c: Colours, curr: Colour, s: set<nat>, p: seq<nat>)
    requires Path(h, threads, c, curr, p)
    requires forall a :: Root(threads, c, curr, a) ==> a in s
    requires forall a, b :: a in s && Step(h, c, curr, a, b) ==> b in s
    ensures p[|p| - 1] in s
  {
    if |p| > 1 {
      var q := p[..|p| - 1];
      assert forall i :: 0 < i < |q| ==> Step(h, c, curr, q[i - 1], q[i]);
      ClosedHoldsPath(h, threads, c, curr, s, q);
      assert Step(h, c, curr, p[|p| - 2], p[|p| - 1]);
    }
  }

  // ---- tracked allocations over the epochs ----

  /** The epoch in which a was last coloured: when it was tracked, or the last collection that left it the current colour. */
  function LastColoured(since: nat, history: seq<set<nat>>, a: nat): (e: nat)
    ensures since <= e && (e > since ==> e < |history| && a in history[e])
    ensures forall i :: e < i < |history| ==> a !in history[i]
    decreases |history|
  {
    if |history| <= since + 1 then since
    else if a in history[|history| - 1] then |history| - 1
    else LastColoured(since, history[..|history| - 1], a)
  }

  lemma LastColouredGrows(since: nat, history: seq<set<nat>>, marked: set<nat>, a: nat)
    requires since <= |history|
    ensures LastColoured(since, history + [marked], a) == if a in marked then |history| else LastColoured(since, history, a)
  {
    var h := history + [marked];
    assert h[..|h| - 1] == history;
    if |h| <= since + 1 { assert |history| == since; }
  }

  // ---- the collector ----

  /** Everything waiting on the stack and everything processed is reached; roots and children are waiting or processed. */
  ghost predicate Marking(h: Heap, threads: seq<Thread>, c0: Colours, c: Colours, curr: Colour, stack: seq<nat>, done: set<nat>) {
    && c.Keys == c0.Keys == h.Keys
    && (forall a :: a in stack ==> a in h && Reached(h, threads, c0, curr, a))
    && (forall a :: a in done ==> a in h && Reached(h, threads, c0, curr, a))
    && (forall a :: a in h ==> c[a] == if a in done then curr else c0[a])
    && (forall a, b :: a in done && Step(h, c0, curr, a, b) ==> b in done || b in stack)
  }

  ghost predicate RootsCovered(threads: seq<Thread>, c0: Colours, curr: Colour, stack: seq<nat>, done: set<nat>) {
    forall a :: Root(threads, c0, curr, a) ==> a in done || a in stack
  }

  ghost function Uncoloured(h: Heap, c: Colours, curr: Colour): set<nat>
    requires c.Keys == h.Keys
  {
    set a | a in h && c[a] != curr
  }

  function ColouredCount(stack: seq<nat>, c: Colours, curr: Colour): nat {
    if stack == [] then 0
    else
      var top := stack[|stack| - 1];
      ColouredCount(stack[..|stack| - 1], c, curr) + (if top in c && c[top] == curr then 1 else 0)
  }

  lemma {:induction false} PushedUncoloured(stack: seq<nat>, more: seq<nat>, c: Colours, curr: Colour)
    requires forall a :: a in more ==> !(a in c && c[a] == curr)
    ensures ColouredCount(stack + more, c, curr) == ColouredCount(stack, c, curr)
  {
    if more == [] {
      assert stack + more == stack;
    } else {
      var all := stack + more;
      assert all[..|all| - 1] == stack + more[..|more| - 1];
      assert all[|all| - 1] == more[|more| - 1] && more[|more| - 1] in more;
      PushedUncoloured(stack, more[..|more| - 1], c, curr);
    }
  }

  class Collector {
    var epoch: nat
    var tracking: seq<nat>
    var colours: Colours
    var stack: seq<nat>
    var curr: Colour
    ghost var since: map<nat, nat>          // the epoch in which each allocation was tracked
    ghost var history: seq<set<nat>>        // what had the current colour after each collection

    /** The colour of a tracked allocation tells the epoch in which it was last coloured: one of the last three. */
    ghost predicate Valid()
      reads this
    {
      && |history| == epoch
      && Different(tracking)
      && (forall a :: a in tracking ==> a in since && a in colours && since[a] <= epoch)
      && (forall a :: a in tracking ==> Dated(since[a], history, epoch, a, colours[a]))
    }

    constructor ()
      ensures Valid() && tracking == [] && epoch == 0 && stack == []
    {
      epoch, tracking, colours, stack, curr := 0, [], map[], [], White;
      since, history := map[], [];
    }

    /** track_allocation. */
    method TrackAllocation(a: nat)
      requires Valid() && a !in tracking
      modifies this
      ensures Valid() && tracking == [a] + old(tracking) && epoch == old(epoch) && history == old(history)
      ensures since == old(since)[a := epoch] && stack == old(stack)
    {
      colours := colours[a := Current(epoch)];
      tracking := [a] + tracking;
      since := since[a := epoch];
      assert forall b :: b in tracking ==> b == a || b in old(tracking);
    }

    /** mark_pointer_maybe. */
    method MarkPointerMaybe(p: nat)
      requires p != NIL ==> p in colours
      modifies this`stack
      ensures stack == if p != NIL && colours[p] != curr then old(stack) + [p] else old(stack)
    {
      if p != NIL && curr != colours[p] { stack := stack + [p]; }
    }

    /** mark_pointer_fields: every pointer to something without the current colour is pushed. */
    method MarkPointerFields(t: TypeDesc, words: seq<nat>, ghost h: Heap) returns (ghost more: seq<nat>)
      requires PointsInto(t, words, h) && colours.Keys == h.Keys
      modifies this`stack
      ensures stack == old(stack) + more
      ensures forall b :: b in more <==> HasPointer(t, words, b) && Fresh(colours, curr, b)
    {
      var fields := EnumPointerFields(t, words);
      FieldsInHeap(t, words, fields, h);
      hide PointsInto, Fields, HasPointer;
      more := PushFields(fields, words);
      NoneMissed(t, words, fields, colours, curr);
    }

    /** The loop over the fields. */
    method PushFields(fields: seq<nat>, words: seq<nat>) returns (ghost more: seq<nat>)
      requires forall j :: 0 <= j < |fields| ==>
        fields[j] < |words| && words[fields[j]] != NIL && words[fields[j]] in colours
      modifies this`stack
      ensures stack == old(stack) + more
      ensures forall b :: b in more <==> FreshAmong(fields, words, |fields|, colours, curr, b)
    {
      hide FreshAmong;
      more := [];
      var i := 0;
      FreshStep(fields, words, 0, colours, curr);
      while i < |fields|
        invariant 0 <= i <= |fields| && stack == old(stack) + more
        invariant forall b :: b in more <==> FreshAmong(fields, words, i, colours, curr, b)
      {
        FreshStep(fields, words, i, colours, curr);
        MarkPointerMaybe(words[fields[i]]);
        if Fresh(colours, curr, words[fields[i]]) { more := more + [words[fields[i]]]; }
        i := i + 1;
      }
    }

    /** The roots of one frame. */
    method PushFrame(f: Frame, ghost h: Heap) returns (ghost more: seq<nat>)
      requires FrameOk(f, h) && colours.Keys == h.Keys
      modifies this`stack
      ensures stack == old(stack) + more
      ensures forall b :: b in more <==> MpOfFrame(f, b) || (FrameHas(f, b) && Fresh(colours, curr, b))
    {
      ghost var mps: seq<nat> := [];
      if f.prev_mp != None {
        stack := stack + [f.prev_mp.value];
        mps := [f.prev_mp.value];
      }
      ghost var rest: seq<nat> := [];
      if |f.desc.pointer_map| > 0 { rest := MarkPointerFields(f.desc, f.words, h); } else { NoPointers(f.desc, f.words); }
      more := mps + rest;
    }

    /** The roots of one thread. */
    method PushThread(t: Thread, ghost h: Heap) returns (ghost more: seq<nat>)
      requires ThreadOk(t, h) && colours.Keys == h.Keys
      modifies this`stack
      ensures stack == old(stack) + more
      ensures forall b :: b in more <==> ThreadRoot(t, colours, curr, b)
    {
      stack := stack + [t.mp_base];
      more := [t.mp_base];
      var i := 0;
      while i < |t.frames|
        invariant 0 <= i <= |t.frames| && stack == old(stack) + more
        invariant forall b :: b in more <==>
          b == t.mp_base ||
          exists j :: 0 <= j < i && (MpOfFrame(t.frames[j], b) || (FrameHas(t.frames[j], b) && Fresh(colours, curr, b)))
      {
        ghost var part := PushFrame(t.frames[i], h);
        more := more + part;
        i := i + 1;
      }
    }

    method PushRoots(threads: seq<Thread>, ghost h: Heap)
      requires ThreadsOk(threads, h) && colours.Keys == h.Keys && stack == []
      modifies this`stack
      ensures forall b :: b in stack <==> Root(threads, colours, curr, b)
    {
      var t := 0;
      while t < |threads|
        invariant 0 <= t <= |threads|
        invariant forall b :: b in stack <==> exists u :: 0 <= u < t && ThreadRoot(threads[u], colours, curr, b)
      {
        ghost var part := PushThread(threads[t], h);
        t := t + 1;
      }
      RootsByThread(threads, colours, curr);
    }

    /** Colour the allocation on top of the stack and push what it points to. */
    method MarkOne(h: Heap) returns (ghost more: seq<nat>)
      requires stack != [] && colours.Keys == h.Keys && stack[|stack| - 1] in h
      requires PointsInto(h[stack[|stack| - 1]].desc, h[stack[|stack| - 1]].words, h)
      modifies this`stack, this`colours
      ensures var a := old(stack)[|old(stack)| - 1];
              && colours == old(colours)[a := curr] && stack == old(stack)[..|old(stack)| - 1] + more
              && forall b :: b in more <==> IsChild(h, a, b) && Fresh(colours, curr, b)
    {
      var a := stack[|stack| - 1];
      stack := stack[..|stack| - 1];
      colours := colours[a := curr];
      more := [];
      if |h[a].desc.pointer_map| > 0 {
        more := MarkPointerFields(h[a].desc, h[a].words, h);
      } else {
        NoPointers(h[a].desc, h[a].words);
      }
    }

    /** mark: at the end the current colour is on exactly what had it before, the module data, and all that is reached. */
    method Mark(h: Heap, threads: seq<Thread>)
      requires HeapOk(h) && ThreadsOk(threads, h) && colours.Keys == h.Keys && stack == []
      modifies this`stack, this`colours
      ensures stack == [] && colours.Keys == h.Keys
      ensures forall a :: a in h ==>
        colours[a] == if Reached(h, threads, old(colours), curr, a) then curr else old(colours)[a]
    {
      hide Marking, RootsCovered, Uncoloured, ColouredCount, Reached, HeapOk, ThreadsOk, PointsInto, IsChild, Fresh;
      ghost var c0 := colours;
      PushRoots(threads, h);
      ghost var done: set<nat> := {};
      RootsMark(h, threads, c0, curr, stack);
      while stack != []
        invariant colours.Keys == h.Keys && Marking(h, threads, c0, colours, curr, stack, done)
        invariant RootsCovered(threads, c0, curr, stack, done)
        decreases |Uncoloured(h, colours, curr)|, ColouredCount(stack, colours, curr)
      {
        ghost var was, rest := colours, stack[..|stack| - 1];
        ghost var a := stack[|stack| - 1];
        assert stack == rest + [a];
        OnStack(h, threads, c0, was, curr, rest, done, a);
        ghost var more := MarkOne(h);
        MarkStep(h, threads, c0, was, curr, rest, done, a, more);
        MarkShrinks(h, was, curr, rest, a, more);
        done := done + {a};
      }
      AllMarked(h, threads, c0, colours, curr, done);
    }

    /** A new allocation, not tracked yet. */
    method Allocate(a: nat)
      requires Valid() && a !in tracking
      modifies this`colours
      ensures Valid() && colours == old(colours)[a := White]
    {
      colours := colours[a := White];
    }

    /** An allocation that reference counting frees; the collector's own reference keeps tracked ones. */
    method Free(a: nat)
      requires Valid() && a !in tracking
      modifies this`colours
      ensures Valid() && colours == old(colours) - {a}
    {
      colours := colours - {a};
    }

    /** What reference counting frees while the collector sweeps. */
    method FreeAll(gone: set<nat>)
      requires Valid() && forall a :: a in gone ==> a !in tracking
      modifies this`colours
      ensures Valid() && colours == old(colours) - gone
    {
      colours := colours - gone;
    }

    /** sweep: what has the colour goes, in order; the rest stays, in order. */
    method Sweep(colour: Colour) returns (swept: seq<nat>)
      requires forall a :: a in tracking ==> a in colours
      modifies this`tracking
      ensures swept == OfColour(old(tracking), colours, colour) && tracking == NotOfColour(old(tracking), colours, colour)
    {
      var kept: seq<nat> := [];
      swept := [];
      var i := 0;
      ghost var all := tracking;
      while i < |tracking|
        invariant 0 <= i <= |tracking|
        invariant swept == OfColour(tracking[..i], colours, colour) && kept == NotOfColour(tracking[..i], colours, colour)
      {
        var a := tracking[i];
        assert tracking[..i + 1][..i] == tracking[..i];
        assert a in tracking;
        if colours[a] == colour { swept := swept + [a]; } else { kept := kept + [a]; }
        i := i + 1;
      }
      assert tracking[..i] == tracking;
      tracking := kept;
    }

    /** collect: nothing happens, and no epoch passes, while nothing is tracked. Otherwise a tracked allocation is swept exactly
        when it was tracked at least two epochs ago and neither the last collection nor this one left it the current colour. */
    method Collect(h: Heap, threads: seq<Thread>) returns (collected: bool, swept: seq<nat>)
      requires Valid() && HeapOk(h) && ThreadsOk(threads, h) && colours.Keys == h.Keys && stack == []
      modifies this
      ensures Valid() && stack == [] && since == old(since)
      ensures old(tracking) == [] ==>
        !collected && swept == [] && epoch == old(epoch) && history == old(history) && tracking == []
      ensures old(tracking) != [] ==>
        collected && epoch == old(epoch) + 1 && history[..old(epoch)] == old(history)
      ensures old(tracking) != [] ==> forall a :: a in h ==>
        (a in history[old(epoch)] <==>
           old(colours)[a] == Current(old(epoch)) || Reached(h, threads, old(colours), Current(old(epoch)), a))
      ensures old(tracking) != [] ==> forall a :: a in old(tracking) ==>
        (a in swept <==> Dead(since[a], history, old(epoch), a)) && (a in tracking <==> a !in swept)
      ensures tracking == Without(old(tracking), swept) && colours.Keys == h.Keys && forall a :: a in swept ==> a in old(tracking)
    {
      NothingWithout(tracking);
      if tracking == [] { return false, []; }
      hide HeapOk, ThreadsOk, Reached, LastColoured, Different, Current, Sweeper;
      ghost var c0 := colours;
      ghost var marked := MarkPhase(h, threads);
      SweptIff(epoch, since, history, marked, c0, colours, tracking);
      swept := SweepPhase(marked);
      collected := true;
    }

    /** The marking of one collection; marked is what has the current colour at its end. */
    method MarkPhase(h: Heap, threads: seq<Thread>) returns (ghost marked: set<nat>)
      requires HeapOk(h) && ThreadsOk(threads, h) && colours.Keys == h.Keys && stack == []
      modifies this`stack, this`colours, this`curr
      ensures stack == [] && colours.Keys == h.Keys
      ensures forall a :: a in h ==>
        (a in marked <==> old(colours)[a] == Current(epoch) || Reached(h, threads, old(colours), Current(epoch), a))
      ensures forall a :: a in colours ==>
        (a in marked <==> colours[a] == Current(epoch)) && (colours[a] == old(colours)[a] || colours[a] == Current(epoch))
    {
      hide HeapOk, ThreadsOk, Reached, Current;
      curr := Current(epoch);
      Mark(h, threads);
      marked := set a | a in h && colours[a] == curr;
    }

    /** The sweep of one collection and the end of its epoch. */
    method SweepPhase(ghost marked: set<nat>) returns (swept: seq<nat>)
      requires |history| == epoch && Different(tracking)
      requires forall a :: a in tracking ==> a in since && a in colours && since[a] <= epoch
      requires forall a :: a in tracking ==> (colours[a] == Sweeper(epoch) <==> Dead(since[a], history + [marked], epoch, a))
      requires forall a :: a in tracking && colours[a] != Sweeper(epoch) ==>
        Dated(since[a], history + [marked], epoch + 1, a, colours[a])
      modifies this`tracking, this`history, this`epoch
      ensures Valid() && epoch == old(epoch) + 1 && history == old(history) + [marked]
      ensures forall a :: a in old(tracking) ==>
        (a in swept <==> Dead(since[a], history, old(epoch), a)) && (a in tracking <==> a !in swept)
      ensures tracking == Without(old(tracking), swept) && forall a :: a in swept ==> a in old(tracking)
    {
      hide LastColoured, Current, Sweeper, Dead;
      ghost var all := tracking;
      swept := Sweep(Sweeper(epoch));
      FilterIs(all, colours, Sweeper(epoch));
      RestIsWithout(all, colours, Sweeper(epoch), swept);
      history := history + [marked];
      epoch := epoch + 1;
    }
  }

  /** The colour tells the epoch of the last colouring, which is one of the last three. */
  ghost predicate Dated(since: nat, history: seq<set<nat>>, epoch: nat, a: nat, c: Colour) {
    var last := LastColoured(since, history, a);
    last <= epoch <= last + 2 && c == Current(last)
  }

  /** Tracked two epochs ago or earlier, and not coloured by the last collection nor by this one. */
  ghost predicate Dead(since: nat, history: seq<set<nat>>, epoch: nat, a: nat)
    requires epoch < |history|
  {
    since + 2 <= epoch && a !in history[epoch - 1] && a !in history[epoch]
  }

  function OfColour(s: seq<nat>, c: Colours, colour: Colour): seq<nat> {
    if s == [] then []
    else
      var a := s[|s| - 1];
      OfColour(s[..|s| - 1], c, colour) + (if a in c && c[a] == colour then [a] else [])
  }

  function NotOfColour(s: seq<nat>, c: Colours, colour: Colour): seq<nat> {
    if s == [] then []
    else
      var a := s[|s| - 1];
      NotOfColour(s[..|s| - 1], c, colour) + (if a in c && c[a] == colour then [] else [a])
  }

  /** The list without some of its entries. */
  function Without(s: seq<nat>, gone: seq<nat>): seq<nat> {
    if s == [] then []
    else Without(s[..|s| - 1], gone) + (if s[|s| - 1] in gone then [] else [s[|s| - 1]])
  }

  lemma NothingWithout(s: seq<nat>)
    ensures s == [] ==> Without(s, []) == s
  {
  }

  lemma {:induction false} RestIsWithout(s: seq<nat>, c: Colours, colour: Colour, gone: seq<nat>)
    requires forall a :: a in s ==> a in c && (a in gone <==> c[a] == colour)
    ensures NotOfColour(s, c, colour) == Without(s, gone)
  {
    if s != [] { RestIsWithout(s[..|s| - 1], c, colour, gone); }
  }

  lemma {:induction false} FilterIs(s: seq<nat>, c: Colours, colour: Colour)
    ensures forall a :: a in OfColour(s, c, colour) <==> a in s && a in c && c[a] == colour
    ensures forall a :: a in NotOfColour(s, c, colour) <==> a in s && !(a in c && c[a] == colour)
    ensures Different(s) ==> Different(NotOfColour(s, c, colour))
  {
    if s != [] {
      var front, a := s[..|s| - 1], s[|s| - 1];
      FilterIs(front, c, colour);
      assert s == front + [a];
      if Different(s) {
        assert Different(front) && a !in front;
      }
    }
  }

  ghost predicate Different(s: seq<nat>) { forall i, j :: 0 <= i < j < |s| ==> s[i] != s[j] }

  /** Among the last three epochs the colour tells which. */
  lemma ColourTellsEpoch(epoch: nat, e: nat, f: nat)
    requires e <= epoch <= e + 2 && f <= epoch <= f + 2 && Current(e) == Current(f)
    ensures e == f
  {
  }

  /** After marking, a tracked allocation has the sweeper's colour exactly when it is dead; the others keep a colour that tells
      one of the last three epochs. */
  lemma SweptIff(epoch: nat, since: map<nat, nat>, history: seq<set<nat>>, marked: set<nat>, c0: Colours, c: Colours,
                 tracked: seq<nat>)
    requires |history| == epoch && c.Keys == c0.Keys
    requires forall a :: a in tracked ==> a in since && a in c0 && since[a] <= epoch
    requires forall a :: a in tracked ==> Dated(since[a], history, epoch, a, c0[a])
    requires forall a :: a in c ==> (a in marked <==> c[a] == Current(epoch)) && (c[a] == c0[a] || c[a] == Current(epoch))
    ensures forall a :: a in tracked ==> (c[a] == Sweeper(epoch) <==> Dead(since[a], history + [marked], epoch, a))
    ensures forall a :: a in tracked && c[a] != Sweeper(epoch) ==> Dated(since[a], history + [marked], epoch + 1, a, c[a])
  {
    forall a | a in tracked
      ensures c[a] == Sweeper(epoch) <==> Dead(since[a], history + [marked], epoch, a)
      ensures c[a] != Sweeper(epoch) ==> Dated(since[a], history + [marked], epoch + 1, a, c[a])
    {
      LastColouredGrows(since[a], history, marked, a);
      ColoursRotate(epoch);
      var last := LastColoured(since[a], history, a);
      if epoch >= 1 { assert (history + [marked])[epoch - 1] == history[epoch - 1]; }
    }
  }

  ghost predicate FreshAt(words: seq<nat>, k: nat, c: Colours, curr: Colour) { k < |words| && Fresh(c, curr, words[k]) }

  lemma FieldIsWord(t: TypeDesc, words: seq<nat>, k: nat)
    requires IsField(t, words, k)
    ensures k < |words| && words[k] != NIL && HasPointer(t, words, words[k])
  {
  }

  lemma WordOf(t: TypeDesc, words: seq<nat>, b: nat) returns (k: nat)
    requires HasPointer(t, words, b)
    ensures IsField(t, words, k) && k < |words| && words[k] == b
  {
    k :| IsField(t, words, k) && words[k] == b;
  }

  ghost predicate ThreadRoot(t: Thread, c: Colours, curr: Colour, b: nat) {
    b == t.mp_base
    || exists j :: 0 <= j < |t.frames| && (MpOfFrame(t.frames[j], b) || (FrameHas(t.frames[j], b) && Fresh(c, curr, b)))
  }

  /** One of the first n fields points to b, which does not have the current colour. */
  ghost predicate FreshAmong(fields: seq<nat>, words: seq<nat>, n: nat, c: Colours, curr: Colour, b: nat) {
    exists j :: 0 <= j < n <= |fields| && FreshAt(words, fields[j], c, curr) && words[fields[j]] == b
  }

  lemma FreshStep(fields: seq<nat>, words: seq<nat>, n: nat, c: Colours, curr: Colour)
    ensures n == 0 ==> forall b :: !FreshAmong(fields, words, n, c, curr, b)
    ensures n < |fields| && fields[n] < |words| ==> forall b :: FreshAmong(fields, words, n + 1, c, curr, b) <==>
              FreshAmong(fields, words, n, c, curr, b) || (b == words[fields[n]] && Fresh(c, curr, b))
  {
    if n < |fields| && fields[n] < |words| {
      forall b | b == words[fields[n]] && Fresh(c, curr, b) ensures FreshAmong(fields, words, n + 1, c, curr, b) {
        assert FreshAt(words, fields[n], c, curr);
      }
      forall b | FreshAmong(fields, words, n, c, curr, b) ensures FreshAmong(fields, words, n + 1, c, curr, b) {
        var j :| 0 <= j < n <= |fields| && FreshAt(words, fields[j], c, curr) && words[fields[j]] == b;
      }
    }
  }

  lemma FieldsInHeap(t: TypeDesc, words: seq<nat>, fields: seq<nat>, h: Heap)
    requires fields == Fields(t, words) && PointsInto(t, words, h)
    ensures forall j :: 0 <= j < |fields| ==> fields[j] < |words| && words[fields[j]] != NIL && words[fields[j]] in h
  {
    FieldsAreAll(t, words);
    forall j | 0 <= j < |fields| ensures fields[j] < |words| && words[fields[j]] != NIL && words[fields[j]] in h {
      assert fields[j] in fields;
      FieldIsWord(t, words, fields[j]);
    }
  }

  /** Going through all fields misses no pointer and adds none. */
  lemma NoneMissed(t: TypeDesc, words: seq<nat>, fields: seq<nat>, c: Colours, curr: Colour)
    requires fields == Fields(t, words)
    ensures forall b :: HasPointer(t, words, b) && Fresh(c, curr, b) <==> FreshAmong(fields, words, |fields|, c, curr, b)
  {
    FieldsAreAll(t, words);
    hide IsField, Fields;
    forall b | HasPointer(t, words, b) && Fresh(c, curr, b) ensures FreshAmong(fields, words, |fields|, c, curr, b) {
      var k := WordOf(t, words, b);
      FieldIsWord(t, words, k);
      var j :| 0 <= j < |fields| && fields[j] == k;
      assert FreshAt(words, fields[j], c, curr);
    }
    forall b | FreshAmong(fields, words, |fields|, c, curr, b) ensures HasPointer(t, words, b) && Fresh(c, curr, b) {
      var j :| 0 <= j < |fields| && FreshAt(words, fields[j], c, curr) && words[fields[j]] == b;
      assert fields[j] in fields && IsField(t, words, fields[j]);
    }
  }

  lemma NoPointers(t: TypeDesc, words: seq<nat>)
    requires t.pointer_map == []
    ensures forall b :: !HasPointer(t, words, b)
  {
  }

  lemma RootsByThread(threads: seq<Thread>, c: Colours, curr: Colour)
    ensures forall b :: Root(threads, c, curr, b) <==> exists u :: 0 <= u < |threads| && ThreadRoot(threads[u], c, curr, b)
  {
  }

  lemma RootsMark(h: Heap, threads: seq<Thread>, c0: Colours, curr: Colour, stack: seq<nat>)
    requires HeapOk(h) && ThreadsOk(threads, h) && c0.Keys == h.Keys
    requires forall b :: b in stack <==> Root(threads, c0, curr, b)
    ensures Marking(h, threads, c0, c0, curr, stack, {}) && RootsCovered(threads, c0, curr, stack, {})
  {
    forall a | a in stack ensures a in h && Reached(h, threads, c0, curr, a) { RootIsReached(h, threads, c0, curr, a); }
  }

  lemma OnStack(h: Heap, threads: seq<Thread>, c0: Colours, c: Colours, curr: Colour, rest: seq<nat>, done: set<nat>, a: nat)
    requires HeapOk(h) && Marking(h, threads, c0, c, curr, rest + [a], done)
    ensures a in h && PointsInto(h[a].desc, h[a].words, h)
  {
    assert a in rest + [a];
  }

  lemma MarkStep(h: Heap, threads: seq<Thread>, c0: Colours, c: Colours, curr: Colour, rest: seq<nat>, done: set<nat>, a: nat,
                 more: seq<nat>)
    requires HeapOk(h) && Marking(h, threads, c0, c, curr, rest + [a], done) && RootsCovered(threads, c0, curr, rest + [a], done)
    requires forall b :: b in more <==> IsChild(h, a, b) && Fresh(c[a := curr], curr, b)
    ensures Marking(h, threads, c0, c[a := curr], curr, rest + more, done + {a})
    ensures RootsCovered(threads, c0, curr, rest + more, done + {a})
  {
    hide Reached, IsChild, Root, HeapOk;
    var stack, c' := rest + [a], c[a := curr];
    assert a in stack;
    assert forall b :: b in rest ==> b in stack;
    assert forall b :: b in stack ==> b in rest || b == a;
    forall b | b in more ensures b in h && Reached(h, threads, c0, curr, b) {
      assert Step(h, c0, curr, a, b);
      StepIsReached(h, threads, c0, curr, a, b);
    }
    forall x, b | x in done + {a} && Step(h, c0, curr, x, b) ensures b in done + {a} || b in rest + more {
      if x in done {
        assert b in done || b in stack;
      } else {
        assert Fresh(c', curr, b) || b in done + {a};
      }
    }
  }

  lemma MarkShrinks(h: Heap, c: Colours, curr: Colour, rest: seq<nat>, a: nat, more: seq<nat>)
    requires c.Keys == h.Keys && a in h
    requires forall b :: b in more ==> Fresh(c[a := curr], curr, b)
    ensures var c' := c[a := curr];
            && c'.Keys == h.Keys
            && (|Uncoloured(h, c', curr)| < |Uncoloured(h, c, curr)| || (
                  && Uncoloured(h, c', curr) == Uncoloured(h, c, curr)
                  && ColouredCount(rest + more, c', curr) < ColouredCount(rest + [a], c, curr)))
  {
    var c' := c[a := curr];
    if c[a] != curr {
      assert Uncoloured(h, c', curr) == Uncoloured(h, c, curr) - {a};
    } else {
      assert c' == c;
      PushedUncoloured(rest, more, c, curr);
      assert (rest + [a])[..|rest|] == rest;
    }
  }

  lemma AllMarked(h: Heap, threads: seq<Thread>, c0: Colours, c: Colours, curr: Colour, done: set<nat>)
    requires Marking(h, threads, c0, c, curr, [], done) && RootsCovered(threads, c0, curr, [], done)
    ensures forall a :: a in h ==> c[a] == if Reached(h, threads, c0, curr, a) then curr else c0[a]
  {
    forall a | Reached(h, threads, c0, curr, a) ensures a in done {
      var p: seq<nat> :| Path(h, threads, c0, curr, p) && p[|p| - 1] == a;
      ClosedHoldsPath(h, threads, c0, curr, done, p);
    }
  }

  /** What marking leaves: the data of every module that a thread or one of its frames is in has the current colour, and so has
      whatever a pointer of a frame, or of an allocation coloured by this marking, points to. */
  lemma InUseIsMarked(h: Heap, threads: seq<Thread>, c0: Colours, c: Colours, curr: Colour)
    requires HeapOk(h) && ThreadsOk(threads, h) && c0.Keys == c.Keys == h.Keys
    requires forall a :: a in h ==> c[a] == if Reached(h, threads, c0, curr, a) then curr else c0[a]
    ensures forall t :: 0 <= t < |threads| ==> Has(c, threads[t].mp_base, curr)
    ensures forall t, i :: 0 <= t < |threads| && 0 <= i < |threads[t].frames| ==>
      var f := threads[t].frames[i];
      && (f.prev_mp != None ==> Has(c, f.prev_mp.value, curr))
      && forall k: nat :: IsField(f.desc, f.words, k) ==> Has(c, f.words[k], curr)
    ensures forall a :: a in h && c0[a] != curr && c[a] == curr ==>
      forall k: nat :: IsField(h[a].desc, h[a].words, k) ==> Has(c, h[a].words[k], curr)
  {
    hide Reached;
    forall t | 0 <= t < |threads|
      ensures Has(c, threads[t].mp_base, curr)
      ensures forall i :: 0 <= i < |threads[t].frames| ==> FrameMarked(threads[t].frames[i], c, curr)
    {
      assert ThreadOk(threads[t], h);
      RootIsReached(h, threads, c0, curr, threads[t].mp_base);
      forall i | 0 <= i < |threads[t].frames| ensures FrameMarked(threads[t].frames[i], c, curr) {
        FrameIsMarked(h, threads, c0, c, curr, t, i);
      }
    }
    forall a, k: nat | a in h && c0[a] != curr && c[a] == curr && IsField(h[a].desc, h[a].words, k)
      ensures Has(c, h[a].words[k], curr)
    {
      var b := h[a].words[k];
      assert PointsInto(h[a].desc, h[a].words, h);
      assert HasPointer(h[a].desc, h[a].words, b);
      if c0[b] != curr { StepIsReached(h, threads, c0, curr, a, b); }
    }
  }

  predicate Has(c: Colours, a: nat, curr: Colour) { a in c && c[a] == curr }

  ghost predicate FrameMarked(f: Frame, c: Colours, curr: Colour) {
    && (f.prev_mp != None ==> Has(c, f.prev_mp.value, curr))
    && forall k: nat :: IsField(f.desc, f.words, k) ==> Has(c, f.words[k], curr)
  }

  lemma FrameIsMarked(h: Heap, threads: seq<Thread>, c0: Colours, c: Colours, curr: Colour, t: nat, i: nat)
    requires ThreadsOk(threads, h) && c0.Keys == c.Keys == h.Keys && t < |threads| && i < |threads[t].frames|
    requires forall a :: a in h ==> c[a] == if Reached(h, threads, c0, curr, a) then curr else c0[a]
    ensures FrameMarked(threads[t].frames[i], c, curr)
  {
    hide Reached;
    var f := threads[t].frames[i];
    assert ThreadOk(threads[t], h);
    assert FrameOk(f, h);
    if f.prev_mp != None {
      assert MpOfFrame(f, f.prev_mp.value);
      RootIsReached(h, threads, c0, curr, f.prev_mp.value);
    }
    forall k: nat | IsField(f.desc, f.words, k) ensures Has(c, f.words[k], curr) {
      var b := f.words[k];
      assert HasPointer(f.desc, f.words, b);
      assert FrameHas(f, b);
      if c0[b] != curr { RootIsReached(h, threads, c0, curr, b); }
    }
  }
}
