// One collection of the whole machine: the collector marks and sweeps by colour, and what it gives up goes by reference
// counting (src/vm/garbage_collector.cpp, src/vm/vm_memory.cpp). The allocation at place o has the address o + 1; 0 is nil.
module Collection {
  import RefCount
  import Collector

  /** The collector's list is the machine's, and the allocations that have a colour are those that are live. */
  ghost predicate Linked(m: RefCount.Machine, c: Collector.Collector)
    reads m, c
  {
    && SameList(m.tracking, c.tracking)
    && (forall a :: a in c.colours <==> RefCount.IsLive(m.cells, a - 1))
  }

  predicate SameList(places: seq<int>, addresses: seq<nat>) {
    |places| == |addresses| && forall i :: 0 <= i < |places| ==> places[i] + 1 == addresses[i]
  }

  lemma {:induction false} SameListWithout(places: seq<int>, addresses: seq<nat>, dead: set<int>, gone: seq<nat>)
    requires SameList(places, addresses)
    requires forall i :: 0 <= i < |places| ==> (places[i] in dead <==> places[i] + 1 in gone)
    ensures SameList(RefCount.Kept(places, dead), Collector.Without(addresses, gone))
  {
    if places != [] {
      SameListWithout(places[..|places| - 1], addresses[..|addresses| - 1], dead, gone);
    }
  }

  lemma DeadPlaces(places: seq<int>, addresses: seq<nat>, dead: set<int>, gone: seq<nat>)
    requires SameList(places, addresses) && (forall a :: a in gone ==> a in addresses) && dead == set a | a in gone :: a - 1
    ensures forall o :: o in dead ==> o in places
    ensures forall i :: 0 <= i < |places| ==> (places[i] in dead <==> places[i] + 1 in gone)
    ensures forall a: nat :: a - 1 in dead <==> a in gone
  {
    forall a: nat | a in gone ensures a - 1 in dead && a - 1 in places {
      var i :| 0 <= i < |addresses| && addresses[i] == a;
      assert places[i] == a - 1;
    }
  }

  /** A live allocation is exactly one that something refers to. */
  lemma LiveIffReferenced(m: RefCount.Machine, o: nat)
    requires m.Valid() && o < |m.cells|
    ensures RefCount.IsLive(m.cells, o) <==> RefCount.HeapRefs(m.cells, o) + m.Roots()[o] > 0
  {
    assert RefCount.Sound(m.cells, o, RefCount.HeapRefs(m.cells, o) + m.Roots()[o]);
  }

  lemma LiveAreReferenced(m: RefCount.Machine)
    requires m.Valid()
    ensures forall o: nat :: o < |m.cells| ==>
      (RefCount.IsLive(m.cells, o) <==> RefCount.HeapRefs(m.cells, o) + m.Roots()[o] > 0)
  {
    forall o: nat | o < |m.cells|
      ensures RefCount.IsLive(m.cells, o) <==> RefCount.HeapRefs(m.cells, o) + m.Roots()[o] > 0
    {
      LiveIffReferenced(m, o);
    }
  }

  lemma TrackedIsLive(m: RefCount.Machine, i: nat)
    requires m.Valid() && i < |m.tracking| && m.tracking[i] != RefCount.NIL
    ensures RefCount.IsLive(m.cells, m.tracking[i])
  {
    assert m.tracking[i] in multiset(m.tracking);
    RefCount.Referenced(m.cells, m.Roots(), RefCount.NONE, m.tracking[i]);
  }

  lemma {:induction false} KeptIff(all: seq<int>, dead: set<int>, o: int)
    ensures o in RefCount.Kept(all, dead) <==> o in all && o !in dead
  {
    if all != [] {
      KeptIff(all[..|all| - 1], dead, o);
      assert all == all[..|all| - 1] + [all[|all| - 1]];
    }
  }

  /** What only a removed entry of the list referred to from outside the heap was in the list and dead. */
  lemma GivenUp(own: multiset<int>, others: multiset<int>, all: seq<int>, dead: set<int>, o: int)
    requires o in own + (multiset(all) + others) && o !in own + (multiset(RefCount.Kept(all, dead)) + others)
    ensures o in all && o in dead
  {
    KeptIff(all, dead, o);
  }

  /** What a sweep frees. */
  lemma Freed(was: RefCount.Cells, own: multiset<int>, others: multiset<int>, all: seq<int>, dead: set<int>,
              now: RefCount.Cells, o: nat)
    requires RefCount.Counted(was, own + (multiset(all) + others), RefCount.NONE) && RefCount.Positive(was)
    requires RefCount.Counted(now, own + (multiset(RefCount.Kept(all, dead)) + others), RefCount.NONE)
    requires RefCount.Shrunk(was, now) && RefCount.IsLive(was, o) && !RefCount.IsLive(now, o)
    ensures o in dead || exists p :: RefCount.Holds(was, p, o) && !RefCount.IsLive(now, p)
  {
    var xs, ys := own + (multiset(all) + others), own + (multiset(RefCount.Kept(all, dead)) + others);
    RefCount.FreedOnlyWithItsHolders(was, xs, now, ys, o);
    if xs[o] > 0 { GivenUp(own, others, all, dead, o); }
  }

  /** The references from the frames and registers of all threads. */
  ghost function Own(m: RefCount.Machine): multiset<int>
    reads m
  {
    RefCount.FramesRefs(m.frames) + multiset{m.module_ref, m.mp_base}
  }

  lemma Before(m: RefCount.Machine)
    requires m.Valid()
    ensures RefCount.Counted(m.cells, Own(m) + (multiset(m.tracking) + RefCount.OthersRefs(m.others)), RefCount.NONE)
    ensures RefCount.Positive(m.cells)
  {
  }

  /** The sweep by reference counting: what it frees was dead, or only freed allocations referred to it. */
  method Release(m: RefCount.Machine, dead: set<int>)
    requires m.Valid()
    modifies m`cells, m`tracking
    ensures m.Valid() && RefCount.Shrunk(old(m.cells), m.cells) && m.tracking == RefCount.Kept(old(m.tracking), dead)
    ensures forall o: nat :: RefCount.IsLive(old(m.cells), o) && !RefCount.IsLive(m.cells, o) ==>
      o in dead || exists p :: RefCount.Holds(old(m.cells), p, o) && !RefCount.IsLive(m.cells, p)
  {
    ghost var was, own, others, all := m.cells, Own(m), RefCount.OthersRefs(m.others), m.tracking;
    Before(m);
    m.Sweep(dead);
    Before(m);
    forall o: nat | RefCount.IsLive(was, o) && !RefCount.IsLive(m.cells, o)
      ensures o in dead || exists p :: RefCount.Holds(was, p, o) && !RefCount.IsLive(m.cells, p)
    {
      Freed(was, own, others, all, dead, m.cells, o);
    }
  }

  /** perform_gc's collection. What was tracked stays tracked unless two collections in a row have failed to mark it. Nothing
      is freed but dead tracked allocations and what only freed allocations referred to; in the end an allocation is live
      exactly if something refers to it. */
  method Collect(m: RefCount.Machine, c: Collector.Collector, h: Collector.Heap, threads: seq<Collector.Thread>)
    returns (dead: set<int>)
    requires m.Valid() && c.Valid() && Linked(m, c) && c.colours.Keys == h.Keys && c.stack == []
    requires Collector.HeapOk(h) && Collector.ThreadsOk(threads, h)
    modifies m`cells, m`tracking, c
    ensures m.Valid() && c.Valid() && Linked(m, c) && c.stack == [] && RefCount.Shrunk(old(m.cells), m.cells)
    ensures old(c.tracking) == [] ==> dead == {} && m.cells == old(m.cells)
    ensures old(c.tracking) != [] ==> c.epoch == old(c.epoch) + 1 && forall a :: a in old(c.tracking) ==>
      (a - 1 in dead <==> Collector.Dead(old(c.since)[a], c.history, old(c.epoch), a)) && (a in c.tracking <==> a - 1 !in dead)
    ensures forall o :: o in dead ==> o in old(m.tracking)
    ensures forall o: nat :: RefCount.IsLive(old(m.cells), o) && !RefCount.IsLive(m.cells, o) ==>
      o in dead || exists p :: RefCount.Holds(old(m.cells), p, o) && !RefCount.IsLive(m.cells, p)
    ensures forall o: nat :: o < |m.cells| ==>
      (RefCount.IsLive(m.cells, o) <==> RefCount.HeapRefs(m.cells, o) + m.Roots()[o] > 0)
  {
    hide RefCount.Machine.Valid, Collector.Collector.Valid, Collector.HeapOk, Collector.ThreadsOk, Collector.Dead;
    hide RefCount.HeapRefs, RefCount.Machine.Roots, Collector.Reached, Collector.Without, RefCount.Kept, RefCount.Shrunk;
    ColouredAreLive(m, c);
    hide RefCount.IsLive, RefCount.Holds;
    ghost var places, addresses := m.tracking, c.tracking;
    RefCount.SelfShrunk(m.cells);
    var collected, swept := c.Collect(h, threads);
    dead := set a | a in swept :: a - 1;
    DeadPlaces(places, addresses, dead, swept);
    if collected {
      SameListWithout(places, addresses, dead, swept);
      Reclaim(m, c, dead);
    }
    LiveAreReferenced(m);
  }

  lemma ColouredAreLive(m: RefCount.Machine, c: Collector.Collector)
    requires Linked(m, c)
    ensures 0 !in c.colours && forall o :: RefCount.IsLive(m.cells, o) ==> o + 1 in c.colours
  {
  }

  /** The sweep by reference counting, and the colours of what it frees. */
  method Reclaim(m: RefCount.Machine, c: Collector.Collector, dead: set<int>)
    requires m.Valid() && c.Valid() && SameList(RefCount.Kept(m.tracking, dead), c.tracking)
    requires 0 !in c.colours && forall o :: RefCount.IsLive(m.cells, o) ==> o + 1 in c.colours
    modifies m`cells, m`tracking, c`colours
    ensures m.Valid() && c.Valid() && Linked(m, c) && RefCount.Shrunk(old(m.cells), m.cells)
    ensures forall o: nat :: RefCount.IsLive(old(m.cells), o) && !RefCount.IsLive(m.cells, o) ==>
      o in dead || exists p :: RefCount.Holds(old(m.cells), p, o) && !RefCount.IsLive(m.cells, p)
  {
    hide RefCount.Machine.Valid, Collector.Collector.Valid, RefCount.Holds, RefCount.Kept;
    ghost var was := m.cells;
    Release(m, dead);
    forall o | RefCount.IsLive(m.cells, o) ensures RefCount.IsLive(was, o) {}
    FreeColours(m, c);
  }

  /** A freed allocation takes its colour with it. */
  method FreeColours(m: RefCount.Machine, c: Collector.Collector)
    requires m.Valid() && c.Valid() && SameList(m.tracking, c.tracking)
    requires 0 !in c.colours && forall o :: RefCount.IsLive(m.cells, o) ==> o + 1 in c.colours
    modifies c`colours
    ensures c.Valid() && Linked(m, c)
  {
    var gone := set a | a in c.colours && !RefCount.IsLive(m.cells, a - 1);
    forall a | a in gone && a in c.tracking ensures false { TrackedAddress(m, c.tracking, a); }
    hide RefCount.Machine.Valid, Collector.Collector.Valid;
    c.FreeAll(gone);
  }

  lemma TrackedAddress(m: RefCount.Machine, addresses: seq<nat>, a: nat)
    requires m.Valid() && SameList(m.tracking, addresses) && a in addresses && a > 0
    ensures RefCount.IsLive(m.cells, a - 1)
  {
    hide RefCount.Machine.Valid;
    var i :| 0 <= i < |addresses| && addresses[i] == a;
    assert m.tracking[i] + 1 == a;
    TrackedIsLive(m, i);
  }
}
