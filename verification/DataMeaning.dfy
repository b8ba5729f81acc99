// What the memory of a loaded module holds: every initial value of the program, at its place.
module DataMeaning {
  import opened DisFormat
  import opened DataSection

  // ---- where a value lies ----

  /** Address a is one that the value writes when it starts at `at`. Of an array that is the place of its pointer. */
  predicate Occupies(n: Node, at: int, a: int)
    decreases n
  {
    match n
    case Datum(_, _) => a == at
    case Raw(bytes) => at <= a < at + |bytes|
    case Literal(_) => a == at
    case Structure(parts) => OccupiesIn(parts, at, a)
    case ArrayOf(_, _, _) => a == at
    case Nothing => false
  }

  predicate OccupiesIn(parts: Parts, at: int, a: int)
    decreases parts
  {
    parts.Part? && (Occupies(parts.node, at + parts.offset, a) || OccupiesIn(parts.rest, at, a))
  }

  /** No two parts of a structure or an array lie at the same place. */
  ghost predicate Apart(n: Node, at: int)
    decreases n
  {
    match n
    case Structure(parts) => ApartIn(parts, at)
    case ArrayOf(_, _, init) => init != None ==> ApartIn(init.value, 0)
    case _ => true
  }

  ghost predicate ApartIn(parts: Parts, at: int)
    decreases parts
  {
    parts.Part? ==>
      && Apart(parts.node, at + parts.offset) && ApartIn(parts.rest, at)
      && forall a: int :: Occupies(parts.node, at + parts.offset, a) ==> !OccupiesIn(parts.rest, at, a)
  }

  // ---- what memory shows ----

  predicate Holds(m: Image, obj: nat, a: int, v: Value) { obj < |m.objs| && a in m.objs[obj].cells && m.objs[obj].cells[a] == v }

  /** The object shows the value at an address; arrays are objects of their own, from number lo on. */
  ghost predicate Shows(m: Image, obj: nat, at: int, n: Node, lo: nat)
    decreases n
  {
    match n
    case Datum(kind, v) => Holds(m, obj, at, Num(kind, v))
    case Raw(bytes) => forall i :: 0 <= i < |bytes| ==> Holds(m, obj, at + i, Num(Bytes1, bytes[i]))
    case Literal(text) => Holds(m, obj, at, Str(text))
    case Structure(parts) => ShowsIn(m, obj, at, parts, lo)
    case ArrayOf(element, length, init) =>
      exists p: nat :: lo <= p < |m.objs| && Holds(m, obj, at, Ptr(p)) && m.objs[p].element == element && m.objs[p].length == length
                  && (init != None ==> ShowsIn(m, p, 0, init.value, p + 1))
    case Nothing => true
  }

  ghost predicate ShowsIn(m: Image, obj: nat, at: int, parts: Parts, lo: nat)
    decreases parts
  {
    parts.Part? ==> Shows(m, obj, at + parts.offset, parts.node, lo) && ShowsIn(m, obj, at, parts.rest, lo)
  }

  // ---- storing changes nothing else ----

  /** Between the two, new objects came and the cells of one old object changed only where `touched` says. */
  ghost predicate OnlyTouches(m: Image, n: Image, touched: iset<int>) {
    && n.base == m.base && n.stack == m.stack && m.base.obj < |m.objs| <= |n.objs|
    && (forall i :: 0 <= i < |m.objs| && i != m.base.obj ==> n.objs[i] == m.objs[i])
    && n.objs[m.base.obj].element == m.objs[m.base.obj].element && n.objs[m.base.obj].length == m.objs[m.base.obj].length
    && forall a: int :: a !in touched ==> SameAt(m, n, m.base.obj, a)
  }

  predicate SameAt(m: Image, n: Image, obj: nat, a: int)
    requires obj < |m.objs| && obj < |n.objs|
  {
    (a in n.objs[obj].cells <==> a in m.objs[obj].cells)
    && (a in m.objs[obj].cells ==> n.objs[obj].cells[a] == m.objs[obj].cells[a])
  }

  ghost function Place(n: Node, at: int): iset<int> { iset a: int | Occupies(n, at, a) }

  ghost function PlaceIn(parts: Parts, at: int): iset<int> { iset a: int | OccupiesIn(parts, at, a) }

  predicate Between(lo: int, a: int, hi: int) { lo <= a < hi }

  ghost function Interval(lo: int, hi: int): iset<int> { iset a: int | Between(lo, a, hi) }

  lemma TouchesTwice(l: Image, m: Image, n: Image, s: iset<int>, t: iset<int>)
    requires OnlyTouches(l, m, s) && OnlyTouches(m, n, t)
    ensures OnlyTouches(l, n, s + t)
  {
    forall a: int | a !in s + t ensures SameAt(l, n, l.base.obj, a) {
      assert SameAt(l, m, l.base.obj, a) && SameAt(m, n, l.base.obj, a);
    }
  }

  /** What an object shows, it goes on showing while its own cells at that place and the new objects stay. */
  lemma {:induction false} StillShows(m: Image, m': Image, obj: nat, at: int, n: Node, lo: nat)
    requires Shows(m, obj, at, n, lo) && obj < |m.objs| <= |m'.objs| && lo <= |m.objs|
    requires forall i :: lo <= i < |m.objs| ==> m'.objs[i] == m.objs[i]
    requires forall a: int :: Occupies(n, at, a) ==> SameAt(m, m', obj, a)
    ensures Shows(m', obj, at, n, lo)
    decreases n
  {
    match n
    case Datum(kind, v) => assert Occupies(n, at, at);
    case Raw(bytes) =>
      forall i | 0 <= i < |bytes| ensures Holds(m', obj, at + i, Num(Bytes1, bytes[i])) {
        assert Occupies(n, at, at + i) && Holds(m, obj, at + i, Num(Bytes1, bytes[i]));
      }
    case Literal(text) => assert Occupies(n, at, at);
    case Structure(parts) =>
      forall a: int | OccupiesIn(parts, at, a) ensures SameAt(m, m', obj, a) { assert Occupies(n, at, a); }
      StillShowsIn(m, m', obj, at, parts, lo);
    case ArrayOf(element, length, init) =>
      assert Occupies(n, at, at);
      var p: nat :| lo <= p < |m.objs| && Holds(m, obj, at, Ptr(p)) && m.objs[p].element == element && m.objs[p].length == length
                    && (init != None ==> ShowsIn(m, p, 0, init.value, p + 1));
      if init != None { StillShowsIn(m, m', p, 0, init.value, p + 1); }
    case Nothing =>
  }

  lemma {:induction false} StillShowsIn(m: Image, m': Image, obj: nat, at: int, parts: Parts, lo: nat)
    requires ShowsIn(m, obj, at, parts, lo) && obj < |m.objs| <= |m'.objs| && lo <= |m.objs|
    requires forall i :: lo <= i < |m.objs| ==> m'.objs[i] == m.objs[i]
    requires forall a: int :: OccupiesIn(parts, at, a) ==> SameAt(m, m', obj, a)
    ensures ShowsIn(m', obj, at, parts, lo)
    decreases parts
  {
    if parts.Part? {
      forall a: int | Occupies(parts.node, at + parts.offset, a) ensures SameAt(m, m', obj, a) { assert OccupiesIn(parts, at, a); }
      forall a: int | OccupiesIn(parts.rest, at, a) ensures SameAt(m, m', obj, a) { assert OccupiesIn(parts, at, a); }
      StillShows(m, m', obj, at + parts.offset, parts.node, lo);
      StillShowsIn(m, m', obj, at, parts.rest, lo);
    }
  }

  // ---- a stored value is shown ----

  lemma {:induction false} RunShows(m: Image, offset: int, bytes: Bytes)
    requires m.base.obj < |m.objs|
    ensures var n := StoreRun(m, Bytes1, offset, bytes); var at := m.base.start + offset;
            && OnlyTouches(m, n, Interval(at, at + |bytes|)) && |n.objs| == |m.objs|
            && forall i :: 0 <= i < |bytes| ==> Holds(n, m.base.obj, at + i, Num(Bytes1, bytes[i]))
    decreases |bytes|
  {
    if bytes != [] {
      var first := Store(m, offset, Num(Bytes1, bytes[0]));
      var at := m.base.start + offset;
      RunShows(first, offset + 1, bytes[1..]);
      var n := StoreRun(m, Bytes1, offset, bytes);
      assert n == StoreRun(first, Bytes1, offset + 1, bytes[1..]);
      assert SameAt(first, n, m.base.obj, at);
      assert OnlyTouches(m, first, iset{at});
      TouchesTwice(m, first, n, iset{at}, Interval(at + 1, at + |bytes|));
      forall i | 0 <= i < |bytes| ensures Holds(n, m.base.obj, at + i, Num(Bytes1, bytes[i])) {
        if i > 0 { assert Holds(n, m.base.obj, at + 1 + (i - 1), Num(Bytes1, bytes[1..][i - 1])); }
      }
    }
  }

  /** A value stored on its own: the object shows it, and nothing else has changed. */
  lemma {:induction false} StoredShows(m: Image, offset: int, n: Node)
    requires m.base.obj < |m.objs| && Stored(m, offset, n) != None && Apart(n, m.base.start + offset)
    ensures var r := Stored(m, offset, n).value;
            && OnlyTouches(m, r, Place(n, m.base.start + offset))
            && Shows(r, m.base.obj, m.base.start + offset, n, |m.objs|)
    decreases n, 1
  {
    var at := m.base.start + offset;
    match n
    case Datum(kind, v) => assert Place(n, at) == iset{at};
    case Raw(bytes) =>
      RunShows(m, offset, bytes);
      assert Place(n, at) == Interval(at, at + |bytes|);
    case Literal(text) => assert Place(n, at) == iset{at};
    case Structure(parts) =>
      StoredPartsShow(m, offset, parts);
      assert Place(n, at) == PlaceIn(parts, at);
    case ArrayOf(element, length, init) => ArrayShows(m, offset, n);
    case Nothing =>
  }

  lemma {:induction false} ArrayShows(m: Image, offset: int, n: Node)
    requires m.base.obj < |m.objs| && n.ArrayOf? && Stored(m, offset, n) != None && Apart(n, m.base.start + offset)
    ensures var r := Stored(m, offset, n).value;
            && OnlyTouches(m, r, Place(n, m.base.start + offset))
            && Shows(r, m.base.obj, m.base.start + offset, n, |m.objs|)
    decreases n, 0
  {
    var at, p := m.base.start + offset, |m.objs|;
    var a := Apply(m, NewArray(offset, n.element, n.length)).value;
    NewArrayShows(m, offset, n.element, n.length);
    assert Place(n, at) == iset{at};
    if n.init != None {
      var b := Apply(a, Enter(offset, 0)).value;
      assert b == a.(base := Base(p, 0), stack := a.stack + [a.base]);
      StoredPartsShow(b, 0, n.init.value);
      var c := StoredParts(b, 0, n.init.value).value;
      assert c.stack == a.stack + [a.base] && (a.stack + [a.base])[..|a.stack|] == a.stack;
      var r := Apply(c, Leave(0)).value;
      assert r == c.(base := a.base, stack := a.stack) == Stored(m, offset, n).value;
      forall x: int ensures SameAt(a, r, m.base.obj, x) {}
      ShowsSame(c, r, p, 0, n.init.value, p + 1);
      assert OnlyTouches(m, r, iset{at}) by {
        forall x: int | x != at ensures SameAt(m, r, m.base.obj, x) {
          assert SameAt(m, a, m.base.obj, x) && SameAt(a, r, m.base.obj, x);
        }
      }
    }
  }

  /** What is shown depends on the objects only. */
  lemma ShowsSame(m: Image, m': Image, obj: nat, at: int, parts: Parts, lo: nat)
    requires ShowsIn(m, obj, at, parts, lo) && m'.objs == m.objs && obj < |m.objs| && lo <= |m.objs|
    ensures ShowsIn(m', obj, at, parts, lo)
  {
    StillShowsIn(m, m', obj, at, parts, lo);
  }

  /** A new array: one more object, and its pointer in the place asked for. */
  lemma NewArrayShows(m: Image, offset: int, element: int, length: int)
    requires m.base.obj < |m.objs| && length >= 0
    ensures var a := Apply(m, NewArray(offset, element, length)).value; var at := m.base.start + offset;
            && OnlyTouches(m, a, iset{at}) && |a.objs| == |m.objs| + 1 && a.objs[|m.objs|] == Obj(element, length, map[])
            && Holds(a, m.base.obj, at, Ptr(|m.objs|)) && Lookup(a, offset) == Some(Ptr(|m.objs|))
  {
  }

  lemma {:induction false} StoredPartsShow(m: Image, offset: int, parts: Parts)
    requires m.base.obj < |m.objs| && StoredParts(m, offset, parts) != None && ApartIn(parts, m.base.start + offset)
    ensures var r := StoredParts(m, offset, parts).value;
            && OnlyTouches(m, r, PlaceIn(parts, m.base.start + offset))
            && ShowsIn(r, m.base.obj, m.base.start + offset, parts, |m.objs|)
    decreases parts, 1
  {
    var at := m.base.start + offset;
    if parts.Part? {
      var here := at + parts.offset;
      StoredShows(m, offset + parts.offset, parts.node);
      var mid := Stored(m, offset + parts.offset, parts.node).value;
      StoredPartsShow(mid, offset, parts.rest);
      var r := StoredParts(mid, offset, parts.rest).value;
      TouchesTwice(m, mid, r, Place(parts.node, here), PlaceIn(parts.rest, at));
      assert Place(parts.node, here) + PlaceIn(parts.rest, at) == PlaceIn(parts, at);
      StillShows(mid, r, m.base.obj, here, parts.node, |m.objs|);
      LaterShows(r, m.base.obj, at, parts.rest, |mid.objs|, |m.objs|);
    } else {
      assert forall a: int :: SameAt(m, m, m.base.obj, a);
    }
  }

  /** Arrays that come later come after what was there before. */
  lemma {:induction false} LaterShows(m: Image, obj: nat, at: int, parts: Parts, hi: nat, lo: nat)
    requires ShowsIn(m, obj, at, parts, hi) && lo <= hi
    ensures ShowsIn(m, obj, at, parts, lo)
    decreases parts
  {
    if parts.Part? {
      LaterShowsOne(m, obj, at + parts.offset, parts.node, hi, lo);
      LaterShows(m, obj, at, parts.rest, hi, lo);
    }
  }

  lemma {:induction false} LaterShowsOne(m: Image, obj: nat, at: int, n: Node, hi: nat, lo: nat)
    requires Shows(m, obj, at, n, hi) && lo <= hi
    ensures Shows(m, obj, at, n, lo)
    decreases n
  {
    match n
    case Structure(parts) => LaterShows(m, obj, at, parts, hi, lo);
    case _ =>
  }

  /** Every initial value of a program whose parts do not overlap is in memory after all have been stored. */
  lemma GlobalsAreShown(size: int, globals: Parts)
    requires StoredParts(Image([Obj(0, size, map[])], Base(0, 0), []), 0, globals) != None && ApartIn(globals, 0)
    ensures ShowsIn(StoredParts(Image([Obj(0, size, map[])], Base(0, 0), []), 0, globals).value, 0, 0, globals, 1)
  {
    StoredPartsShow(Image([Obj(0, size, map[])], Base(0, 0), []), 0, globals);
  }
}
