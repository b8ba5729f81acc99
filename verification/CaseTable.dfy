// Case statements over integers: the choice between a range table and a jump table, the tables, and
// their execution (limbo/compiler/com.b, limbo/compiler/dis.b, src/vm/execution_table.cpp).
module CaseTable {

  const MIN := -0x8000_0000
  const MAX := 0x7fff_ffff

  predicate Int32(x: int) { MIN <= x <= MAX }

  /** A number in the 32 bits of a Limbo int and of a Dis word. */
  function Wrap(x: int): (w: int)
    ensures Int32(w)
    ensures Int32(x) ==> w == x
  {
    (x - MIN) % 0x1_0000_0000 + MIN
  }

  datatype Option<T> = None | Some(value: T)

  // ---- what a case statement means ----

  /** A label of the checked case statement: sorted, disjoint, with the body it selects. */
  datatype Label = Label(start: int, stop: int, pc: int)

  ghost predicate Labels(labs: seq<Label>) {
    && (forall i :: 0 <= i < |labs| ==> Int32(labs[i].start) && Int32(labs[i].stop) && labs[i].start <= labs[i].stop)
    && (forall i, j :: 0 <= i < j < |labs| ==> labs[i].stop < labs[j].start)
  }

  function Target(labs: seq<Label>, wild: int, x: int): int {
    if labs == [] then wild
    else if labs[0].start <= x <= labs[0].stop then labs[0].pc
    else Target(labs[1..], wild, x)
  }

  lemma {:induction false} TargetIs(labs: seq<Label>, wild: int, x: int, i: nat)
    requires Labels(labs) && i < |labs| && labs[i].start <= x <= labs[i].stop
    ensures Target(labs, wild, x) == labs[i].pc
  {
    if i > 0 {
      assert labs[0].stop < labs[i].start;
      TargetIs(labs[1..], wild, x, i - 1);
    }
  }

  lemma {:induction false} TargetIsWild(labs: seq<Label>, wild: int, x: int)
    requires forall i :: 0 <= i < |labs| ==> !(labs[i].start <= x <= labs[i].stop)
    ensures Target(labs, wild, x) == wild
  {
    if labs != [] { TargetIsWild(labs[1..], wild, x); }
  }

  // ---- the range table and its search ----

  const ENTRY := 3

  function Entries(labs: seq<Label>): (t: seq<int>)
    ensures |t| == ENTRY * |labs|
  {
    if labs == [] then [] else [labs[0].start, Wrap(labs[0].stop + 1), labs[0].pc] + Entries(labs[1..])
  }

  function RangeTable(labs: seq<Label>, wild: int): seq<int> {
    [|labs|] + Entries(labs) + [wild]
  }

  /** The search over the first n entries at the start of t. */
  function SearchEntries(t: seq<int>, n: nat, wild: int, x: int): int
    requires ENTRY * n <= |t|
  {
    if n == 0 then wild
    else if x < t[0] || t[1] <= x then SearchEntries(t[ENTRY..], n - 1, wild, x)
    else t[2]
  }

  predicate IsTable(table: seq<int>) {
    table != [] && table[0] >= 0 && |table| >= 2 + ENTRY * table[0]
  }

  function Search(table: seq<int>, x: int): int
    requires IsTable(table)
  {
    SearchEntries(table[1..], table[0], table[1 + ENTRY * table[0]], x)
  }

  /** The case instruction. */
  method Case(table: array<int>, value: int) returns (pc: int)
    requires IsTable(table[..])
    ensures pc == Search(table[..], value)
  {
    var entry_count := table[0];
    pc := table[1 + entry_count * ENTRY];
    var current := 1;
    ghost var t, n, wild := table[1..], entry_count, pc;
    while 0 < entry_count
      invariant 0 <= entry_count <= n && current == 1 + ENTRY * (n - entry_count) && pc == wild
      invariant SearchEntries(t, n, wild, value) == SearchEntries(table[current..], entry_count, wild, value)
    {
      if value < table[current] || table[current + 1] <= value {
        assert table[current..][ENTRY..] == table[current + ENTRY..];
        current := current + ENTRY;
        entry_count := entry_count - 1;
        continue;
      }
      pc := table[current + 2];
      break;
    }
    assert t == table[..][1..];
  }

  /** The label whose stored upper bound is MAX + 1, wrapped, which no value is below. */
  predicate Unreachable(labs: seq<Label>, x: int) {
    labs != [] && labs[|labs| - 1].stop == MAX && labs[|labs| - 1].start <= x
  }

  lemma {:induction false} SearchIsTarget(labs: seq<Label>, rest: seq<int>, wild: int, x: int)
    requires Labels(labs) && Int32(x)
    ensures SearchEntries(Entries(labs) + rest, |labs|, wild, x) == if Unreachable(labs, x) then wild else Target(labs, wild, x)
  {
    if labs != [] {
      var t := Entries(labs) + rest;
      assert t[ENTRY..] == Entries(labs[1..]) + rest;
      SearchIsTarget(labs[1..], rest, wild, x);
      if |labs| > 1 {
        assert labs[0].stop < labs[|labs| - 1].start;
        assert labs[1..][|labs| - 2] == labs[|labs| - 1];
      }
    }
  }

  /** The range table selects the right body, except for values of a label that ends at MAX. */
  lemma RangeTableMeans(labs: seq<Label>, wild: int, x: int)
    requires Labels(labs) && Int32(x)
    ensures IsTable(RangeTable(labs, wild))
    ensures Search(RangeTable(labs, wild), x) == if Unreachable(labs, x) then wild else Target(labs, wild, x)
  {
    var table := RangeTable(labs, wild);
    assert table[1..] == Entries(labs) + [wild];
    SearchIsTarget(labs, [wild], wild, x);
  }

  // ---- the jump table and its dispatch ----

  /** The number of values between the first label and the last, in 32 bits. */
  function Span(labs: seq<Label>): int
    requires labs != []
  {
    Wrap(labs[|labs| - 1].stop - labs[0].start + 1)
  }

  /** The labels are dense enough for a jump table. */
  predicate Dense(labs: seq<Label>) {
    labs != [] && 3 <= Span(labs) <= 3 * |labs|
  }

  function Targets(labs: seq<Label>, wild: int, first: int, n: nat): (t: seq<int>)
    ensures |t| == n && forall k :: 0 <= k < n ==> t[k] == Target(labs, wild, first + k)
  {
    seq(n, k => Target(labs, wild, first + k))
  }

  function JumpTable(labs: seq<Label>, wild: int): (t: seq<int>)
    requires Dense(labs)
    ensures |t| == Span(labs) + 2
  {
    [Span(labs) + 1] + Targets(labs, wild, labs[0].start, Span(labs)) + [wild]
  }

  /** The code in front of a jump table: subtract, two bound tests, goto. */
  method Dispatch(table: array<int>, first: int, last: int, wild: int, x: int) returns (pc: int)
    requires Int32(x) && Int32(first) && Int32(last) && first <= last
    requires table.Length >= last - first + 2
    ensures pc == Dispatched(table[..], first, last, wild, x)
  {
    var left := x;
    if first != 0 { left := Wrap(x - first); }        // subw
    if left < 0 { return wild; }                      // bltw
    if left > last - first { return wild; }           // bgtw
    pc := table[1 + left];                            // goto
  }

  function Dispatched(table: seq<int>, first: int, last: int, wild: int, x: int): int
    requires Int32(first) && Int32(last) && |table| >= last - first + 2
  {
    var left := Wrap(x - first);
    if left < 0 || left > last - first then wild else table[1 + left]
  }

  lemma SpanIsExact(labs: seq<Label>)
    requires Labels(labs) && Dense(labs)
    ensures 3 <= Span(labs) == labs[|labs| - 1].stop - labs[0].start + 1 <= MAX
  {
    if |labs| > 1 { assert labs[0].stop < labs[|labs| - 1].start; }
  }

  /** The 32-bit computation does not deceive: the jump table is chosen exactly for three values or more, from the first label to
      the last, and at most three values a label. */
  lemma DenseIff(labs: seq<Label>)
    requires Labels(labs) && |labs| < 0x1000_0000
    ensures Dense(labs) <==> labs != [] && 3 <= labs[|labs| - 1].stop - labs[0].start + 1 <= 3 * |labs|
  {
    if |labs| > 1 { assert labs[0].stop < labs[|labs| - 1].start; }
  }

  lemma InSpan(labs: seq<Label>, i: nat)
    requires Labels(labs) && i < |labs|
    ensures labs[0].start <= labs[i].start && labs[i].stop <= labs[|labs| - 1].stop
  {
    if i > 0 { assert labs[0].stop < labs[i].start; }
    if i < |labs| - 1 { assert labs[i].stop < labs[|labs| - 1].start; }
  }

  /** The two tests on the wrapped difference. */
  lemma OutOfBounds(x: int, first: int, last: int)
    requires Int32(x) && Int32(first) && Int32(last) && first <= last && Int32(last - first)
    ensures var left := Wrap(x - first);
            if first <= x <= last then left == x - first else left < 0 || left > last - first
  {
  }

  /** The jump table selects the right body for every 32-bit value, whatever the subtraction wraps to. */
  lemma JumpTableMeans(labs: seq<Label>, wild: int, x: int)
    requires Labels(labs) && Dense(labs) && Int32(x)
    ensures |JumpTable(labs, wild)| == labs[|labs| - 1].stop - labs[0].start + 3
    ensures Dispatched(JumpTable(labs, wild), labs[0].start, labs[|labs| - 1].stop, wild, x) == Target(labs, wild, x)
  {
    hide Wrap, Target, Span;
    SpanIsExact(labs);
    var first, last := labs[0].start, labs[|labs| - 1].stop;
    OutOfBounds(x, first, last);
    if first <= x <= last {
      assert JumpTable(labs, wild)[1 + (x - first)] == Target(labs, wild, x);
    } else {
      forall i | 0 <= i < |labs| ensures !(labs[i].start <= x <= labs[i].stop) { InSpan(labs, i); }
      TargetIsWild(labs, wild, x);
    }
  }

  /** Both forms pick the same target for every 32-bit value exactly when the last label does not end at MAX
      or selects the default anyway. */
  lemma FormsAgreeIff(labs: seq<Label>, wild: int)
    requires Labels(labs) && Dense(labs)
    ensures var first, last := labs[0].start, labs[|labs| - 1].stop;
            && IsTable(RangeTable(labs, wild)) && |JumpTable(labs, wild)| >= last - first + 2
            && ((forall x :: Int32(x) ==>
                   Search(RangeTable(labs, wild), x) == Dispatched(JumpTable(labs, wild), first, last, wild, x))
                <==> last != MAX || labs[|labs| - 1].pc == wild)
  {
    var first, last := labs[0].start, labs[|labs| - 1].stop;
    RangeTableMeans(labs, wild, first);
    JumpTableMeans(labs, wild, first);
    forall x | Int32(x)
      ensures Search(RangeTable(labs, wild), x) == if Unreachable(labs, x) then wild else Target(labs, wild, x)
      ensures Dispatched(JumpTable(labs, wild), first, last, wild, x) == Target(labs, wild, x)
      ensures Unreachable(labs, x) ==> Target(labs, wild, x) == labs[|labs| - 1].pc
    {
      RangeTableMeans(labs, wild, x);
      JumpTableMeans(labs, wild, x);
      if Unreachable(labs, x) { TargetIs(labs, wild, x, |labs| - 1); }
    }
    if last == MAX && labs[|labs| - 1].pc != wild {
      assert Unreachable(labs, MAX);
    }
  }

  /** A label that the range form never selects. */
  lemma LastLabelIsLost()
    ensures var labs := [Label(MAX, MAX, 7)];
            Labels(labs) && Target(labs, 9, MAX) == 7 && Search(RangeTable(labs, 9), MAX) == 9
  {
    var labs := [Label(MAX, MAX, 7)];
    RangeTableMeans(labs, 9, MAX);
    TargetIs(labs, 9, MAX, 0);
  }

  // ---- the compiler: expanding the labels and filling in the bodies ----

  datatype Outcome = Done | Bounds | Fatal

  /** One entry of the label array; no instruction is nil. */
  datatype Entry = Entry(start: int, stop: int, inst: Option<int>)

  /** A qualifier of a body: a constant or a range, with the first instruction of the body. */
  datatype Qualifier = Qualifier(lo: int, hi: int, range: bool, pc: int)

  ghost predicate Within(q: Qualifier, l: Label) { l.start <= q.lo <= q.hi <= l.stop && q.pc == l.pc }

  /** The labels are the merged qualifiers. */
  ghost predicate Merged(quals: seq<Qualifier>, labels: seq<Label>) {
    && (forall j :: 0 <= j < |quals| ==> exists i :: 0 <= i < |labels| && Within(quals[j], labels[i]))
    && (forall j :: 0 <= j < |quals| && !quals[j].range ==> quals[j].lo == quals[j].hi)
    && (forall i, x :: 0 <= i < |labels| && labels[i].start <= x <= labels[i].stop ==> Qualified(quals, |quals|, x))
  }

  /** One of the first n qualifiers covers x. */
  ghost predicate Qualified(quals: seq<Qualifier>, n: nat, x: int)
    requires n <= |quals|
  {
    n > 0 && (Qualified(quals, n - 1, x) || quals[n - 1].lo <= x <= quals[n - 1].hi)
  }

  lemma {:induction false} Qualifying(quals: seq<Qualifier>, n: nat, x: int) returns (j: nat)
    requires n <= |quals| && Qualified(quals, n, x)
    ensures j < n && quals[j].lo <= x <= quals[j].hi
  {
    if quals[n - 1].lo <= x <= quals[n - 1].hi { j := n - 1; } else { j := Qualifying(quals, n - 1, x); }
  }

  /** One of the first n qualifiers is a range that ends at MAX. */
  predicate OpenRange(quals: seq<Qualifier>, n: nat)
    requires n <= |quals|
  {
    n > 0 && (OpenRange(quals, n - 1) || (quals[n - 1].range && quals[n - 1].hi == MAX))
  }

  lemma {:induction false} OpenRangeNeedsMax(quals: seq<Qualifier>, labels: seq<Label>, n: nat)
    requires Labels(labels) && Merged(quals, labels) && n <= |quals| && OpenRange(quals, n)
    ensures labels != [] && labels[|labels| - 1].stop == MAX
  {
    if OpenRange(quals, n - 1) {
      OpenRangeNeedsMax(quals, labels, n - 1);
    } else {
      var i :| 0 <= i < |labels| && Within(quals[n - 1], labels[i]);
      InSpan(labels, i);
    }
  }

  lemma {:induction false} OpenRangeStays(quals: seq<Qualifier>, n: nat, m: nat)
    requires n <= m <= |quals| && OpenRange(quals, n)
    ensures OpenRange(quals, m)
  {
    if n < m { OpenRangeStays(quals, n, m - 1); }
  }

  lemma WildOutside(quals: seq<Qualifier>, labels: seq<Label>, wild: int)
    requires Merged(quals, labels)
    ensures forall x :: !Qualified(quals, |quals|, x) ==> Target(labels, wild, x) == wild
  {
    forall x | !Qualified(quals, |quals|, x) ensures Target(labels, wild, x) == wild { TargetIsWild(labels, wild, x); }
  }

  /** Each label comes at least one value after the one before it. */
  lemma {:induction false} AtLeast(labels: seq<Label>, i: nat, j: nat)
    requires Labels(labels) && i <= j < |labels|
    ensures labels[j].start - labels[i].start >= j - i && labels[j].stop - labels[i].stop >= j - i
    decreases j - i
  {
    if i < j {
      assert labels[i].stop < labels[i + 1].start;
      AtLeast(labels, i + 1, j);
    }
  }

  /** As many values as labels: no ranges and no gaps. */
  lemma NoGaps(labels: seq<Label>, i: nat)
    requires Labels(labels) && Dense(labels) && Span(labels) == |labels| && i < |labels|
    ensures labels[i].start == labels[i].stop == labels[0].start + i
  {
    SpanIsExact(labels);
    AtLeast(labels, 0, i);
    AtLeast(labels, i, |labels| - 1);
  }

  class Cases {
    var nlab: nat
    var labs: array<Entry>
    var iwild: int

    /** The entries are the labels, in order. */
    ghost predicate Holds(labels: seq<Label>)
      reads this, labs
    {
      && nlab == |labels| <= labs.Length
      && forall i :: 0 <= i < nlab ==> labs[i].start == labels[i].start && labs[i].stop == labels[i].stop
    }

    /** One entry a value from first on. */
    ghost predicate Expanded(first: int, n: nat)
      reads this, labs
    {
      nlab == n <= labs.Length && forall k :: 0 <= k < n ==> labs[k].start == labs[k].stop == first + k
    }

    /** Choose the jump table and expand the labels for it. The loop that fills gaps counts in 32 bits, so it runs over
        the end of the array exactly when there is something to expand and the last label ends at MAX. */
    method DoGoto(ghost labels: seq<Label>) returns (out: Outcome, igoto: bool)
      requires Labels(labels) && Holds(labels) && |labels| < 0x1000_0000
      modifies this, labs
      ensures out == Bounds <==> Dense(labels) && Span(labels) != |labels| && labels[|labels| - 1].stop == MAX
      ensures out != Fatal && (out == Done ==> (igoto <==> Dense(labels)))
      ensures out == Done && !igoto ==> nlab == old(nlab) && labs == old(labs) && labs[..] == old(labs[..])
      ensures out == Done && igoto ==>
        Expanded(labels[0].start, Span(labels)) && forall k :: 0 <= k < nlab ==> labs[k].inst == None
      ensures labs == old(labs) || fresh(labs)
    {
      var n := nlab;
      if n == 0 { return Done, false; }
      var l := labs;
      var r := Wrap(l[n - 1].stop - l[0].start + 1);
      assert r == Span(labels);
      if r < 3 || r > 3 * n { return Done, false; }
      SpanIsExact(labels);
      if r != n {
        nlab := r;
        out := Fill(l, n, r, labels);
        if out != Done { return out, false; }
      } else {
        forall i | 0 <= i < n ensures l[i].start == l[i].stop == labels[0].start + i { NoGaps(labels, i); }
      }
      var i := 0;
      while i < r
        invariant 0 <= i <= r && r == nlab <= labs.Length && (labs == old(labs) || fresh(labs))
        invariant Expanded(labels[0].start, r)
        invariant forall k :: 0 <= k < i ==> labs[k].inst == None
      {
        labs[i] := labs[i].(inst := None);
        i := i + 1;
      }
      return Done, true;
    }

    /** Remove ranges, fill in gaps. */
    method Fill(l: array<Entry>, n: nat, r: nat, ghost labels: seq<Label>) returns (out: Outcome)
      requires Labels(labels) && Dense(labels) && r == Span(labels) == nlab && n == |labels| <= l.Length
      requires forall i :: 0 <= i < n ==> l[i].start == labels[i].start && l[i].stop == labels[i].stop
      modifies this`labs
      ensures out == if labels[n - 1].stop == MAX then Bounds else Done
      ensures fresh(labs)
      ensures out == Done ==> Expanded(labels[0].start, r)
    {
      SpanIsExact(labels);
      ghost var first := labels[0].start;
      var nl := new Entry[r](_ => Entry(0, 0, None));
      labs := nl;
      var k := 0;
      var v := Wrap(l[0].start - 1);
      var i := 0;
      while i < n
        invariant 0 <= i <= n && 0 <= k <= r && labs == nl && fresh(nl)
        invariant i == 0 ==> k == 0 && v == Wrap(first - 1)
        invariant i > 0 ==> v == labels[i - 1].stop == first + k - 1
        invariant i > 0 ==> labels[i - 1].stop < MAX
        invariant forall m :: 0 <= m < k ==> nl[m].start == nl[m].stop == first + m
      {
        var q := l[i].stop;
        InSpan(labels, i);
        if i > 0 { assert labels[i - 1].stop < labels[i].start; }
        if i + 1 < n { assert labels[i].stop < labels[i + 1].start; }
        var j := Wrap(v + 1);
        while j <= q
          invariant 0 <= k <= r && labs == nl && Int32(j)
          invariant if first + k <= MAX then j == first + k && j <= q + 1 else q == MAX && k == r
          invariant forall m :: 0 <= m < k ==> nl[m].start == nl[m].stop == first + m
          decreases r - k
        {
          if k >= nl.Length { return Bounds; }
          nl[k] := Entry(j, j, l[i].inst);
          k := k + 1;
          j := Wrap(j + 1);
        }
        v := q;
        i := i + 1;
      }
      if k != r { return Fatal; }
      out := Done;
    }

    /** Binary search for the label that contains v. */
    method FindLab(v: int, ghost at: nat) returns (out: Outcome, m: nat)
      requires at < nlab <= labs.Length && labs[at].start <= v <= labs[at].stop
      requires forall i, j :: 0 <= i < j < nlab ==> labs[i].start <= labs[i].stop < labs[j].start
      ensures out == Done && m == at
    {
      if nlab <= 1 { return Done, 0; }
      var l, r := 1, nlab - 1;
      while l <= r
        invariant 1 <= l <= nlab && l - 1 <= r < nlab
        invariant l - 1 <= at <= r || (l == 1 && at == 0)
      {
        m := (r + l) / 2;
        if labs[m].start <= v { l := m + 1; } else { r := m - 1; }
      }
      m := l - 1;
      if labs[m].start > v || labs[m].stop < v { return Fatal, m; }
      out := Done;
    }

    /** Set the body of every value of a range; the loop over the range counts in 32 bits. */
    method FillRange(p: int, q: int, pc: int, ghost first: int)
      returns (out: Outcome)
      requires Expanded(first, nlab) && first <= p <= q < first + nlab && Int32(p) && Int32(q)
      modifies labs
      ensures out == if q == MAX then Bounds else Done
      ensures out == Done ==> forall k :: 0 <= k < labs.Length ==>
        labs[k] == if p <= first + k <= q && k < nlab then old(labs[k]).(inst := Some(pc)) else old(labs[k])
    {
      var i := 0;
      while i < nlab
        invariant 0 <= i <= p - first
      {
        if labs[i].start == p { break; }
        i := i + 1;
      }
      if i == nlab { return Fatal; }
      var j := p;
      while j <= q
        invariant p - first <= i <= labs.Length && Int32(j)
        invariant if first + i <= MAX then j == first + i else q == MAX
        invariant q < MAX ==> j <= q + 1
        invariant forall k :: 0 <= k < labs.Length ==>
          labs[k] == if p - first <= k < i then old(labs[k]).(inst := Some(pc)) else old(labs[k])
        decreases labs.Length - i
      {
        if i >= labs.Length { return Bounds; }
        labs[i] := labs[i].(inst := Some(pc));
        i := i + 1;
        j := Wrap(j + 1);
      }
      out := Done;
    }

    /** Record the bodies in an expanded label array. */
    method FillJump(quals: seq<Qualifier>, wild: int, ghost labels: seq<Label>) returns (out: Outcome)
      requires Labels(labels) && Dense(labels) && Merged(quals, labels)
      requires Expanded(labels[0].start, Span(labels)) && forall k :: 0 <= k < nlab ==> labs[k].inst == None
      modifies labs
      ensures out == if OpenRange(quals, |quals|) then Bounds else Done
      ensures out == Done ==> forall k :: 0 <= k < nlab ==> labs[k].inst == Some(Target(labels, wild, labels[0].start + k))
    {
      hide Labels, Target, Merged;
      SpanIsExact(labels);
      ghost var first := labels[0].start;
      var n := 0;
      while n < |quals|
        invariant 0 <= n <= |quals| && Expanded(first, Span(labels))
        invariant !OpenRange(quals, n)
        invariant forall k :: 0 <= k < nlab ==>
          if Qualified(quals, n, first + k) then labs[k].inst == Some(Target(labels, wild, first + k)) else labs[k].inst == None
      {
        out := Record(quals, n, wild, labels);
        if out != Done {
          OpenRangeStays(quals, n + 1, |quals|);
          return;
        }
        n := n + 1;
      }
      WildOutside(quals, labels, wild);
      FillWild(wild, labels);
      out := Done;
    }

    /** The labels that no body claimed select the default. */
    method FillWild(wild: int, ghost labels: seq<Label>)
      requires labels != [] && nlab <= labs.Length
      requires forall k :: 0 <= k < nlab ==>
        labs[k].inst == Some(Target(labels, wild, labels[0].start + k))
        || (labs[k].inst == None && Target(labels, wild, labels[0].start + k) == wild)
      modifies labs
      ensures forall k :: 0 <= k < nlab ==> labs[k].inst == Some(Target(labels, wild, labels[0].start + k))
    {
      var k := 0;
      while k < nlab
        invariant 0 <= k <= nlab
        invariant forall m :: 0 <= m < k ==> labs[m].inst == Some(Target(labels, wild, labels[0].start + m))
        invariant forall m :: k <= m < nlab ==> labs[m] == old(labs[m])
      {
        if labs[k].inst == None { labs[k] := labs[k].(inst := Some(wild)); }
        k := k + 1;
      }
    }

    /** One qualifier: the label found by its start, and a whole range when it is one. */
    method Record(quals: seq<Qualifier>, n: nat, ghost wild: int, ghost labels: seq<Label>) returns (out: Outcome)
      requires Labels(labels) && Dense(labels) && Merged(quals, labels) && n < |quals| && Expanded(labels[0].start, Span(labels))
      modifies labs
      ensures out == if quals[n].range && quals[n].hi == MAX then Bounds else Done
      ensures out == Done ==> Expanded(labels[0].start, Span(labels))
      ensures out == Done ==> forall k :: 0 <= k < nlab ==>
        labs[k].inst ==
        if quals[n].lo <= labels[0].start + k <= quals[n].hi then Some(Target(labels, wild, labels[0].start + k))
        else old(labs[k].inst)
    {
      var q := quals[n];
      ghost var first := labels[0].start;
      ghost var i :| 0 <= i < |labels| && Within(q, labels[i]);
      InSpan(labels, i);
      SpanIsExact(labels);
      forall x | q.lo <= x <= q.hi ensures Target(labels, wild, x) == q.pc { TargetIs(labels, wild, x, i); }
      var m: nat;
      out, m := FindLab(q.lo, q.lo - first);
      if out != Done { return; }
      labs[m] := labs[m].(inst := Some(q.pc));
      if q.range { out := FillRange(q.lo, q.hi, q.pc, first); }
    }

    /** Record the bodies in the merged labels. */
    method FillLabels(quals: seq<Qualifier>, ghost labels: seq<Label>) returns (out: Outcome)
      requires Labels(labels) && Merged(quals, labels) && Holds(labels)
      modifies labs
      ensures out == Done && Holds(labels) && forall i :: 0 <= i < nlab ==> labs[i].inst == Some(labels[i].pc)
    {
      var n := 0;
      while n < |quals|
        invariant 0 <= n <= |quals| && Holds(labels)
        invariant forall j, i :: 0 <= j < n && 0 <= i < nlab && Within(quals[j], labels[i]) ==> labs[i].inst == Some(labels[i].pc)
      {
        var q := quals[n];
        ghost var at :| 0 <= at < |labels| && Within(q, labels[at]);
        assert forall i :: 0 <= i < |labels| && Within(q, labels[i]) ==> i == at;
        var m: nat;
        out, m := FindLab(q.lo, at);
        if out != Done { return; }
        labs[m] := labs[m].(inst := Some(q.pc));
        n := n + 1;
      }
      forall i | 0 <= i < nlab ensures labs[i].inst == Some(labels[i].pc) { LabelHasQualifier(quals, labels, i); }
      out := Done;
    }

    /** casecom: choose the form and record the bodies. The compiler fails only where a loop counts past MAX. */
    method CaseCom(quals: seq<Qualifier>, wild: int, ghost labels: seq<Label>) returns (out: Outcome, igoto: bool)
      requires Labels(labels) && Merged(quals, labels) && Holds(labels) && |labels| < 0x1000_0000
      requires forall i :: 0 <= i < nlab ==> labs[i].inst == None
      modifies this, labs
      ensures out == (if Dense(labels) && labels[|labels| - 1].stop == MAX
                         && (Span(labels) != |labels| || OpenRange(quals, |quals|))
                      then Bounds else Done)
      ensures out == Done ==> iwild == wild && (igoto <==> Dense(labels))
      ensures out == Done && igoto ==> nlab == Span(labels) <= labs.Length
      ensures out == Done && igoto ==>
        forall k :: 0 <= k < nlab ==> labs[k].inst == Some(Target(labels, wild, labels[0].start + k))
      ensures out == Done && !igoto ==> Holds(labels) && forall i :: 0 <= i < nlab ==> labs[i].inst == Some(labels[i].pc)
    {
      out, igoto := DoGoto(labels);
      if out != Done { return; }
      if igoto {
        if OpenRange(quals, |quals|) { OpenRangeNeedsMax(quals, labels, |quals|); }
        out := FillJump(quals, wild, labels);
      } else {
        out := FillLabels(quals, labels);
      }
      iwild := wild;
    }

    /** The data written for a range table. */
    method RangeWords(ghost labels: seq<Label>) returns (words: seq<int>)
      requires Labels(labels) && Holds(labels) && forall i :: 0 <= i < nlab ==> labs[i].inst == Some(labels[i].pc)
      ensures words == RangeTable(labels, iwild)
    {
      words := [nlab];
      var i := 0;
      while i < nlab
        invariant 0 <= i <= nlab && words == [nlab] + Entries(labels[..i])
      {
        EntriesStep(labels, i);
        words := words + [labs[i].start];
        words := words + [Wrap(labs[i].stop + 1)];
        words := words + [labs[i].inst.value];
        i := i + 1;
      }
      assert labels[..nlab] == labels;
      words := words + [iwild];
    }

    /** The data written for a jump table; its type has a word for each label, one for the count, one for the default. */
    method JumpWords(ghost labels: seq<Label>) returns (words: seq<int>)
      requires Labels(labels) && Dense(labels) && nlab == Span(labels) <= labs.Length
      requires forall k :: 0 <= k < nlab ==> labs[k].inst == Some(Target(labels, iwild, labels[0].start + k))
      ensures words == JumpTable(labels, iwild)
    {
      var size := nlab + 2;
      words := [size - 1];
      var i := 0;
      while i < nlab
        invariant 0 <= i <= nlab && words == [size - 1] + Targets(labels, iwild, labels[0].start, i)
      {
        words := words + [labs[i].inst.value];
        i := i + 1;
      }
      words := words + [iwild];
    }
  }

  /** A range up to MAX that becomes a jump table: filling in its values runs over the end of the new array. */
  method ExpansionOverruns() returns (out: Outcome)
    ensures out == Bounds
  {
    ghost var labels := [Label(MAX - 2, MAX, 7)];
    var c := new Cases;
    c.nlab, c.iwild := 1, 9;
    c.labs := new Entry[1] [Entry(MAX - 2, MAX, None)];
    assert Span(labels) == 3;
    var igoto;
    out, igoto := c.DoGoto(labels);
  }

  /** Single values up to MAX, the last of them written as a range: recording its body runs over the end of the array. */
  method FillingOverruns() returns (out: Outcome)
    ensures out == Bounds
  {
    ghost var labels := [Label(MAX - 2, MAX - 2, 7), Label(MAX - 1, MAX - 1, 8), Label(MAX, MAX, 9)];
    var first, second := Qualifier(MAX - 2, MAX - 2, false, 7), Qualifier(MAX - 1, MAX - 1, false, 8);
    var quals := [first, second, Qualifier(MAX, MAX, true, 9)];
    var c := new Cases;
    c.nlab, c.iwild := 3, 6;
    c.labs := new Entry[3] [Entry(MAX - 2, MAX - 2, None), Entry(MAX - 1, MAX - 1, None), Entry(MAX, MAX, None)];
    assert Span(labels) == 3 && OpenRange(quals, 3);
    assert Within(quals[0], labels[0]) && Within(quals[1], labels[1]) && Within(quals[2], labels[2]);
    forall i, x | 0 <= i < |labels| && labels[i].start <= x <= labels[i].stop ensures Qualified(quals, |quals|, x) {
      assert Qualified(quals, 1, MAX - 2) && Qualified(quals, 2, MAX - 2) && Qualified(quals, 2, MAX - 1);
    }
    var igoto;
    out, igoto := c.CaseCom(quals, 6, labels);
  }

  lemma LabelHasQualifier(quals: seq<Qualifier>, labels: seq<Label>, i: nat)
    requires Labels(labels) && Merged(quals, labels) && i < |labels|
    ensures exists j :: 0 <= j < |quals| && Within(quals[j], labels[i])
  {
    assert Qualified(quals, |quals|, labels[i].start);
    var j := Qualifying(quals, |quals|, labels[i].start);
    var k :| 0 <= k < |labels| && Within(quals[j], labels[k]);
    assert k == i;
  }

  lemma {:induction false} EntriesAppend(labs: seq<Label>, l: Label)
    ensures Entries(labs + [l]) == Entries(labs) + [l.start, Wrap(l.stop + 1), l.pc]
  {
    if labs == [] {
      assert labs + [l] == [l];
      assert [l][1..] == [];
    } else {
      assert (labs + [l])[1..] == labs[1..] + [l];
      EntriesAppend(labs[1..], l);
    }
  }

  lemma EntriesStep(labs: seq<Label>, i: nat)
    requires i < |labs|
    ensures Entries(labs[..i + 1]) == Entries(labs[..i]) + [labs[i].start, Wrap(labs[i].stop + 1), labs[i].pc]
  {
    assert labs[..i + 1] == labs[..i] + [labs[i]];
    EntriesAppend(labs[..i], labs[i]);
  }
}
