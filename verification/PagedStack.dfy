// The call stack: frames on a chain of fixed-size pages (src/vm/stack.cpp).
// Memory is a map from addresses to the page headers and frame headers stored there.
module PagedStack {

  datatype Option<T> = None | Some(value: T)

  /** sizeof(vm_stack_page), sizeof(vm_frame_t) and sizeof(vm_frame_base_alloc_t); only their order matters. */
  const PAGE_HEADER: nat := 12
  const FRAME_HEADER: nat := 8
  const FRAME_BASE: nat := 16

  // ---- the stack as a value ----

  /** A frame: its address and all its bytes, header included. */
  datatype Frame = Frame(addr: nat, size: nat)

  datatype Page = Page(base: nat, frames: seq<Frame>)

  type Pages = seq<Page>

  function End(f: Frame): nat { f.addr + f.size }

  function DataOf(base: nat): nat { base + PAGE_HEADER }

  function Limit(base: nat, extent: nat): nat { base + extent }

  function Last<T>(s: seq<T>): T requires s != [] { s[|s| - 1] }

  function ButLast<T>(s: seq<T>): seq<T> requires s != [] { s[..|s| - 1] }

  /** The plain stack that the pages stand for. */
  function Flat(p: Pages): seq<Frame> {
    if p == [] then [] else Flat(ButLast(p)) + Last(p).frames
  }

  /** The page after a frame of size bytes was allocated on it. */
  function Added(p: Page, f: Frame): Page { p.(frames := p.frames + [f]) }

  /** No room behind the last frame; the first frame of a page is not tested. */
  predicate Full(p: Page, size: nat, extent: nat) {
    p.frames != [] && End(Last(p.frames)) + size >= Limit(p.base, extent)
  }

  function NextAddr(p: Page): nat {
    if p.frames == [] then DataOf(p.base) else End(Last(p.frames))
  }

  /** Allocation: on the top page when it fits, else on a new page at base. */
  function Allocated(p: Pages, size: nat, extent: nat, base: nat): Pages
    requires p != []
  {
    if Full(Last(p), size, extent) then p + [Page(base, [Frame(DataOf(base), size)])]
    else ButLast(p) + [Added(Last(p), Frame(NextAddr(Last(p)), size))]
  }

  /** The last frame goes, and with it its page unless that is the only one. */
  function Popped(p: Pages): Pages
    requires p != [] && Last(p).frames != []
  {
    var q := Page(Last(p).base, ButLast(Last(p).frames));
    if q.frames == [] && |p| > 1 then ButLast(p) else ButLast(p) + [q]
  }

  // ---- what every reachable stack keeps ----

  predicate PageOk(p: Page, extent: nat) {
    && (p.frames != [] ==> p.frames[0].addr == DataOf(p.base) && p.frames[0].size <= extent)
    && (forall k :: 0 <= k < |p.frames| ==> p.frames[k].size > FRAME_HEADER + FRAME_BASE)
    && (forall k :: 0 < k < |p.frames| ==> p.frames[k].addr == End(p.frames[k - 1]))
    && (forall k :: 0 < k < |p.frames| ==> End(p.frames[k]) < Limit(p.base, extent))
  }

  predicate Apart(a: nat, b: nat, extent: nat) {
    a + PAGE_HEADER + extent <= b || b + PAGE_HEADER + extent <= a
  }

  predicate StackOk(p: Pages, extent: nat) {
    && p != []
    && (forall i :: 0 <= i < |p| ==> PageOk(p[i], extent))
    && (forall i :: 0 <= i < |p| && (i > 0 || |p| > 1) ==> p[i].frames != [])
    && (forall i, j :: 0 <= i < j < |p| ==> Apart(p[i].base, p[j].base, extent))
  }

  /** An allocator gives memory that no live page occupies. */
  predicate Unused(p: Pages, base: nat, extent: nat) {
    forall i :: 0 <= i < |p| ==> Apart(p[i].base, base, extent)
  }

  lemma AllocatedKeepsOk(p: Pages, size: nat, extent: nat, base: nat)
    requires StackOk(p, extent) && Unused(p, base, extent)
    requires FRAME_HEADER + FRAME_BASE < size <= extent
    ensures StackOk(Allocated(p, size, extent, base), extent)
  {
    var top := Last(p);
    if Full(top, size, extent) {
      var page := Page(base, [Frame(DataOf(base), size)]);
      assert PageOk(page, extent);
      NewPageOk(p, page, extent);
    } else {
      AddedOk(top, size, extent);
      TopReplacedOk(p, Added(top, Frame(NextAddr(top), size)), extent);
    }
  }

  lemma AddedOk(top: Page, size: nat, extent: nat)
    requires PageOk(top, extent) && !Full(top, size, extent) && FRAME_HEADER + FRAME_BASE < size <= extent
    ensures PageOk(Added(top, Frame(NextAddr(top), size)), extent)
  {
  }

  lemma NewPageOk(p: Pages, page: Page, extent: nat)
    requires StackOk(p, extent) && PageOk(page, extent) && page.frames != [] && Last(p).frames != []
    requires Unused(p, page.base, extent)
    ensures StackOk(p + [page], extent)
  {
  }

  /** The top page may change its frames as long as it keeps some, or is the only one. */
  lemma TopReplacedOk(p: Pages, top: Page, extent: nat)
    requires StackOk(p, extent) && PageOk(top, extent) && top.base == Last(p).base
    requires top.frames != [] || |p| == 1
    ensures StackOk(ButLast(p) + [top], extent)
  {
    var q := ButLast(p) + [top];
    assert forall i :: 0 <= i < |q| ==> q[i].base == p[i].base && (i < |p| - 1 ==> q[i] == p[i]);
  }

  lemma PoppedKeepsOk(p: Pages, extent: nat)
    requires StackOk(p, extent) && Last(p).frames != []
    ensures StackOk(Popped(p), extent)
  {
    var top := Page(Last(p).base, ButLast(Last(p).frames));
    assert PageOk(top, extent);
    if top.frames != [] || |p| == 1 { TopReplacedOk(p, top, extent); }
  }

  /** A pop restores exactly the pages from before the allocation it matches. */
  lemma PopUndoesAllocation(p: Pages, size: nat, extent: nat, base: nat)
    requires StackOk(p, extent)
    ensures var q := Allocated(p, size, extent, base);
            Last(q).frames != [] && Popped(q) == p
  {
    var q := Allocated(p, size, extent, base);
    var top := Last(p);
    if !Full(top, size, extent) {
      assert ButLast(Last(q).frames) == top.frames;
      assert ButLast(q) == ButLast(p);
      assert Page(top.base, top.frames) == top;
      assert ButLast(p) + [top] == p;
    } else {
      assert ButLast(q) == p;
    }
  }

  /** Allocation pushes on the plain stack. */
  lemma AllocatedPushes(p: Pages, size: nat, extent: nat, base: nat)
    requires p != []
    ensures var q := Allocated(p, size, extent, base);
            Flat(q) == Flat(p) + [Frame(if Full(Last(p), size, extent) then DataOf(base) else NextAddr(Last(p)), size)]
  {
    var q := Allocated(p, size, extent, base);
    if Full(Last(p), size, extent) {
      assert ButLast(q) == p;
    } else {
      assert ButLast(q) == ButLast(p);
    }
  }

  /** A pop removes the last frame of the plain stack. */
  lemma PoppedPops(p: Pages)
    requires p != [] && Last(p).frames != []
    ensures Flat(p) != [] && Flat(Popped(p)) == ButLast(Flat(p))
  {
    var q := Popped(p);
    var fs := Last(p).frames;
    assert fs == ButLast(fs) + [Last(fs)];
    if |p| > 1 && |fs| == 1 {
      assert q == ButLast(p);
    } else {
      assert ButLast(q) == ButLast(p);
    }
  }

  /** A new page is begun exactly when the top page has a frame and the new one would reach its limit; otherwise the new frame
      lies right behind the last one. */
  lemma NewPageIff(p: Pages, size: nat, extent: nat, base: nat)
    requires StackOk(p, extent)
    ensures var q, top := Allocated(p, size, extent, base), p[|p| - 1];
            && (|q| == |p| + 1 <==> top.frames != [] && End(Last(top.frames)) + size >= top.base + extent)
            && (|q| == |p| && top.frames != [] ==> Last(Last(q).frames).addr == Last(top.frames).addr + Last(top.frames).size)
  {
  }

  // ---- where frames lie ----

  lemma {:induction false} FramesAscend(p: Page, extent: nat, j: nat, k: nat)
    requires PageOk(p, extent) && j < k < |p.frames|
    ensures End(p.frames[j]) <= p.frames[k].addr
  {
    if j < k - 1 { FramesAscend(p, extent, j, k - 1); }
  }

  /** A frame lies inside the allocation of its page and starts below its limit. */
  lemma FrameInside(p: Page, extent: nat, k: nat)
    requires PageOk(p, extent) && k < |p.frames|
    ensures DataOf(p.base) <= p.frames[k].addr < Limit(p.base, extent)
    ensures End(p.frames[k]) <= p.base + PAGE_HEADER + extent
  {
    if k > 0 { FramesAscend(p, extent, 0, k); }
  }

  /** Live frames never overlap. */
  lemma FramesNeverOverlap(p: Pages, extent: nat, i: nat, j: nat, i': nat, j': nat)
    requires StackOk(p, extent)
    requires i < |p| && j < |p[i].frames| && i' < |p| && j' < |p[i'].frames| && (i, j) != (i', j')
    ensures var f, g := p[i].frames[j], p[i'].frames[j'];
            (End(f) <= g.addr || End(g) <= f.addr) && f.addr != g.addr
  {
    if i == i' {
      if j < j' { FramesAscend(p[i], extent, j, j'); } else { FramesAscend(p[i], extent, j', j); }
    } else {
      FrameInside(p[i], extent, j);
      FrameInside(p[i'], extent, j');
      assert Apart(p[if i < i' then i else i'].base, p[if i < i' then i' else i].base, extent);
    }
  }

  // ---- the stack in memory ----

  datatype PageHeader = PageHeader(prev: Option<nat>, limit: nat, top: Option<nat>)

  datatype FrameHeader = FrameHeader(size: nat, prev: Option<nat>)

  function TopOf(frames: seq<Frame>): Option<nat> { if frames == [] then None else Some(Last(frames).addr) }

  function HeaderOf(p: Pages, i: nat, extent: nat): PageHeader
    requires i < |p|
  {
    PageHeader(if i == 0 then None else Some(p[i - 1].base), Limit(p[i].base, extent), TopOf(p[i].frames))
  }

  predicate PageStored(pageAt: map<nat, PageHeader>, p: Pages, i: nat, extent: nat)
    requires i < |p|
  {
    p[i].base in pageAt && pageAt[p[i].base] == HeaderOf(p, i, extent)
  }

  ghost predicate PagesStored(pageAt: map<nat, PageHeader>, p: Pages, extent: nat) {
    forall i :: 0 <= i < |p| ==> PageStored(pageAt, p, i, extent)
  }

  function AddrBelow(fs: seq<Frame>, j: nat): Option<nat>
    requires j <= |fs|
  {
    if j == 0 then None else Some(fs[j - 1].addr)
  }

  predicate FrameStored(frameAt: map<nat, FrameHeader>, fs: seq<Frame>, j: nat, pushed: nat)
    requires j < |fs|
  {
    && fs[j].addr in frameAt && frameAt[fs[j].addr].size == fs[j].size
    && (j < pushed ==> frameAt[fs[j].addr].prev == AddrBelow(fs, j))
  }

  /** The headers of all frames, linked as far as they are pushed. */
  ghost predicate FramesStored(frameAt: map<nat, FrameHeader>, fs: seq<Frame>, pushed: nat) {
    forall j :: 0 <= j < |fs| ==> FrameStored(frameAt, fs, j, pushed)
  }

  ghost predicate Distinct(fs: seq<Frame>) {
    forall i, j :: 0 <= i < j < |fs| ==> fs[i].addr != fs[j].addr
  }

  lemma {:induction false} FlatLocate(p: Pages, j: nat) returns (i: nat, k: nat)
    requires j < |Flat(p)|
    ensures i < |p| && k < |p[i].frames| && Flat(p)[j] == p[i].frames[k]
  {
    var below := Flat(ButLast(p));
    if j < |below| { i, k := FlatLocate(ButLast(p), j); } else { i, k := |p| - 1, j - |below|; }
  }

  lemma BelowApart(p: Pages, q: Pages, extent: nat, a: nat, k: nat)
    requires StackOk(p, extent) && q <= p && q != [] && a < |Flat(ButLast(q))| && k < |Last(q).frames|
    ensures Flat(ButLast(q))[a].addr != Last(q).frames[k].addr
  {
    hide StackOk, Flat;
    var i, m := FlatLocate(ButLast(q), a);
    FramesNeverOverlap(p, extent, i, m, |q| - 1, k);
  }

  lemma {:induction false} FlatDistinct(p: Pages, q: Pages, extent: nat)
    requires StackOk(p, extent) && q <= p
    ensures Distinct(Flat(q))
  {
    hide StackOk;
    if q != [] {
      var below, frames := Flat(ButLast(q)), Last(q).frames;
      FlatDistinct(p, ButLast(q), extent);
      forall a, k | 0 <= a < |below| && 0 <= k < |frames| ensures below[a].addr != frames[k].addr {
        BelowApart(p, q, extent, a, k);
      }
      forall j, k | 0 <= j < k < |frames| ensures frames[j].addr != frames[k].addr {
        FramesNeverOverlap(p, extent, |q| - 1, j, |q| - 1, k);
      }
      DistinctSum(below, frames);
    }
  }

  lemma DistinctSum(s: seq<Frame>, t: seq<Frame>)
    requires Distinct(s) && Distinct(t)
    requires forall a, k :: 0 <= a < |s| && 0 <= k < |t| ==> s[a].addr != t[k].addr
    ensures Distinct(s + t)
  {
    var all := s + t;
    forall i, j | 0 <= i < j < |all| ensures all[i].addr != all[j].addr {
      if i < |s| && j >= |s| {
        assert s[i].addr != t[j - |s|].addr;
      }
    }
  }

  lemma FlatLast(p: Pages)
    requires p != [] && Last(p).frames != []
    ensures Flat(p) != [] && Last(Flat(p)) == Last(Last(p).frames)
  {
  }

  lemma FlatEmpty(p: Pages, extent: nat)
    requires StackOk(p, extent)
    ensures Flat(p) == [] <==> Last(p).frames == []
    ensures Last(p).frames == [] ==> |p| == 1
  {
    if Last(p).frames == [] { assert Flat(ButLast(p)) == []; }
  }

  lemma TopStored(pageAt: map<nat, PageHeader>, p: Pages, frames: seq<Frame>, extent: nat, header: PageHeader)
    requires StackOk(p, extent) && PagesStored(pageAt, p, extent)
    requires header == HeaderOf(p, |p| - 1, extent).(top := TopOf(frames))
    ensures PagesStored(pageAt[Last(p).base := header], ButLast(p) + [Page(Last(p).base, frames)], extent)
  {
    BasesDiffer(p, extent);
    var q := ButLast(p) + [Page(Last(p).base, frames)];
    var now := pageAt[Last(p).base := header];
    forall i | 0 <= i < |q| ensures PageStored(now, q, i, extent) {
      assert PageStored(pageAt, p, i, extent);
    }
  }

  lemma BasesDiffer(p: Pages, extent: nat)
    requires StackOk(p, extent)
    ensures forall i :: 0 <= i < |p| - 1 ==> p[i].base != Last(p).base
  {
    forall i | 0 <= i < |p| - 1 ensures p[i].base != Last(p).base { assert Apart(p[i].base, Last(p).base, extent); }
  }

  lemma NewStored(pageAt: map<nat, PageHeader>, p: Pages, base: nat, frames: seq<Frame>, extent: nat)
    requires StackOk(p, extent) && PagesStored(pageAt, p, extent) && Unused(p, base, extent)
    ensures PagesStored(pageAt[base := PageHeader(Some(Last(p).base), Limit(base, extent), TopOf(frames))],
                        p + [Page(base, frames)], extent)
  {
    forall i | 0 <= i < |p| ensures p[i].base != base { assert Apart(p[i].base, base, extent); }
    var q := p + [Page(base, frames)];
    var now := pageAt[base := PageHeader(Some(Last(p).base), Limit(base, extent), TopOf(frames))];
    forall i | 0 <= i < |q| ensures PageStored(now, q, i, extent) {
      if i < |p| { assert PageStored(pageAt, p, i, extent); }
    }
  }

  lemma DroppedStored(pageAt: map<nat, PageHeader>, header: PageHeader, p: Pages, extent: nat)
    requires StackOk(p, extent) && PagesStored(pageAt, p, extent)
    ensures PagesStored(pageAt[Last(p).base := header] - {Last(p).base}, ButLast(p), extent)
  {
    BasesDiffer(p, extent);
    var q := ButLast(p);
    var now := pageAt[Last(p).base := header] - {Last(p).base};
    forall i | 0 <= i < |q| ensures PageStored(now, q, i, extent) {
      assert PageStored(pageAt, p, i, extent);
    }
  }

  lemma PushedStored(frameAt: map<nat, FrameHeader>, fs: seq<Frame>, f: Frame)
    requires Distinct(fs + [f]) && FramesStored(frameAt, fs, |fs|)
    ensures FramesStored(frameAt[f.addr := FrameHeader(f.size, None)], fs + [f], |fs|)
  {
    var all := fs + [f];
    LastDiffers(all);
    var now, n := frameAt[f.addr := FrameHeader(f.size, None)], |fs|;
    forall j | 0 <= j < |all| ensures FrameStored(now, all, j, n) {
      if j < |fs| { assert FrameStored(frameAt, fs, j, |fs|) && all[j] == fs[j]; }
    }
  }

  lemma LinkedStored(frameAt: map<nat, FrameHeader>, fs: seq<Frame>, header: FrameHeader)
    requires fs != [] && Distinct(fs) && FramesStored(frameAt, fs, |fs| - 1)
    requires header == FrameHeader(Last(fs).size, AddrBelow(fs, |fs| - 1))
    ensures FramesStored(frameAt[Last(fs).addr := header], fs, |fs|)
  {
    LastDiffers(fs);
    var now, n := frameAt[Last(fs).addr := header], |fs|;
    forall j | 0 <= j < |fs| ensures FrameStored(now, fs, j, n) {
      assert FrameStored(frameAt, fs, j, |fs| - 1);
    }
  }

  lemma LastDiffers(fs: seq<Frame>)
    requires fs != [] && Distinct(fs)
    ensures forall j :: 0 <= j < |fs| - 1 ==> fs[j].addr != Last(fs).addr
  {
  }

  lemma PoppedStored(frameAt: map<nat, FrameHeader>, fs: seq<Frame>)
    requires fs != [] && Distinct(fs) && FramesStored(frameAt, fs, |fs|)
    ensures FramesStored(frameAt - {Last(fs).addr}, ButLast(fs), |fs| - 1)
  {
    LastDiffers(fs);
    var q := ButLast(fs);
    var now, n := frameAt - {Last(fs).addr}, |q|;
    forall j | 0 <= j < |q| ensures FrameStored(now, q, j, n) {
      assert FrameStored(frameAt, fs, j, |fs|) && q[j] == fs[j];
    }
  }

  /** The frame below the top one is on the same page, or is the last one on the page before and so not on the top page. */
  lemma BelowTop(p: Pages, extent: nat) returns (below: Option<nat>)
    requires StackOk(p, extent) && Last(p).frames != []
    ensures Flat(p) != [] && below == AddrBelow(Flat(p), |Flat(p)| - 1)
    ensures below == None <==> |p| == 1 && ButLast(Last(p).frames) == []
    ensures below != None ==> (ButLast(Last(p).frames) != [] <==> OnPage(Last(p).base, below.value, extent))
    ensures ButLast(Last(p).frames) != [] ==> below == TopOf(ButLast(Last(p).frames))
    ensures below != None && ButLast(Last(p).frames) == [] ==> |p| > 1 && OnPage(p[|p| - 2].base, below.value, extent)
  {
    var n := |p| - 1;
    var frames := ButLast(Last(p).frames);
    assert Flat(p) == Flat(ButLast(p)) + Last(p).frames;
    below := AddrBelow(Flat(p), |Flat(p)| - 1);
    if frames != [] {
      FrameInside(p[n], extent, |frames| - 1);
    } else if n > 0 {
      FlatLast(ButLast(p));
      FrameInside(p[n - 1], extent, |p[n - 1].frames| - 1);
      assert Apart(p[n - 1].base, p[n].base, extent);
    } else {
      assert Flat(ButLast(p)) == [];
    }
  }

  predicate OnPage(base: nat, frame: nat, extent: nat) { DataOf(base) <= frame < Limit(base, extent) }

  lemma PoppedBottom(p: Pages)
    requires p != [] && Last(p).frames != []
    ensures Popped(p) != [] && Popped(p)[0].base == p[0].base
  {
  }

  class Stack {
    const extent: nat
    var pageAt: map<nat, PageHeader>
    var frameAt: map<nat, FrameHeader>
    var topPage: nat
    var topFrame: Option<nat>
    ghost var pages: Pages
    ghost var pending: bool             // the last frame is allocated, but not pushed yet

    /** The headers in memory are those of the pages and frames. */
    ghost predicate Valid()
      reads this
    {
      && StackOk(pages, extent)
      && topPage == Last(pages).base
      && PagesStored(pageAt, pages, extent)
      && (pending ==> Flat(pages) != [])
      && FramesStored(frameAt, Flat(pages), Pushed())
      && topFrame == AddrBelow(Flat(pages), Pushed())
    }

    ghost function Pushed(): (n: nat)
      reads this
      ensures n <= |Flat(pages)|
    {
      if pending && Flat(pages) != [] then |Flat(pages)| - 1 else |Flat(pages)|
    }

    constructor (extent: nat, base: nat)
      ensures Valid() && !pending && pages == [Page(base, [])] && this.extent == extent
    {
      this.extent := extent;
      pageAt := map[base := PageHeader(None, Limit(base, extent), None)];
      frameAt := map[];
      topPage := base;
      topFrame := None;
      pages := [Page(base, [])];
      pending := false;
    }

    method NewPage(base: nat) returns (data: nat)
      modifies this`pageAt, this`topPage
      ensures topPage == base && data == DataOf(base)
      ensures pageAt == old(pageAt)[base := PageHeader(Some(old(topPage)), Limit(base, extent), None)]
    {
      pageAt := pageAt[base := PageHeader(Some(topPage), Limit(base, extent), None)];
      topPage := base;
      data := DataOf(base);
    }

    method DropPage()
      requires topPage in pageAt && pageAt[topPage].prev != None
      modifies this`pageAt, this`topPage
      ensures Some(topPage) == old(pageAt[topPage].prev) && pageAt == old(pageAt) - {old(topPage)}
    {
      var current := pageAt[topPage].prev.value;
      pageAt := pageAt - {topPage};
      topPage := current;
    }

    /** New frame on the top page or on a new one, which the allocator puts at base; too large a frame is refused. */
    method AllocFrame(size: nat, base: nat) returns (r: Option<nat>)
      requires Valid() && !pending && Unused(pages, base, extent)
      requires size > FRAME_BASE
      modifies this
      ensures Valid() && topFrame == old(topFrame)
      ensures extent < FRAME_HEADER + size ==> r == None && !pending && pages == old(pages)
      ensures FRAME_HEADER + size <= extent ==>
        pending && pages == Allocated(old(pages), FRAME_HEADER + size, extent, base) && r == Some(Last(Last(pages).frames).addr)
    {
      hide PagesStored, FramesStored, StackOk, Flat, Allocated, Unused;
      var total := FRAME_HEADER + size;
      if extent < total { return None; }
      TopHeader();
      ghost var f := AllocatedInMemory(total, base);
      var at: nat;
      match pageAt[topPage].top {
        case None =>
          at := DataOf(topPage);
        case Some(top) =>
          at := top + frameAt[top].size;
          if at + total >= pageAt[topPage].limit {
            at := NewPage(base);
          }
      }
      assert f == Frame(at, total);
      frameAt := frameAt[at := FrameHeader(total, None)];
      pageAt := pageAt[topPage := pageAt[topPage].(top := Some(at))];
      pages := Allocated(pages, total, extent, base);
      pending := true;
      r := Some(at);
      assert Full(Last(old(pages)), total, extent) ==>
        pageAt == old(pageAt)[base := PageHeader(Some(old(topPage)), Limit(base, extent), Some(at))];
    }

    /** The maps with the new frame in them. */
    lemma AllocatedInMemory(total: nat, base: nat) returns (f: Frame)
      requires Valid() && !pending && Unused(pages, base, extent) && FRAME_HEADER + FRAME_BASE < total <= extent
      ensures topPage in pageAt && pages != []
      ensures var now := Allocated(pages, total, extent, base);
              && StackOk(now, extent) && Last(now).frames != [] && f == Last(Last(now).frames)
              && Last(now).base == (if Full(Last(pages), total, extent) then base else topPage)
              && f == Frame(if Full(Last(pages), total, extent) then DataOf(base) else NextAddr(Last(pages)), total)
              && FramesStored(frameAt[f.addr := FrameHeader(total, None)], Flat(pages) + [f], |Flat(pages)|)
              && Flat(now) == Flat(pages) + [f]
              && (if Full(Last(pages), total, extent) then
                    PagesStored(pageAt[base := PageHeader(Some(topPage), Limit(base, extent), Some(f.addr))], now, extent)
                  else PagesStored(pageAt[topPage := pageAt[topPage].(top := Some(f.addr))], now, extent))
    {
      hide PagesStored, FramesStored, StackOk, Flat, Unused, Distinct;
      TopHeader();
      AllocatedKeepsOk(pages, total, extent, base);
      AllocatedPushes(pages, total, extent, base);
      var now := Allocated(pages, total, extent, base);
      FlatDistinct(now, now, extent);
      f := Last(Last(now).frames);
      PushedStored(frameAt, Flat(pages), f);
      if Full(Last(pages), total, extent) {
        NewStored(pageAt, pages, base, [f], extent);
      } else {
        TopStored(pageAt, pages, Last(pages).frames + [f], extent, pageAt[topPage].(top := Some(f.addr)));
      }
    }

    /** What the top page's header says. */
    lemma TopHeader()
      requires Valid()
      ensures pages != [] && pages[|pages| - 1].base == topPage && topPage in pageAt
      ensures HeaderOf(pages, |pages| - 1, extent) == pageAt[topPage]
      ensures pageAt[topPage].limit == Limit(topPage, extent)
      ensures pageAt[topPage].top == TopOf(Last(pages).frames)
      ensures pageAt[topPage].prev == if |pages| == 1 then None else Some(pages[|pages| - 2].base)
      ensures Last(pages).frames != [] ==> var f := Last(Last(pages).frames); f.addr in frameAt && frameAt[f.addr].size == f.size
      ensures (Flat(pages) == [] <==> Last(pages).frames == []) && (Flat(pages) == [] ==> |pages| == 1)
      ensures Flat(pages) != [] ==> Last(Flat(pages)) == Last(Last(pages).frames)
    {
      FlatEmpty(pages, extent);
      assert PageStored(pageAt, pages, |pages| - 1, extent);
      if Last(pages).frames != [] {
        FlatLast(pages);
        assert FrameStored(frameAt, Flat(pages), |Flat(pages)| - 1, Pushed());
      }
    }

    /** Pushes the frame allocated last. */
    method PushFrame() returns (top: Option<nat>)
      requires Valid() && pending
      modifies this
      ensures Valid() && !pending && pages == old(pages)
      ensures topFrame == top == TopOf(Last(pages).frames) && top != None
    {
      hide PagesStored, FramesStored, StackOk, Flat, Distinct;
      FlatDistinct(pages, pages, extent);
      TopHeader();
      var current := topFrame;
      var new_top := pageAt[topPage].top.value;
      LinkedStored(frameAt, Flat(pages), frameAt[new_top].(prev := current));
      frameAt := frameAt[new_top := frameAt[new_top].(prev := current)];
      topFrame := Some(new_top);
      pending := false;
      top := topFrame;
    }

    /** The frame lies on the page that starts at base, by its address alone. */
    predicate ContainsFrame(base: nat, frame: nat)
      requires base in pageAt
      reads this
    {
      DataOf(base) <= frame < pageAt[base].limit
    }

    /** Pops the top frame, and drops its page when the frame below is on another one. */
    method PopFrame() returns (r: Option<nat>)
      requires Valid() && !pending
      modifies this
      ensures Valid() && !pending && r == topFrame
      ensures old(topFrame) == None ==> r == None && pages == old(pages)
      ensures old(topFrame) != None ==> old(pages) != [] && Last(old(pages)).frames != [] && pages == Popped(old(pages))
    {
      hide PagesStored, FramesStored, StackOk, Flat, Distinct;
      TopHeader();
      if topFrame == None { return None; }
      assert Flat(pages) != [];
      ghost var below := BelowTop(pages, extent);
      var frame := topFrame.value;
      TopFrameStored();
      var current := frameAt[frame].prev;
      PoppedInMemory();
      PoppedPages(pageAt[topPage].(top := current));
      if |pages| > 1 { SecondPage(); }
      frameAt := frameAt - {frame};
      topFrame := current;
      pageAt := pageAt[topPage := pageAt[topPage].(top := current)];
      if current != None {
        if !ContainsFrame(topPage, current.value) {
          DropPage();
          assert ContainsFrame(topPage, current.value);
        }
      }
      pages := Popped(pages);
      r := current;
    }

    lemma SecondPage()
      requires Valid() && |pages| > 1
      ensures var base := pages[|pages| - 2].base;
              base in pageAt && base != topPage && pageAt[base].limit == Limit(base, extent)
      ensures topPage in pageAt && pageAt[topPage].prev == Some(pages[|pages| - 2].base)
    {
      BasesDiffer(pages, extent);
      assert PageStored(pageAt, pages, |pages| - 2, extent) && PageStored(pageAt, pages, |pages| - 1, extent);
    }

    lemma TopFrameStored()
      requires Valid() && !pending && Flat(pages) != []
      ensures topFrame == Some(Last(Flat(pages)).addr) && topFrame.value in frameAt
      ensures frameAt[topFrame.value].prev == AddrBelow(Flat(pages), |Flat(pages)| - 1)
    {
      assert FrameStored(frameAt, Flat(pages), |Flat(pages)| - 1, Pushed());
    }

    /** The maps after a pop hold what is left. */
    lemma PoppedInMemory()
      requires Valid() && !pending && Flat(pages) != [] && Last(pages).frames != []
      ensures StackOk(Popped(pages), extent) && Flat(Popped(pages)) == ButLast(Flat(pages))
      ensures FramesStored(frameAt - {Last(Flat(pages)).addr}, ButLast(Flat(pages)), |Flat(pages)| - 1)
    {
      hide PagesStored, FramesStored, Distinct;
      PoppedKeepsOk(pages, extent);
      PoppedPops(pages);
      FlatDistinct(pages, pages, extent);
      PoppedStored(frameAt, Flat(pages));
    }

    lemma PoppedPages(header: PageHeader)
      requires Valid() && !pending && Last(pages).frames != []
      ensures topPage in pageAt
      ensures var below := ButLast(Last(pages).frames);
              && PagesStored(pageAt[topPage := pageAt[topPage].(top := TopOf(below))], ButLast(pages) + [Page(topPage, below)], extent)
              && PagesStored(pageAt[topPage := header] - {topPage}, ButLast(pages), extent)
    {
      hide PagesStored, FramesStored, StackOk, Flat, Distinct;
      TopHeader();
      TopStored(pageAt, pages, ButLast(Last(pages).frames), extent, pageAt[topPage].(top := TopOf(ButLast(Last(pages).frames))));
      DroppedStored(pageAt, header, pages, extent);
    }

    /** Popping everything leaves the first page, empty. */
    method PopAll()
      requires Valid() && !pending && pages != []
      modifies this
      ensures Valid() && pages == [Page(old(pages)[0].base, [])] && topFrame == None
    {
      hide Valid, Popped;
      ghost var first := pages[0].base;
      var r := Pop(first);
      while r != None
        invariant Valid() && !pending && pages != [] && pages[0].base == first
        invariant r == None ==> topFrame == None
        decreases |Flat(pages)|, if r == None then 0 else 1
      {
        r := Pop(first);
      }
      Emptied();
    }

    method Pop(ghost first: nat) returns (r: Option<nat>)
      requires Valid() && !pending && pages != [] && pages[0].base == first
      modifies this
      ensures Valid() && !pending && pages != [] && pages[0].base == first
      ensures r == topFrame
      ensures |Flat(pages)| < |Flat(old(pages))| || (r == None && |Flat(pages)| == |Flat(old(pages))|)
    {
      hide Valid, Flat;
      ghost var was := pages;
      r := PopFrame();
      if Last(was).frames != [] {
        PoppedPops(was);
        PoppedBottom(was);
      }
    }

    lemma Emptied()
      requires Valid() && !pending && topFrame == None
      ensures |pages| == 1 && pages[0].frames == []
    {
      FlatEmpty(pages, extent);
    }
  }
}
