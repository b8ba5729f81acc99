// Channels of the virtual machine: a bounded ring buffer plus two queues of waiting requests
// (src/vm/channel.cpp). The functions of this module describe one locked section of `send_data`,
// `receive_data` and `cancel_request` on values; the class `Channel` is the code that works in place.
module Channels {

  datatype Option<+T> = None | Some(value: T)

  /** A waiting request. `data` is the word a sender offers; a receiver's `data` is not read. */
  datatype Request = Request(tid: nat, data: int)

  /** What a channel holds: its buffer capacity (0 when it has none), the buffered words in order and both queues. */
  datatype Chan = Chan(cap: nat, buf: seq<int>, senders: seq<Request>, receivers: seq<Request>)

  /** How a call ended. `NotPending` and `Queued` return false to the caller, the others return true.
      A match takes the word `sent` from the sender and hands the word `got` to the receiver; with a
      buffer in between these are different words. */
  datatype Outcome =
    | NotPending                      // the caller's token was already spent
    | Queued                          // the request waits in the channel
    | Buffered(value: int)            // the buffer alone served the call
    | Matched(peer: nat, sent: int, got: int)  // a waiting thread was matched; its callback has to run

  datatype Effect = Effect(chan: Chan, pend: set<nat>, outcome: Outcome)

  /** How many requests at the front of a queue have a spent token. */
  function DeadCount(q: seq<Request>, pend: set<nat>): (k: nat)
    ensures k <= |q|
    ensures k < |q| ==> q[k].tid in pend
    ensures forall i :: 0 <= i < k ==> q[i].tid !in pend
  {
    if q == [] || q[0].tid in pend then 0 else 1 + DeadCount(q[1..], pend)
  }

  /** The queue from its first live request on. */
  function DropDead(q: seq<Request>, pend: set<nat>): seq<Request> {
    q[DeadCount(q, pend)..]
  }

  /** The index of the first request of a thread, or the length of the queue. */
  function FirstOf(q: seq<Request>, tid: nat): (i: nat)
    ensures i <= |q|
    ensures i < |q| ==> q[i].tid == tid
    ensures forall j :: 0 <= j < i ==> q[j].tid != tid
  {
    if q == [] || q[0].tid == tid then 0 else 1 + FirstOf(q[1..], tid)
  }

  function EraseFirst(q: seq<Request>, tid: nat): seq<Request> {
    var i := FirstOf(q, tid);
    if i == |q| then q else q[..i] + q[i + 1..]
  }

  predicate Has(q: seq<Request>, tid: nat) {
    exists i :: 0 <= i < |q| && q[i].tid == tid
  }

  predicate Waits(c: Chan, tid: nat) {
    Has(c.senders, tid) || Has(c.receivers, tid)
  }

  function SendEffect(c: Chan, pend: set<nat>, req: Request): Effect {
    if req.tid !in pend then Effect(c, pend, NotPending)
    else
      var live := DropDead(c.receivers, pend);
      if live != [] then
        Effect(c.(receivers := live[1..]), pend - {req.tid} - {live[0].tid}, Matched(live[0].tid, req.data, req.data))
      else if |c.buf| < c.cap then
        Effect(c.(receivers := [], buf := c.buf + [req.data]), pend - {req.tid}, Buffered(req.data))
      else
        Effect(c.(receivers := [], senders := c.senders + [req]), pend, Queued)
  }

  function ReceiveEffect(c: Chan, pend: set<nat>, req: Request): Effect {
    if req.tid !in pend then Effect(c, pend, NotPending)
    else
      var live := DropDead(c.senders, pend);
      if live != [] then
        var pend' := pend - {req.tid} - {live[0].tid};
        if c.buf != [] then
          Effect(c.(senders := live[1..], buf := c.buf[1..] + [live[0].data]), pend', Matched(live[0].tid, live[0].data, c.buf[0]))
        else
          Effect(c.(senders := live[1..]), pend', Matched(live[0].tid, live[0].data, live[0].data))
      else if c.buf != [] then
        Effect(c.(senders := [], buf := c.buf[1..]), pend - {req.tid}, Buffered(c.buf[0]))
      else
        Effect(c.(senders := [], receivers := c.receivers + [req]), pend, Queued)
  }

  function CancelEffect(c: Chan, tid: nat): Chan {
    if Has(c.receivers, tid) then c.(receivers := EraseFirst(c.receivers, tid))
    else c.(senders := EraseFirst(c.senders, tid))
  }

  // ---- the invariant every call keeps ----

  predicate OnePerThread(q: seq<Request>) {
    forall i, j :: 0 <= i < j < |q| ==> q[i].tid != q[j].tid
  }

  /** Waiting receivers mean an empty buffer and no waiting sender; waiting senders mean a full buffer. */
  ghost predicate Settled(c: Chan) {
    && |c.buf| <= c.cap
    && (c.receivers != [] ==> c.buf == [] && c.senders == [])
    && (c.senders != [] ==> |c.buf| == c.cap)
    && OnePerThread(c.senders)
    && OnePerThread(c.receivers)
  }

  lemma SendKeepsSettled(c: Chan, pend: set<nat>, req: Request)
    requires Settled(c) && !Waits(c, req.tid)
    ensures Settled(SendEffect(c, pend, req).chan)
  {
    DropWaiters(c.receivers, pend, req.tid);
    AppendWaiters(c.senders, req, req.tid);
  }

  lemma ReceiveKeepsSettled(c: Chan, pend: set<nat>, req: Request)
    requires Settled(c) && !Waits(c, req.tid)
    ensures Settled(ReceiveEffect(c, pend, req).chan)
  {
    DropWaiters(c.senders, pend, req.tid);
    AppendWaiters(c.receivers, req, req.tid);
  }

  lemma CancelKeepsSettled(c: Chan, tid: nat)
    requires Settled(c)
    ensures Settled(CancelEffect(c, tid))
  {
    EraseWaiters(c.receivers, tid, tid);
    EraseWaiters(c.senders, tid, tid);
  }

  // ---- who waits after a call ----

  lemma AppendWaiters(q: seq<Request>, req: Request, t: nat)
    ensures Has(q + [req], t) <==> Has(q, t) || t == req.tid
    ensures OnePerThread(q) && !Has(q, req.tid) ==> OnePerThread(q + [req])
  {
    var r := q + [req];
    assert r[|q|] == req;
    assert forall i :: 0 <= i < |q| ==> r[i] == q[i];
  }

  lemma SuffixWaiters(q: seq<Request>, k: nat, t: nat)
    requires k <= |q| && OnePerThread(q)
    ensures OnePerThread(q[k..])
    ensures Has(q[k..], t) <==> exists i :: k <= i < |q| && q[i].tid == t
  {
    var r := q[k..];
    assert forall i :: 0 <= i < |r| ==> r[i] == q[i + k];
    if i :| k <= i < |q| && q[i].tid == t { assert r[i - k].tid == t; }
  }

  /** Dropping the spent front keeps every live waiter, and taking the head removes just its thread. */
  lemma DropWaiters(q: seq<Request>, pend: set<nat>, t: nat)
    requires OnePerThread(q)
    ensures var live := DropDead(q, pend);
            && OnePerThread(live)
            && (Has(live, t) ==> Has(q, t))
            && (Has(q, t) && t in pend ==> Has(live, t))
            && (live != [] ==> live[0].tid in pend && Has(q, live[0].tid) && OnePerThread(live[1..])
                               && (Has(live[1..], t) <==> Has(live, t) && t != live[0].tid))
  {
    var k := DeadCount(q, pend);
    SuffixWaiters(q, k, t);
    if k < |q| {
      SuffixWaiters(q, k + 1, t);
      assert q[k..][0] == q[k] && q[k..][1..] == q[k + 1..];
    }
  }

  lemma EraseWaiters(q: seq<Request>, tid: nat, t: nat)
    requires OnePerThread(q)
    ensures OnePerThread(EraseFirst(q, tid))
    ensures Has(EraseFirst(q, tid), t) <==> Has(q, t) && t != tid
  {
    var i, r := FirstOf(q, tid), EraseFirst(q, tid);
    assert i < |q| ==> forall k :: 0 <= k < |r| ==> r[k] == q[if k < i then k else k + 1];
    if Has(q, t) && t != tid && i < |q| {
      var k :| 0 <= k < |q| && q[k].tid == t;
      assert r[if k < i then k else k - 1].tid == t;
    }
  }

  /** After a send exactly the sender (when queued) is added, and the matched receiver is gone. */
  lemma SendWaiters(c: Chan, pend: set<nat>, req: Request, t: nat)
    requires Settled(c) && !Waits(c, req.tid)
    ensures var e := SendEffect(c, pend, req);
            && (Has(e.chan.senders, t) <==> Has(c.senders, t) || (t == req.tid && e.outcome == Queued))
            && (Has(e.chan.receivers, t) ==> Has(c.receivers, t))
            && (Has(c.receivers, t) && t in e.pend ==> Has(e.chan.receivers, t))
            && (e.outcome.Matched? ==> Has(c.receivers, e.outcome.peer) && e.outcome.peer in pend
                                       && e.outcome.peer != req.tid && !Waits(e.chan, e.outcome.peer))
  {
    AppendWaiters(c.senders, req, t);
    DropWaiters(c.receivers, pend, t);
    var live := DropDead(c.receivers, pend);
    if req.tid in pend && live != [] { DropWaiters(c.receivers, pend, live[0].tid); }
  }

  /** After a receive exactly the receiver (when queued) is added, and the matched sender is gone. */
  lemma ReceiveWaiters(c: Chan, pend: set<nat>, req: Request, t: nat)
    requires Settled(c) && !Waits(c, req.tid)
    ensures var e := ReceiveEffect(c, pend, req);
            && (Has(e.chan.receivers, t) <==> Has(c.receivers, t) || (t == req.tid && e.outcome == Queued))
            && (Has(e.chan.senders, t) ==> Has(c.senders, t))
            && (Has(c.senders, t) && t in e.pend ==> Has(e.chan.senders, t))
            && (e.outcome.Matched? ==> Has(c.senders, e.outcome.peer) && e.outcome.peer in pend
                                       && e.outcome.peer != req.tid && !Waits(e.chan, e.outcome.peer))
  {
    AppendWaiters(c.receivers, req, t);
    DropWaiters(c.senders, pend, t);
    var live := DropDead(c.senders, pend);
    if req.tid in pend && live != [] { DropWaiters(c.senders, pend, live[0].tid); }
  }

  lemma CancelWaiters(c: Chan, tid: nat, t: nat)
    requires Settled(c)
    ensures Has(CancelEffect(c, tid).senders, t) <==> Has(c.senders, t) && t != tid
    ensures Has(CancelEffect(c, tid).receivers, t) <==> Has(c.receivers, t) && t != tid
  {
    EraseWaiters(c.receivers, tid, t);
    EraseWaiters(c.senders, tid, t);
  }

  // ---- refinement of a first-in first-out queue ----

  /** The waiting requests whose token is still live, in order. */
  ghost function Live(q: seq<Request>, pend: set<nat>): seq<Request> {
    if q == [] then []
    else (if q[0].tid in pend then [q[0]] else []) + Live(q[1..], pend)
  }

  ghost function Words(q: seq<Request>): (w: seq<int>)
    ensures |w| == |q| && forall i :: 0 <= i < |q| ==> w[i] == q[i].data
  {
    seq(|q|, i requires 0 <= i < |q| => q[i].data)
  }

  /** The abstract value of a channel: the buffered words, then the words of the live waiting senders. */
  ghost function Fifo(c: Chan, pend: set<nat>): seq<int> {
    c.buf + Words(Live(c.senders, pend))
  }

  lemma LiveCons(r: Request, rest: seq<Request>, pend: set<nat>)
    ensures Live([r] + rest, pend) == (if r.tid in pend then [r] else []) + Live(rest, pend)
  {
    assert ([r] + rest)[1..] == rest;
  }

  lemma {:induction false} LiveAppend(p: seq<Request>, q: seq<Request>, pend: set<nat>)
    ensures Live(p + q, pend) == Live(p, pend) + Live(q, pend)
  {
    if p == [] {
      assert p + q == q;
    } else {
      var r, rest := p[0], p[1..];
      assert p == [r] + rest && p + q == [r] + (rest + q);
      hide Live;
      LiveAppend(rest, q, pend);
      LiveCons(r, rest, pend);
      LiveCons(r, rest + q, pend);
    }
  }

  /** Only the tokens of threads that wait in the queue matter. */
  lemma {:induction false} LiveSame(q: seq<Request>, p1: set<nat>, p2: set<nat>)
    requires forall i :: 0 <= i < |q| ==> (q[i].tid in p1 <==> q[i].tid in p2)
    ensures Live(q, p1) == Live(q, p2)
  {
    if q != [] { LiveSame(q[1..], p1, p2); }
  }

  lemma {:induction false} LiveDrop(q: seq<Request>, pend: set<nat>)
    ensures Live(q, pend) == Live(DropDead(q, pend), pend)
    ensures DropDead(q, pend) == [] <==> Live(q, pend) == []
  {
    if q != [] && q[0].tid !in pend { LiveDrop(q[1..], pend); }
  }

  lemma FifoAppended(c: Chan, pend: set<nat>, req: Request)
    requires req.tid in pend
    ensures Fifo(c.(receivers := [], senders := c.senders + [req]), pend) == Fifo(c, pend) + [req.data]
  {
    LiveAppended(c.senders, req, pend);
    assert Words(Live(c.senders, pend) + [req]) == Words(Live(c.senders, pend)) + [req.data];
  }

  /** Send appends its word at the end; a direct hand-over happens only when the queue was empty. */
  lemma SendRefinesFifo(c: Chan, pend: set<nat>, req: Request)
    requires Settled(c) && !Waits(c, req.tid)
    ensures var e := SendEffect(c, pend, req);
            match e.outcome
            case NotPending => req.tid !in pend && e.chan == c && e.pend == pend
            case Queued => Fifo(e.chan, e.pend) == Fifo(c, pend) + [req.data] && req.tid in e.pend
            case Buffered(v) => Fifo(e.chan, e.pend) == Fifo(c, pend) + [v] && v == req.data && req.tid !in e.pend
            case Matched(p, v, w) => (Fifo(c, pend) == [] == Fifo(e.chan, e.pend) && v == w == req.data
                                      && e.pend == pend - {req.tid, p})
  {
    var e := SendEffect(c, pend, req);
    match e.outcome {
      case Queued => FifoAppended(c, pend, req);
      case _ => assert Live([], e.pend) == [];
    }
  }

  /** Receive takes the head of the queue, and waits only when the queue is empty. */
  lemma ReceiveRefinesFifo(c: Chan, pend: set<nat>, req: Request)
    requires Settled(c) && !Waits(c, req.tid)
    ensures var e := ReceiveEffect(c, pend, req);
            match e.outcome
            case NotPending => req.tid !in pend && e.chan == c && e.pend == pend
            case Queued => Fifo(c, pend) == [] == Fifo(e.chan, e.pend) && req.tid in e.pend
            case Buffered(v) => Fifo(c, pend) == [v] + Fifo(e.chan, e.pend) && req.tid !in e.pend
            case Matched(p, w, v) => Fifo(c, pend) == [v] + Fifo(e.chan, e.pend) && e.pend == pend - {req.tid, p}
  {
    var e := ReceiveEffect(c, pend, req);
    LiveDrop(c.senders, pend);
    if e.outcome.Matched? {
      TakesFirstLive(c.senders, pend, req.tid);
      hide Live, Settled, DropDead, Has;
      WordsCons(DropDead(c.senders, pend)[0], Live(e.chan.senders, e.pend));
    } else {
      hide Words, Settled;
      assert Live([], e.pend) == [];
    }
  }

  lemma WordsCons(r: Request, rest: seq<Request>)
    ensures Words([r] + rest) == [r.data] + Words(rest)
  {
  }

  /** Cancelling a thread whose token is spent takes nothing out of the queue. */
  lemma CancelRefinesFifo(c: Chan, pend: set<nat>, tid: nat)
    requires tid !in pend
    ensures Fifo(CancelEffect(c, tid), pend) == Fifo(c, pend)
  {
    EraseSpent(c.senders, pend, tid);
  }

  lemma EraseSpent(q: seq<Request>, pend: set<nat>, tid: nat)
    requires tid !in pend
    ensures Live(EraseFirst(q, tid), pend) == Live(q, pend)
  {
    var i := FirstOf(q, tid);
    if i < |q| {
      var p, r := q[..i], q[i + 1..];
      assert q == p + ([q[i]] + r);
      LiveAppend(p, r, pend);
      LiveAppend(p, [q[i]] + r, pend);
      LiveCons(q[i], r, pend);
    }
  }

  // ---- in which order waiting requests are served ----

  lemma LiveAppended(q: seq<Request>, req: Request, pend: set<nat>)
    requires req.tid in pend
    ensures Live(q + [req], pend) == Live(q, pend) + [req]
  {
    LiveAppend(q, [req], pend);
    assert [req][1..] == [];
  }

  /** Taking the first live request and spending the tokens of the pair leaves the other live ones as they are. */
  lemma TakesFirstLive(q: seq<Request>, pend: set<nat>, tid: nat)
    requires OnePerThread(q) && !Has(q, tid) && DropDead(q, pend) != []
    ensures var live := DropDead(q, pend);
            Live(q, pend) == [live[0]] + Live(live[1..], pend - {tid} - {live[0].tid})
  {
    var live := DropDead(q, pend);
    LiveDrop(q, pend);
    LiveSame(live[1..], pend, pend - {tid} - {live[0].tid});
  }

  lemma NoneLive(q: seq<Request>, pend: set<nat>, tid: nat)
    requires !Has(q, tid)
    ensures Live(q, pend - {tid}) == Live(q, pend)
  {
    LiveSame(q, pend - {tid}, pend);
  }

  /** A send serves the receiver that has waited longest of those still live; a sender that has to wait goes behind all
      others, and the order of those that stay does not change. */
  lemma SendServesInOrder(c: Chan, pend: set<nat>, req: Request)
    requires Settled(c) && !Waits(c, req.tid)
    ensures var e := SendEffect(c, pend, req);
            var senders, receivers := Live(e.chan.senders, e.pend), Live(e.chan.receivers, e.pend);
            match e.outcome
            case Matched(p, v, w) => (exists r: Request :: r.tid == p && Live(c.receivers, pend) == [r] + receivers)
                                     && senders == Live(c.senders, pend)
            case Queued => senders == Live(c.senders, pend) + [req] && receivers == Live(c.receivers, pend) == []
            case _ => senders == Live(c.senders, pend) && receivers == Live(c.receivers, pend)
  {
    var e := SendEffect(c, pend, req);
    LiveDrop(c.receivers, pend);
    NoneLive(c.senders, pend, req.tid);
    match e.outcome {
      case Matched(p, v, w) => TakesFirstLive(c.receivers, pend, req.tid);
      case Queued => LiveAppended(c.senders, req, pend);
      case _ =>
    }
  }

  /** The same for a receive. */
  lemma ReceiveServesInOrder(c: Chan, pend: set<nat>, req: Request)
    requires Settled(c) && !Waits(c, req.tid)
    ensures var e := ReceiveEffect(c, pend, req);
            var senders, receivers := Live(e.chan.senders, e.pend), Live(e.chan.receivers, e.pend);
            match e.outcome
            case Matched(p, v, w) => Live(c.senders, pend) == [Request(p, v)] + senders
                                     && receivers == Live(c.receivers, pend)
            case Queued => receivers == Live(c.receivers, pend) + [req] && senders == Live(c.senders, pend) == []
            case _ => senders == Live(c.senders, pend) && receivers == Live(c.receivers, pend)
  {
    var e := ReceiveEffect(c, pend, req);
    LiveDrop(c.senders, pend);
    NoneLive(c.receivers, pend, req.tid);
    match e.outcome {
      case Matched(p, v, w) => TakesFirstLive(c.senders, pend, req.tid);
      case Queued => LiveAppended(c.receivers, req, pend);
      case _ =>
    }
  }

  /** A cancellation leaves the order of all other threads as it is. */
  lemma CancelKeepsOrder(c: Chan, pend: set<nat>, tid: nat)
    ensures Live(CancelEffect(c, tid).senders, pend - {tid}) == Live(c.senders, pend - {tid})
    ensures Live(CancelEffect(c, tid).receivers, pend - {tid}) == Live(c.receivers, pend - {tid})
  {
    EraseSpent(c.senders, pend - {tid}, tid);
    EraseSpent(c.receivers, pend - {tid}, tid);
  }

  // ---- when a call has to wait ----

  /** A send could take place now: a live receiver waits or the buffer has room. A receive could: a live sender waits or
      a word is buffered. */
  ghost predicate CanServe(c: Chan, pend: set<nat>, send: bool) {
    if send then Live(c.receivers, pend) != [] || |c.buf| < c.cap else Live(c.senders, pend) != [] || c.buf != []
  }

  /** A call whose token is live has to wait exactly when it could not take place. */
  lemma WaitsIffNotServed(c: Chan, pend: set<nat>, req: Request)
    requires req.tid in pend
    ensures SendEffect(c, pend, req).outcome == Queued <==> !CanServe(c, pend, true)
    ensures ReceiveEffect(c, pend, req).outcome == Queued <==> !CanServe(c, pend, false)
  {
    LiveDrop(c.receivers, pend);
    LiveDrop(c.senders, pend);
  }

  // ---- the code in place ----

  lemma {:induction false} DeadCountIs(q: seq<Request>, pend: set<nat>, k: nat)
    requires k <= |q| && forall i :: 0 <= i < k ==> q[i].tid !in pend
    requires k < |q| ==> q[k].tid in pend
    ensures DropDead(q, pend) == q[k..]
  {
    var d := DeadCount(q, pend);
    assert !(d < k) && !(k < d);
  }

  lemma {:induction false} FirstOfIs(q: seq<Request>, tid: nat, k: nat)
    requires k <= |q| && forall i :: 0 <= i < k ==> q[i].tid != tid
    requires k < |q| ==> q[k].tid == tid
    ensures FirstOf(q, tid) == k && (Has(q, tid) <==> k < |q|)
  {
    var d := FirstOf(q, tid);
    assert !(d < k) && !(k < d);
  }

  /** The request tokens (`pending_request`) of all threads. */
  class Tokens {
    var pending: set<nat>
  }

  class Channel {
    const buffer: array<int>
    const tokens: Tokens
    var head: nat
    var count: nat
    var senders: seq<Request>
    var receivers: seq<Request>
    ghost var words: seq<int>  // the buffered words, oldest first

    predicate InRange(slot: int) { 0 <= slot < buffer.Length }

    function Slot(i: nat): int
      reads this
    {
      if head + i < buffer.Length then head + i else head + i - buffer.Length
    }

    ghost predicate Valid()
      reads this, buffer
    {
      && |words| == count <= buffer.Length
      && (buffer.Length > 0 ==> head < buffer.Length)
      && forall i :: 0 <= i < count ==> InRange(Slot(i)) && buffer[Slot(i)] == words[i]
    }

    ghost function State(): Chan
      reads this
    {
      Chan(buffer.Length, words, senders, receivers)
    }

    constructor (tokens: Tokens, bufferLen: nat)
      ensures Valid() && fresh(buffer) && this.tokens == tokens
      ensures State() == Chan(bufferLen, [], [], [])
    {
      buffer := new int[bufferLen];
      this.tokens := tokens;
      head, count, senders, receivers, words := 0, 0, [], [], [];
    }

    method TrySendToBuffer(req: Request) returns (done: bool)
      requires Valid() && buffer.Length > 0
      modifies this`count, this`words, buffer, tokens
      ensures Valid()
      ensures done <==> old(count) < buffer.Length
      ensures words == if done then old(words) + [req.data] else old(words)
      ensures tokens.pending == if done then old(tokens.pending) - {req.tid} else old(tokens.pending)
    {
      if count == buffer.Length { return false; }
      var next := head + count;
      if next >= buffer.Length { next := next - buffer.Length; }
      count := count + 1;
      buffer[next] := req.data;
      words := words + [req.data];
      tokens.pending := tokens.pending - {req.tid};
      return true;
    }

    method TryReceiveFromBuffer(req: Request) returns (got: Option<int>)
      requires Valid() && buffer.Length > 0
      modifies this`head, this`count, this`words, tokens
      ensures Valid()
      ensures got.Some? <==> old(count) > 0
      ensures got.Some? ==> got.value == old(words)[0] && words == old(words)[1..]
      ensures got.None? ==> words == old(words)
      ensures tokens.pending == if got.Some? then old(tokens.pending) - {req.tid} else old(tokens.pending)
    {
      if count == 0 { return None; }
      assert InRange(Slot(0));
      var v := buffer[head];
      head := head + 1;
      if head == buffer.Length { head := 0; }
      count := count - 1;
      words := words[1..];
      tokens.pending := tokens.pending - {req.tid};
      assert forall i :: 0 <= i < count ==> Slot(i) == old(Slot(i + 1));
      return Some(v);
    }

    method SendData(req: Request) returns (out: Outcome)
      requires Valid()
      modifies this, buffer, tokens
      ensures Valid()
      ensures Effect(State(), tokens.pending, out) == SendEffect(old(State()), old(tokens.pending), req)
    {
      if req.tid !in tokens.pending { return NotPending; }
      DropDeadReceivers();
      if receivers == [] {
        if buffer.Length > 0 {
          var done := TrySendToBuffer(req);
          if done { return Buffered(req.data); }
        }
        senders := senders + [req];
        return Queued;
      }
      tokens.pending := tokens.pending - {req.tid};
      tokens.pending := tokens.pending - {receivers[0].tid};
      var receiver := receivers[0];
      receivers := receivers[1..];
      return Matched(receiver.tid, req.data, req.data);
    }

    method ReceiveData(req: Request) returns (out: Outcome)
      requires Valid()
      modifies this, buffer, tokens
      ensures Valid()
      ensures Effect(State(), tokens.pending, out) == ReceiveEffect(old(State()), old(tokens.pending), req)
    {
      if req.tid !in tokens.pending { return NotPending; }
      DropDeadSenders();
      if senders == [] {
        if buffer.Length > 0 {
          var got := TryReceiveFromBuffer(req);
          if got.Some? { return Buffered(got.value); }
        }
        receivers := receivers + [req];
        return Queued;
      }
      tokens.pending := tokens.pending - {req.tid};
      tokens.pending := tokens.pending - {senders[0].tid};
      var sender := senders[0];
      senders := senders[1..];
      if buffer.Length > 0 {
        var got := TryReceiveFromBuffer(req);
        if got.Some? {
          var didSend := TrySendToBuffer(sender);
          assert didSend;  // there is always room for the sender
          return Matched(sender.tid, sender.data, got.value);
        }
      }
      return Matched(sender.tid, sender.data, sender.data);
    }

    method DropDeadReceivers()
      modifies this`receivers
      ensures receivers == DropDead(old(receivers), tokens.pending)
      ensures receivers != [] ==> receivers[0].tid in tokens.pending
    {
      ghost var k := 0;
      while receivers != [] && receivers[0].tid !in tokens.pending
        invariant k <= |old(receivers)| && receivers == old(receivers)[k..]
        invariant forall i :: 0 <= i < k ==> old(receivers)[i].tid !in tokens.pending
        decreases |receivers|
      {
        receivers := receivers[1..];
        k := k + 1;
      }
      DeadCountIs(old(receivers), tokens.pending, k);
    }

    method DropDeadSenders()
      modifies this`senders
      ensures senders == DropDead(old(senders), tokens.pending)
      ensures senders != [] ==> senders[0].tid in tokens.pending
    {
      ghost var k := 0;
      while senders != [] && senders[0].tid !in tokens.pending
        invariant k <= |old(senders)| && senders == old(senders)[k..]
        invariant forall i :: 0 <= i < k ==> old(senders)[i].tid !in tokens.pending
        decreases |senders|
      {
        senders := senders[1..];
        k := k + 1;
      }
      DeadCountIs(old(senders), tokens.pending, k);
    }

    method CancelRequest(tid: nat)
      requires Valid()
      modifies this`senders, this`receivers
      ensures Valid()
      ensures State() == CancelEffect(old(State()), tid)
    {
      var i := Find(receivers, tid);
      if i < |receivers| {
        receivers := receivers[..i] + receivers[i + 1..];
        return;
      }
      i := Find(senders, tid);
      if i < |senders| {
        senders := senders[..i] + senders[i + 1..];
      }
    }

    /** The predicate search over a request queue. */
    static method Find(q: seq<Request>, tid: nat) returns (i: nat)
      ensures i == FirstOf(q, tid) && (Has(q, tid) <==> i < |q|)
    {
      i := 0;
      while i < |q| && q[i].tid != tid
        invariant i <= |q|
        invariant forall j :: 0 <= j < i ==> q[j].tid != tid
      {
        i := i + 1;
      }
      FirstOfIs(q, tid, i);
    }
  }
}
