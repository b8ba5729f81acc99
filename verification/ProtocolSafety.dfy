// Safety of the rendezvous protocol over every run: the invariant of module `Protocol` is kept by each step.
module ProtocolSafety {
  import opened Channels
  import opened Scheduling
  import opened Protocol

  // ---- frames: what a step has to show for the threads it changes ----

  /** Outside `ch` nothing a thread sees of itself changed. */
  ghost predicate Untouched(s: State, s': State, ch: set<nat>) {
    forall u :: u in s'.threads && u !in ch ==>
      u in s.threads && s'.threads[u] == s.threads[u] && (u in s'.pend <==> u in s.pend)
  }

  lemma OwnFrom(s: State, s': State, ch: set<nat>)
    requires OwnInv(s) && Untouched(s, s', ch)
    requires s'.pend <= s'.threads.Keys
    requires s.chans.Keys <= s'.chans.Keys
    requires forall c :: c in s'.chans ==> ChanOk(s', c)
    requires forall u :: IsHeld(s.sched, u) && u !in ch ==> IsHeld(s'.sched, u)
    requires forall u :: u in s'.sched.blocked && u !in ch ==> u in s.sched.blocked
    requires forall u :: u in s'.sched.runnable && u !in ch ==> u in s.sched.runnable
    requires forall u :: u in s'.threads && u in ch ==> ThreadOk(s', u) && PlaceOk(s', u)
    ensures OwnInv(s')
  {
    forall u | u in s'.threads && u !in ch ensures ThreadOk(s', u) && PlaceOk(s', u) {
      assert ThreadOk(s, u) && PlaceOk(s, u);
    }
  }

  /** Requests of threads outside `ch` only disappear, and not while their token is live. */
  ghost predicate QueuesShrink(s: State, s': State, ch: set<nat>) {
    && s.chans.Keys <= s'.chans.Keys
    && (forall u :: u in s.threads && u !in ch ==> u in s'.threads)
    && (forall c, r :: c in s'.chans && r in s'.chans[c].senders && r.tid !in ch ==>
          c in s.chans && r in s.chans[c].senders)
    && (forall c, r :: c in s'.chans && r in s'.chans[c].receivers && r.tid !in ch ==>
          c in s.chans && r in s.chans[c].receivers)
    && (forall c, u :: c in s.chans && u in s'.pend && u !in ch && Has(s.chans[c].senders, u) ==> Has(s'.chans[c].senders, u))
    && (forall c, u :: c in s.chans && u in s'.pend && u !in ch && Has(s.chans[c].receivers, u) ==> Has(s'.chans[c].receivers, u))
  }

  /** The queue conditions for the requests of one thread. */
  ghost predicate QueuesOf(s: State, u: nat) {
    && (forall c :: c in s.chans ==> QueueOk(s, c, u))
    && (forall c, r: Request :: c in s.chans && r.tid == u ==> SenderOk(s, c, r))
    && (forall c, r: Request :: c in s.chans && r.tid == u ==> ReceiverOk(s, c, r))
    && (u in s.threads ==>
          forall m :: 0 <= m < |s.threads[u].op.chans| && s.threads[u].op.chans[m] in s.chans ==> LiveOk(s, u, m))
  }

  lemma InHas(q: seq<Request>, t: nat)
    ensures Has(q, t) <==> exists r :: r in q && r.tid == t
  {
    if Has(q, t) {
      var i :| 0 <= i < |q| && q[i].tid == t;
      assert q[i] in q;
    }
  }

  lemma WaitsShrink(s: State, s': State, ch: set<nat>, c: nat, u: nat)
    requires QueuesShrink(s, s', ch) && c in s'.chans && u !in ch && Waits(s'.chans[c], u)
    ensures c in s.chans && Waits(s.chans[c], u)
  {
    InHas(s'.chans[c].senders, u);
    InHas(s'.chans[c].receivers, u);
    if r :| r in s'.chans[c].senders && r.tid == u {
      InHas(s.chans[c].senders, u);
    } else {
      var r :| r in s'.chans[c].receivers && r.tid == u;
      InHas(s.chans[c].receivers, u);
    }
  }

  lemma QueuesFrom(s: State, s': State, ch: set<nat>)
    requires QueueInv(s) && Untouched(s, s', ch) && QueuesShrink(s, s', ch)
    requires Operands(s)
    requires forall u :: u in ch ==> QueuesOf(s', u)
    ensures QueueInv(s')
  {
    forall c, u | c in s'.chans ensures QueueOk(s', c, u) {
      if u !in ch && Waits(s'.chans[c], u) {
        WaitsShrink(s, s', ch, c, u);
        assert QueueOk(s, c, u);
      }
    }
    forall c, r | c in s'.chans ensures SenderOk(s', c, r) {
      if r.tid !in ch && r in s'.chans[c].senders { assert SenderOk(s, c, r); }
    }
    forall c, r | c in s'.chans ensures ReceiverOk(s', c, r) {
      if r.tid !in ch && r in s'.chans[c].receivers { assert ReceiverOk(s, c, r); }
    }
    forall u, m | u in s'.threads && 0 <= m < |s'.threads[u].op.chans| && s'.threads[u].op.chans[m] in s'.chans
      ensures LiveOk(s', u, m)
    {
      if u !in ch && !s.threads[u].phase.Idle? { assert LiveOk(s, u, m); }
    }
  }

  /** A callback that stays as it was still serves its peer. */
  lemma CallStays(s: State, s': State, ch: set<nat>, h: nat)
    requires h in s.threads && s.threads[h].phase.Calling? && CallOk(s, h)
    requires h in s'.threads && s'.threads[h].phase == s.threads[h].phase
    requires var p := s.threads[h].phase.cb.peer;
             && p !in s'.pend && p in s'.threads && s'.threads[p].op == s.threads[p].op
             && s'.threads[p].moved == s.threads[p].moved && Engaged(s'.threads[p].phase)
             && WellFormed(s.threads[p].op, s.chans.Keys)
             && forall c :: c in s'.chans && Waits(s'.chans[c], p) ==> c in s.chans && Waits(s.chans[c], p)
    requires s.chans.Keys <= s'.chans.Keys
    ensures CallOk(s', h)
  {
  }

  lemma CallsFrom(s: State, s': State, ch: set<nat>)
    requires CallInv(s) && Untouched(s, s', ch) && QueuesShrink(s, s', ch)
    requires Operands(s)
    requires forall t :: t in s.threads && Engaged(s.threads[t].phase) && t !in s.pend && t !in ch ==> t in s'.threads
    requires forall h :: h in ch && h in s'.threads && s'.threads[h].phase.Calling? ==> CallOk(s', h)
    requires forall h :: h in s'.threads && h !in ch && s'.threads[h].phase.Calling? && s'.threads[h].phase.cb.peer in ch ==> CallOk(s', h)
    requires forall h1, h2, p :: h1 in ch && Calls(s', h1, p) && Calls(s', h2, p) ==> h1 == h2
    requires forall t :: t in ch && t in s'.threads && Engaged(s'.threads[t].phase) && t !in s'.pend ==> exists h :: Calls(s', h, t)
    requires forall t, h :: t !in ch && h in ch && Calls(s, h, t) && t in s'.threads ==> Calls(s', h, t)
    requires forall t, h :: t !in ch && h !in ch && Calls(s, h, t) ==> h in s'.threads
    ensures CallInv(s')
  {
    forall h | h in s'.threads && s'.threads[h].phase.Calling? ensures CallOk(s', h) {
      if h !in ch && s'.threads[h].phase.cb.peer !in ch {
        var p := s.threads[h].phase.cb.peer;
        assert CallOk(s, h);
        assert p in s'.threads;
        forall c | c in s'.chans && Waits(s'.chans[c], p) ensures c in s.chans && Waits(s.chans[c], p) {
          WaitsShrink(s, s', ch, c, p);
        }
        CallStays(s, s', ch, h);
      }
    }
    forall h1, h2, p | Calls(s', h1, p) && Calls(s', h2, p) ensures h1 == h2 {
      if h1 !in ch && h2 !in ch { assert Calls(s, h1, p) && Calls(s, h2, p); }
    }
    forall t | t in s'.threads && Engaged(s'.threads[t].phase) && t !in s'.pend ensures exists h :: Calls(s', h, t) {
      if t !in ch {
        var h :| Calls(s, h, t);
        assert Calls(s', h, t);
      }
    }
  }

  // ---- steps of the scheduler ----

  lemma OpenKeeps(s: State, s': State, c: nat, cap: nat)
    requires Inv(s) && c !in s.chans
    requires s' == s.(chans := s.chans[c := Chan(cap, [], [], [])], sent := s.sent[c := []], got := s.got[c := []])
    ensures Inv(s')
  {
    forall d | d in s'.chans ensures ChanOk(s', d) {
      if d != c { assert ChanOk(s, d); }
    }
    OwnFrom(s, s', {});
    OperandsOk(s);
    OpenRest(s, s', c, cap);
  }

  lemma OpenRest(s: State, s': State, c: nat, cap: nat)
    requires Operands(s) && QueueInv(s) && CallInv(s) && c !in s.chans
    requires s' == s.(chans := s.chans[c := Chan(cap, [], [], [])], sent := s.sent[c := []], got := s.got[c := []])
    ensures QueueInv(s') && CallInv(s')
  {
    QueuesFrom(s, s', {});
    CallsFrom(s, s', {});
  }

  /** Operands of a thread inside an instruction are well formed. */
  ghost predicate Operands(s: State) {
    forall t :: t in s.threads && !s.threads[t].phase.Idle? ==> WellFormed(s.threads[t].op, s.chans.Keys)
  }

  lemma OperandsOk(s: State)
    requires OwnInv(s)
    ensures Operands(s)
  {
    forall t | t in s.threads && !s.threads[t].phase.Idle? ensures WellFormed(s.threads[t].op, s.chans.Keys) {
      assert ThreadOk(s, t);
    }
  }

  /** A step inside the scheduler that moves at most thread t keeps the invariant if t's new place fits. */
  lemma SchedOnlyKeeps(s: State, s': State, t: nat)
    requires OwnInv(s) && QueueInv(s) && CallInv(s) && s' == s.(sched := s'.sched) && t in s.threads
    requires forall u :: IsHeld(s.sched, u) && u != t ==> IsHeld(s'.sched, u)
    requires forall u :: u in s'.sched.blocked && u != t ==> u in s.sched.blocked
    requires forall u :: u in s'.sched.runnable && u != t ==> u in s.sched.runnable
    requires PlaceOk(s', t)
    ensures OwnInv(s') && QueueInv(s') && CallInv(s')
  {
    OperandsOk(s);
    SchedOnlyOwn(s, s', t);
    SchedOnlyRest(s, s');
  }

  lemma SchedOnlyOwn(s: State, s': State, t: nat)
    requires OwnInv(s) && s' == s.(sched := s'.sched) && t in s.threads
    requires forall u :: IsHeld(s.sched, u) && u != t ==> IsHeld(s'.sched, u)
    requires forall u :: u in s'.sched.blocked && u != t ==> u in s.sched.blocked
    requires forall u :: u in s'.sched.runnable && u != t ==> u in s.sched.runnable
    requires PlaceOk(s', t)
    ensures OwnInv(s')
  {
    SameChans(s, s');
    assert ThreadOk(s, t);
    assert ThreadOk(s', t);
    OwnFrom(s, s', {t});
  }

  lemma SchedOnlyRest(s: State, s': State)
    requires Operands(s) && QueueInv(s) && CallInv(s) && s' == s.(sched := s'.sched)
    ensures QueueInv(s') && CallInv(s')
  {
    QueuesFrom(s, s', {});
    CallsFrom(s, s', {});
  }

  lemma PickKeeps(s: State, s': State, w: nat)
    requires Inv(s) && MayPick(s.sched, w) && s' == s.(sched := Picked(s.sched, w))
    ensures Inv(s')
  {
    var t := s.sched.runnable[0];
    PickedKeepsOnePlace(s.sched, w);
    assert t in s.sched.runnable;
    assert PlaceOk(s, t);
    SchedOnlyKeeps(s, s', t);
  }

  lemma WaitForGcKeeps(s: State, s': State, w: nat)
    requires Inv(s) && s' == s.(sched := WaitsForGc(s.sched, w))
    ensures Inv(s')
  {
    SamePlaces(s.sched, s'.sched);
    SameChans(s, s');
    OwnFrom(s, s', {});
    OperandsOk(s);
    SchedOnlyRest(s, s');
  }

  lemma ReturnKeeps(s: State, s': State, w: nat, st: ThreadState)
    requires Inv(s) && w in s.sched.held && s.sched.held[w] in s.threads
    requires (st.Ready? && s.threads[s.sched.held[w]].phase.Idle?) || (st.BlockedInAlt? && s.threads[s.sched.held[w]].phase.Waiting?)
    requires s' == s.(sched := PutBack(s.sched, w, st).s)
    ensures Inv(s')
  {
    var t := s.sched.held[w];
    PutBackKeepsOnePlace(s.sched, w, st);
    PutBackMoves(s, s', w, st);
    hide PutBack, OwnInv, QueueInv, CallInv, PlaceOk, OnePlace;
    SchedOnlyKeeps(s, s', t);
  }

  /** The thread given back goes where its phase says; the others stay. */
  lemma PutBackMoves(s: State, s': State, w: nat, st: ThreadState)
    requires PlacesInv(s) && w in s.sched.held && s.sched.held[w] in s.threads
    requires (st.Ready? && s.threads[s.sched.held[w]].phase.Idle?) || (st.BlockedInAlt? && s.threads[s.sched.held[w]].phase.Waiting?)
    requires s' == s.(sched := PutBack(s.sched, w, st).s)
    ensures s'.sched.all == s.sched.all && PlaceOk(s', s.sched.held[w])
    ensures forall u :: IsHeld(s.sched, u) && u != s.sched.held[w] ==> IsHeld(s'.sched, u)
    ensures forall u :: u in s'.sched.blocked && u != s.sched.held[w] ==> u in s.sched.blocked
    ensures forall u :: u in s'.sched.runnable && u != s.sched.held[w] ==> u in s.sched.runnable
  {
    assert IsHeld(s.sched, s.sched.held[w]);
    PutBackKeepsOnePlace(s.sched, w, st);
  }

  ghost predicate Spawns(s: State, s': State, t: nat) {
    && t !in s.threads
    && s' == s.(threads := s.threads[t := Thread(Op(true, 0, [], []), Idle, [], [])], sched := Scheduled(s.sched, t))
  }

  lemma SpawnKeeps(s: State, s': State, t: nat)
    requires Inv(s) && Spawns(s, s', t)
    ensures Inv(s')
  {
    OperandsOk(s);
    ScheduledKeepsOnePlace(s.sched, t);
    SpawnOwn(s, s', t);
    SpawnQueues(s, s', t);
    SpawnCalls(s, s', t);
  }

  lemma SpawnOwn(s: State, s': State, t: nat)
    requires OwnInv(s) && Spawns(s, s', t) && t !in s.sched.blocked
    requires forall u :: IsHeld(s.sched, u) ==> IsHeld(s'.sched, u)
    ensures OwnInv(s')
  {
    SameChans(s, s');
    OwnFrom(s, s', {t});
  }

  lemma SpawnQueues(s: State, s': State, t: nat)
    requires Operands(s) && QueueInv(s) && Spawns(s, s', t)
    ensures QueueInv(s')
  {
    NoRequests(s, s', t);
    QueuesFrom(s, s', {t});
  }

  lemma SpawnCalls(s: State, s': State, t: nat)
    requires Operands(s) && CallInv(s) && Spawns(s, s', t)
    ensures CallInv(s')
  {
    QuietCalls(s, s', t);
  }

  /** A thread that is idle or unknown has no request in any queue. */
  lemma NotWaiting(s: State, t: nat)
    requires QueueInv(s) && (t !in s.threads || s.threads[t].phase.Idle?)
    ensures forall c :: c in s.chans ==> !Waits(s.chans[c], t)
  {
    forall c | c in s.chans ensures !Waits(s.chans[c], t) { assert QueueOk(s, c, t); }
  }

  /** Queues without requests of t are in order for t as long as its token is not live. */
  lemma NoRequests(s: State, s': State, t: nat)
    requires QueueInv(s) && (t !in s.threads || s.threads[t].phase.Idle?)
    requires s'.chans == s.chans
    requires t in s'.pend && t in s'.threads ==> forall m :: !Entered(s'.threads[t].phase, m)
    ensures QueuesOf(s', t)
  {
    NotWaiting(s, t);
    forall c, r: Request | c in s'.chans && r.tid == t ensures SenderOk(s', c, r) && ReceiverOk(s', c, r) {
      InHas(s.chans[c].senders, t);
      InHas(s.chans[c].receivers, t);
    }
  }

  ghost predicate Exits(s: State, s': State, t: nat) {
    && t in s.threads && s.threads[t].phase.Idle?
    && s' == s.(sched := s'.sched, threads := s.threads - {t})
  }

  lemma ExitKeeps(s: State, s': State, w: nat)
    requires Inv(s) && w in s.sched.held && Exits(s, s', s.sched.held[w])
    requires PutBack(s.sched, w, Exiting) == Kept(s'.sched)
    ensures Inv(s')
  {
    var t := s.sched.held[w];
    OperandsOk(s);
    ExitPlaces(s.sched, s'.sched, w);
    ExitOwn(s, s', t);
    ExitQueues(s, s', t);
    ExitCalls(s, s', t);
  }

  lemma ExitPlaces(d: Sched, d': Sched, w: nat)
    requires OnePlace(d) && w in d.held && PutBack(d, w, Exiting) == Kept(d')
    ensures OnePlace(d') && d'.all == d.all - {d.held[w]} && d'.blocked == d.blocked && d'.runnable == d.runnable
    ensures forall u :: IsHeld(d', u) <==> IsHeld(d, u) && u != d.held[w]
  {
    PutBackKeepsOnePlace(d, w, Exiting);
  }

  lemma ExitOwn(s: State, s': State, t: nat)
    requires OwnInv(s) && Exits(s, s', t)
    requires s'.sched.blocked == s.sched.blocked && s'.sched.runnable == s.sched.runnable
    requires forall u :: IsHeld(s.sched, u) && u != t ==> IsHeld(s'.sched, u)
    ensures OwnInv(s')
  {
    assert ThreadOk(s, t);
    SameChans(s, s');
    OwnFrom(s, s', {t});
  }

  lemma ExitQueues(s: State, s': State, t: nat)
    requires Operands(s) && QueueInv(s) && Exits(s, s', t)
    ensures QueueInv(s')
  {
    NoRequests(s, s', t);
    QueuesFrom(s, s', {t});
  }

  lemma ExitCalls(s: State, s': State, t: nat)
    requires Operands(s) && CallInv(s) && Exits(s, s', t)
    ensures CallInv(s')
  {
    QuietCalls(s, s', t);
  }

  /** A step of a thread that neither is engaged nor runs a callback leaves all callbacks alone. */
  lemma QuietCalls(s: State, s': State, t: nat)
    requires Operands(s) && CallInv(s) && Untouched(s, s', {t}) && QueuesShrink(s, s', {t})
    requires t in s.threads ==> !Engaged(s.threads[t].phase) && !s.threads[t].phase.Calling?
    requires t in s'.threads ==> !s'.threads[t].phase.Calling? && (Engaged(s'.threads[t].phase) ==> t in s'.pend)
    ensures CallInv(s')
  {
    NotServed(s, t);
    CallsFrom(s, s', {t});
  }

  /** A thread that is not engaged, or whose token is live, is served by no callback. */
  lemma NotServed(s: State, t: nat)
    requires CallInv(s) && (t in s.pend || t !in s.threads || !Engaged(s.threads[t].phase))
    ensures forall h :: !Calls(s, h, t)
  {
    forall h | h in s.threads && s.threads[h].phase.Calling? ensures s.threads[h].phase.cb.peer != t {
      assert CallOk(s, h);
    }
  }

  lemma SameChans(s: State, s': State)
    requires (forall c :: c in s.chans ==> ChanOk(s, c)) && s'.chans == s.chans && s'.sent == s.sent && s'.got == s.got
    ensures forall c :: c in s'.chans ==> ChanOk(s', c)
  {
    forall c | c in s'.chans ensures ChanOk(s', c) { assert ChanOk(s, c); }
  }

  // ---- steps inside an instruction that touch no channel ----

  ghost predicate Begins(s: State, s': State, t: nat, op: Op, order: seq<nat>) {
    && t in s.threads && s.threads[t].phase.Idle? && IsHeld(s.sched, t)
    && WellFormed(op, s.chans.Keys) && Shuffled(order, |op.chans|)
    && s' == SetThread(s.(pend := s.pend + {t}), t, s.threads[t].(op := op, phase := Trying(order, 0), moved := []))
  }

  lemma BeginKeeps(s: State, s': State, t: nat, op: Op, order: seq<nat>)
    requires Inv(s) && Begins(s, s', t, op, order)
    ensures Inv(s')
  {
    OperandsOk(s);
    BeginOwnPart(s, s', t, op, order);
    BeginQueues(s, s', t, op, order);
    BeginCalls(s, s', t, op, order);
  }

  lemma BeginOwnPart(s: State, s': State, t: nat, op: Op, order: seq<nat>)
    requires OwnInv(s) && Begins(s, s', t, op, order)
    ensures OwnInv(s')
  {
    assert ThreadOk(s, t);
    SameChans(s, s');
    OwnFrom(s, s', {t});
  }

  lemma BeginQueues(s: State, s': State, t: nat, op: Op, order: seq<nat>)
    requires Operands(s) && QueueInv(s) && Begins(s, s', t, op, order)
    ensures QueueInv(s')
  {
    assert order[..0] == [];
    NoRequests(s, s', t);
    QueuesFrom(s, s', {t});
  }

  lemma BeginCalls(s: State, s': State, t: nat, op: Op, order: seq<nat>)
    requires Operands(s) && CallInv(s) && Begins(s, s', t, op, order)
    ensures CallInv(s')
  {
    QuietCalls(s, s', t);
  }

  /** The end of the channel loop: `give` says that a non-blocking alt got its lock and gives up its token. */
  ghost predicate EndsLoop(s: State, s': State, t: nat, give: bool) {
    && t in s.threads && s.threads[t].phase.Trying? && s.threads[t].phase.i == |s.threads[t].phase.order|
    && (give ==> t in s.pend && !s.threads[t].op.blocking)
    && s' == SetThread(s.(pend := if give then s.pend - {t} else s.pend), t,
                       s.threads[t].(phase := if give then Withdrawing(0) else Waiting))
  }

  lemma EndLoopKeeps(s: State, s': State, t: nat, give: bool)
    requires Inv(s) && EndsLoop(s, s', t, give)
    ensures Inv(s')
  {
    assert PlaceOk(s, t);
    OperandsOk(s);
    EndLoopOwnPart(s, s', t, give);
    EndLoopQueues(s, s', t, give);
    EndLoopCalls(s, s', t, give);
  }

  lemma EndLoopOwnPart(s: State, s': State, t: nat, give: bool)
    requires OwnInv(s) && EndsLoop(s, s', t, give) && t !in s.sched.runnable
    ensures OwnInv(s')
  {
    EndLoopOwn(s, s', t, give);
    SameChans(s, s');
    OwnFrom(s, s', {t});
  }

  lemma EndLoopOwn(s: State, s': State, t: nat, give: bool)
    requires EndsLoop(s, s', t, give) && ThreadOk(s, t) && PlaceOk(s, t)
    requires t !in s.sched.runnable
    ensures ThreadOk(s', t) && PlaceOk(s', t)
  {
  }

  lemma EndLoopQueues(s: State, s': State, t: nat, give: bool)
    requires Operands(s) && QueueInv(s) && EndsLoop(s, s', t, give) && ThreadOk(s, t)
    ensures QueueInv(s')
  {
    assert s.threads[t].phase.order[..s.threads[t].phase.i] == s.threads[t].phase.order;
    PhaseOnly(s, s', t);
    QueuesFrom(s, s', {t});
  }

  lemma EndLoopCalls(s: State, s': State, t: nat, give: bool)
    requires Operands(s) && CallInv(s) && EndsLoop(s, s', t, give)
    ensures CallInv(s')
  {
    StillEngaged(s, s', t);
    CallsFrom(s, s', {t});
  }

  /** The callback that serves an engaged thread goes on serving it while the thread stays engaged. */
  lemma StillEngaged(s: State, s': State, t: nat)
    requires CallInv(s) && t in s.threads && Engaged(s.threads[t].phase) && WellFormed(s.threads[t].op, s.chans.Keys)
    requires t in s'.threads && s'.threads[t].op == s.threads[t].op && s.chans.Keys <= s'.chans.Keys
    requires t !in s.pend ==> t !in s'.pend && Engaged(s'.threads[t].phase) && s'.threads[t].moved == s.threads[t].moved
    requires t in s.pend && Engaged(s'.threads[t].phase) ==> t in s'.pend
    requires forall c :: c in s'.chans && Waits(s'.chans[c], t) && t !in s'.pend ==> c in s.chans && Waits(s.chans[c], t)
    requires forall h :: h in s'.threads && h != t ==> h in s.threads && s'.threads[h] == s.threads[h]
    requires forall h :: h in s.threads ==> h in s'.threads
    ensures forall h :: h in s'.threads && h != t && s'.threads[h].phase.Calling? && s'.threads[h].phase.cb.peer == t ==> CallOk(s', h)
    ensures Engaged(s'.threads[t].phase) && t !in s'.pend ==> exists h :: Calls(s', h, t)
  {
    forall h | h in s'.threads && h != t && s'.threads[h].phase.Calling? && s'.threads[h].phase.cb.peer == t ensures CallOk(s', h) {
      assert CallOk(s, h);
      CallStays(s, s', {t}, h);
    }
    if Engaged(s'.threads[t].phase) && t !in s'.pend {
      var h :| Calls(s, h, t);
      assert Calls(s', h, t);
    }
  }

  /** A new phase of one thread keeps its queues in order when every request it still has stays accounted for. */
  lemma PhaseOnly(s: State, s': State, t: nat)
    requires QueueInv(s) && t in s.threads && t in s'.threads && s'.threads[t].op == s.threads[t].op
    requires s'.chans == s.chans
    requires forall m :: 0 <= m < |s.threads[t].op.chans| && Entered(s.threads[t].phase, m) ==> Entered(s'.threads[t].phase, m)
    requires t in s'.pend ==> t in s.pend && forall m :: 0 <= m < |s.threads[t].op.chans| ==> Entered(s.threads[t].phase, m)
    ensures QueuesOf(s', t)
  {
    forall c | c in s'.chans ensures QueueOk(s', c, t) { assert QueueOk(s, c, t); }
    forall c, r: Request | c in s'.chans && r.tid == t ensures SenderOk(s', c, r) && ReceiverOk(s', c, r) {
      assert SenderOk(s, c, r) && ReceiverOk(s, c, r);
    }
    forall m | 0 <= m < |s'.threads[t].op.chans| && s'.threads[t].op.chans[m] in s'.chans ensures LiveOk(s', t, m) {
      assert LiveOk(s, t, m);
    }
  }

  // ---- the end of an operation ----

  /** An operation is recorded as finished: the served one after its cancellations, the empty one after withdrawing. */
  ghost predicate Finishes(s: State, s': State, t: nat, result: int) {
    && t in s.threads
    && (|| (s.threads[t].phase.Cancelling? && s.threads[t].phase.next == |s.threads[t].op.chans| && result == s.threads[t].phase.k)
        || (s.threads[t].phase.Withdrawing? && s.threads[t].phase.next == result == |s.threads[t].op.chans|))
    && s' == SetThread(s, t, Completed(s.threads[t], result))
  }

  lemma FinishKeeps(s: State, s': State, t: nat, result: int)
    requires Inv(s) && Finishes(s, s', t, result)
    ensures Inv(s')
  {
    assert PlaceOk(s, t);
    OperandsOk(s);
    FinishOwnPart(s, s', t, result);
    FinishQueues(s, s', t, result);
    FinishCalls(s, s', t, result);
  }

  lemma FinishOwnPart(s: State, s': State, t: nat, result: int)
    requires OwnInv(s) && Finishes(s, s', t, result) && t !in s.sched.blocked
    ensures OwnInv(s')
  {
    FinishOwn(s, s', t, result);
    SameChans(s, s');
    OwnFrom(s, s', {t});
  }

  lemma FinishOwn(s: State, s': State, t: nat, result: int)
    requires Finishes(s, s', t, result) && ThreadOk(s, t) && PlaceOk(s, t)
    requires t !in s.sched.blocked
    ensures ThreadOk(s', t) && PlaceOk(s', t)
  {
  }

  lemma FinishQueues(s: State, s': State, t: nat, result: int)
    requires Operands(s) && QueueInv(s) && Finishes(s, s', t, result) && ThreadOk(s, t)
    ensures QueueInv(s')
  {
    forall c | c in s.chans ensures !Waits(s.chans[c], t) { assert QueueOk(s, c, t); }
    NoWaits(s, s', t);
    QueuesFrom(s, s', {t});
  }

  lemma NoWaits(s: State, s': State, t: nat)
    requires s'.chans == s.chans && t !in s'.pend && forall c :: c in s.chans ==> !Waits(s.chans[c], t)
    ensures QueuesOf(s', t)
  {
    forall c, r: Request | c in s'.chans && r.tid == t ensures SenderOk(s', c, r) && ReceiverOk(s', c, r) {
      InHas(s.chans[c].senders, t);
      InHas(s.chans[c].receivers, t);
    }
  }

  lemma FinishCalls(s: State, s': State, t: nat, result: int)
    requires Operands(s) && CallInv(s) && Finishes(s, s', t, result)
    ensures CallInv(s')
  {
    QuietCalls(s, s', t);
  }

  // ---- cancellations ----

  /** Only requests of t disappear from the queues; words and logs stay. */
  ghost predicate ChansShrink(s: State, s': State, t: nat) {
    && s'.chans.Keys == s.chans.Keys && s'.sent == s.sent && s'.got == s.got
    && (forall c :: c in s'.chans ==> ChanOk(s', c))
    && (forall c, r :: c in s'.chans && r in s'.chans[c].senders ==> r in s.chans[c].senders)
    && (forall c, r :: c in s'.chans && r in s'.chans[c].receivers ==> r in s.chans[c].receivers)
    && (forall c, u :: c in s'.chans && u != t && Has(s.chans[c].senders, u) ==> Has(s'.chans[c].senders, u))
    && (forall c, u :: c in s'.chans && u != t && Has(s.chans[c].receivers, u) ==> Has(s'.chans[c].receivers, u))
  }

  lemma CancelOne(c: Chan, t: nat)
    requires Settled(c)
    ensures var c' := CancelEffect(c, t);
            && Settled(c') && c'.buf == c.buf && !Waits(c', t)
            && (forall r :: r in c'.senders ==> r in c.senders)
            && (forall r :: r in c'.receivers ==> r in c.receivers)
            && (forall u :: u != t && Has(c.senders, u) ==> Has(c'.senders, u))
            && (forall u :: u != t && Has(c.receivers, u) ==> Has(c'.receivers, u))
  {
    CancelKeepsSettled(c, t);
    CancelWaiters(c, t, t);
    forall u | u != t
      ensures Has(c.senders, u) ==> Has(CancelEffect(c, t).senders, u)
      ensures Has(c.receivers, u) ==> Has(CancelEffect(c, t).receivers, u)
    { CancelWaiters(c, t, u); }
  }

  lemma CancelShrinks(s: State, s': State, d: nat, t: nat)
    requires (forall c :: c in s.chans ==> ChanOk(s, c)) && d in s.chans
    requires s'.chans == s.chans[d := CancelEffect(s.chans[d], t)] && s'.sent == s.sent && s'.got == s.got
    ensures ChansShrink(s, s', t) && !Waits(s'.chans[d], t)
  {
    assert ChanOk(s, d);
    CancelOne(s.chans[d], t);
    forall c | c in s'.chans ensures ChanOk(s', c) { assert ChanOk(s, c); }
  }

  /** One pass of the cancellation loop leaves no request of t in the channel it handles. */
  lemma ScanShrinks(s: State, s': State, op: Op, k: nat, next: nat, t: nat)
    requires (forall c :: c in s.chans ==> ChanOk(s, c)) && WellFormed(op, s.chans.Keys) && next < |op.chans| && k < |op.chans|
    requires s'.chans == ScanChans(s.chans, op, op.chans[k], next, t) && s'.sent == s.sent && s'.got == s.got
    ensures ChansShrink(s, s', t)
    ensures next != k ==> !Waits(s'.chans[op.chans[next]], t)
  {
    if op.chans[next] == op.chans[k] {
      SameChans(s, s');
    } else {
      CancelShrinks(s, s', op.chans[next], t);
    }
  }

  lemma ShrinkWaits(s: State, s': State, t: nat, c: nat, u: nat)
    requires ChansShrink(s, s', t) && c in s'.chans && Waits(s'.chans[c], u)
    ensures Waits(s.chans[c], u)
  {
    InHas(s'.chans[c].senders, u);
    InHas(s'.chans[c].receivers, u);
    InHas(s.chans[c].senders, u);
    InHas(s.chans[c].receivers, u);
  }

  /** The queues of a thread without live token stay in order when the channels shrink and its phase still fits. */
  lemma ShrunkQueuesOf(s: State, s': State, t: nat, u: nat)
    requires QueueInv(s) && ChansShrink(s, s', t) && u in s.threads && u in s'.threads && s'.threads[u].op == s.threads[u].op
    requires u !in s'.pend
    requires forall c :: c in s'.chans && Waits(s'.chans[c], u) && Waits(s.chans[c], u)
               && IndexOf(s.threads[u].op.chans, c) < |s.threads[u].op.chans|
               && Entered(s.threads[u].phase, IndexOf(s.threads[u].op.chans, c))
               ==> Entered(s'.threads[u].phase, IndexOf(s.threads[u].op.chans, c))
    ensures QueuesOf(s', u)
  {
    forall c | c in s'.chans ensures QueueOk(s', c, u) {
      if Waits(s'.chans[c], u) {
        ShrinkWaits(s, s', t, c, u);
        assert QueueOk(s, c, u);
      }
    }
    forall c, r: Request | c in s'.chans && r.tid == u ensures SenderOk(s', c, r) && ReceiverOk(s', c, r) {
      assert SenderOk(s, c, r) && ReceiverOk(s, c, r);
    }
  }

  ghost predicate CancelsOwn(s: State, s': State, t: nat) {
    && t in s.threads
    && match s.threads[t].phase
       case Cancelling(k, next, found) =>
         var op := s.threads[t].op;
         && k < |op.chans| && next < |op.chans| && op.chans[next] in s.chans
         && s' == SetThread(s.(chans := ScanChans(s.chans, op, op.chans[k], next, t)), t,
                            s.threads[t].(phase := Cancelling(k, next + 1, ScanFound(op, op.chans[k], next, found))))
       case Withdrawing(next) =>
         var op := s.threads[t].op;
         && next < |op.chans| && op.chans[next] in s.chans
         && s' == SetThread(s.(chans := s.chans[op.chans[next] := CancelEffect(s.chans[op.chans[next]], t)]), t,
                            s.threads[t].(phase := Withdrawing(next + 1)))
       case _ => false
  }

  lemma CancelOwnKeeps(s: State, s': State, t: nat)
    requires Inv(s) && CancelsOwn(s, s', t)
    ensures Inv(s')
  {
    OperandsOk(s);
    CancelOwnShrinks(s, s', t);
    CancelOwnShape(s, s', t);
    CancelOwnOwnPart(s, s', t);
    CancelOwnQueues(s, s', t);
    QuietCalls(s, s', t);
  }

  lemma CancelOwnShrinks(s: State, s': State, t: nat)
    requires OwnInv(s) && CancelsOwn(s, s', t)
    ensures ChansShrink(s, s', t) && WellFormed(s.threads[t].op, s.chans.Keys) && t !in s.pend
    ensures var ph := s.threads[t].phase;
            !(ph.Cancelling? && ph.k == ph.next) ==> !Waits(s'.chans[s.threads[t].op.chans[ph.next]], t)
  {
    assert ThreadOk(s, t);
    match s.threads[t].phase {
      case Cancelling(k, next, found) => ScanShrinks(s, s', s.threads[t].op, k, next, t);
      case Withdrawing(next) => CancelShrinks(s, s', s.threads[t].op.chans[next], t);
    }
  }

  lemma CancelOwnShape(s: State, s': State, t: nat)
    requires CancelsOwn(s, s', t) && ChansShrink(s, s', t)
    ensures Untouched(s, s', {t}) && QueuesShrink(s, s', {t}) && s'.pend == s.pend && s'.sched == s.sched
    ensures s'.threads.Keys == s.threads.Keys && s'.threads[t].op == s.threads[t].op
    ensures !Engaged(s'.threads[t].phase) && !s'.threads[t].phase.Calling?
    ensures forall m :: Entered(s.threads[t].phase, m) && m != s.threads[t].phase.next ==> Entered(s'.threads[t].phase, m)
    ensures Entered(s.threads[t].phase, s.threads[t].phase.next) ==> !(s.threads[t].phase.Cancelling? && s.threads[t].phase.k == s.threads[t].phase.next)
  {
  }

  lemma CancelOwnOwnPart(s: State, s': State, t: nat)
    requires OwnInv(s) && CancelsOwn(s, s', t) && ChansShrink(s, s', t)
    ensures OwnInv(s')
  {
    CancelOwnOwn(s, s', t);
    OwnFrom(s, s', {t});
  }

  lemma CancelOwnOwn(s: State, s': State, t: nat)
    requires CancelsOwn(s, s', t) && ChansShrink(s, s', t) && ThreadOk(s, t) && PlaceOk(s, t)
    ensures ThreadOk(s', t) && PlaceOk(s', t)
  {
  }

  lemma CancelOwnQueues(s: State, s': State, t: nat)
    requires Operands(s) && QueueInv(s) && CancelsOwn(s, s', t) && ChansShrink(s, s', t) && t !in s.pend
    requires var ph := s.threads[t].phase;
             !(ph.Cancelling? && ph.k == ph.next) ==> !Waits(s'.chans[s.threads[t].op.chans[ph.next]], t)
    ensures QueueInv(s')
  {
    CancelOwnShape(s, s', t);
    ShrunkQueuesOf(s, s', t, t);
    QueuesFrom(s, s', {t});
  }

  /** A callback cancels one more request of the thread it serves. */
  ghost predicate CancelsForPeer(s: State, s': State, h: nat, p: nat) {
    && Calls(s, h, p) && p in s.threads
    && var cb := s.threads[h].phase.cb; var op := s.threads[p].op;
       && cb.next < |op.chans| && op.chans[cb.next] in s.chans
       && s' == SetThread(s.(chans := ScanChans(s.chans, op, cb.chan, cb.next, p)), h, s.threads[h].(phase := s.threads[h].phase.(
                  cb := cb.(next := cb.next + 1, found := ScanFound(op, cb.chan, cb.next, cb.found)))))
  }

  lemma CancelForPeerKeeps(s: State, s': State, h: nat, p: nat)
    requires Inv(s) && CancelsForPeer(s, s', h, p)
    ensures Inv(s')
  {
    OperandsOk(s);
    assert ThreadOk(s, h) && CallOk(s, h);
    CancelForPeerShrinks(s, s', h, p);
    CancelForPeerOwnPart(s, s', h, p);
    CancelForPeerQueues(s, s', h, p);
    CancelForPeerCalls(s, s', h, p);
  }

  lemma CancelForPeerShrinks(s: State, s': State, h: nat, p: nat)
    requires (forall c :: c in s.chans ==> ChanOk(s, c)) && CancelsForPeer(s, s', h, p) && CallOk(s, h)
    requires WellFormed(s.threads[p].op, s.chans.Keys)
    ensures ChansShrink(s, s', p)
    ensures var cb := s.threads[h].phase.cb;
            s.threads[p].op.chans[cb.next] != cb.chan ==> !Waits(s'.chans[s.threads[p].op.chans[cb.next]], p)
  {
    var cb := s.threads[h].phase.cb;
    ScanShrinks(s, s', s.threads[p].op, s.threads[p].moved[0].index, cb.next, p);
  }

  lemma CancelForPeerOwnPart(s: State, s': State, h: nat, p: nat)
    requires OwnInv(s) && CancelsForPeer(s, s', h, p) && ChansShrink(s, s', p)
    ensures OwnInv(s')
  {
    assert ThreadOk(s, h) && PlaceOk(s, h);
    assert ThreadOk(s', h) && PlaceOk(s', h);
    OwnFrom(s, s', {h});
  }

  lemma CancelForPeerQueues(s: State, s': State, h: nat, p: nat)
    requires Operands(s) && QueueInv(s) && CancelsForPeer(s, s', h, p) && ChansShrink(s, s', p) && h !in s.pend && p !in s.pend
    ensures QueueInv(s')
  {
    ShrunkQueuesOf(s, s', p, h);
    QueuesFrom(s, s', {h});
  }

  lemma CancelForPeerCalls(s: State, s': State, h: nat, p: nat)
    requires Operands(s) && CallInv(s) && CancelsForPeer(s, s', h, p) && ChansShrink(s, s', p) && h !in s.pend && p !in s.pend
    requires var cb := s.threads[h].phase.cb;
             s.threads[p].op.chans[cb.next] != cb.chan ==> !Waits(s'.chans[s.threads[p].op.chans[cb.next]], p)
    ensures CallInv(s')
  {
    assert CallOk(s, h);
    CancelForPeerOwn(s, s', h, p);
    CancelForPeerShape(s, s', h, p);
    SameCallers(s, s', h);
  }

  lemma CancelForPeerShape(s: State, s': State, h: nat, p: nat)
    requires CancelsForPeer(s, s', h, p) && ChansShrink(s, s', p) && h !in s.pend && p !in s.pend
    ensures Untouched(s, s', {h}) && QueuesShrink(s, s', {h}) && s'.pend == s.pend && s'.threads.Keys == s.threads.Keys
    ensures s.threads[h].phase.Calling? && s'.threads[h].phase.Calling?
    ensures s'.threads[h].phase.cb.peer == s.threads[h].phase.cb.peer
  {
  }

  /** Callbacks go on serving the threads they served, when the one that changed still serves its own. */
  lemma SameCallers(s: State, s': State, h: nat)
    requires Operands(s) && CallInv(s) && Untouched(s, s', {h}) && QueuesShrink(s, s', {h})
    requires s'.pend == s.pend && s'.threads.Keys == s.threads.Keys && h in s.threads && h !in s.pend
    requires s.threads[h].phase.Calling? && s'.threads[h].phase.Calling?
    requires s'.threads[h].phase.cb.peer == s.threads[h].phase.cb.peer && CallOk(s', h)
    ensures CallInv(s')
  {
    NotServed(s, h);
    assert forall g, q :: Calls(s', g, q) <==> Calls(s, g, q);
    hide QueuesShrink, Operands, CallOk;
    CallsFrom(s, s', {h});
  }

  lemma CancelForPeerOwn(s: State, s': State, h: nat, p: nat)
    requires Operands(s) && CancelsForPeer(s, s', h, p) && ChansShrink(s, s', p) && CallOk(s, h)
    requires var cb := s.threads[h].phase.cb;
             s.threads[p].op.chans[cb.next] != cb.chan ==> !Waits(s'.chans[s.threads[p].op.chans[cb.next]], p)
    ensures CallOk(s', h)
  {
    forall c | c in s'.chans && Waits(s'.chans[c], p) ensures Waits(s.chans[c], p) { ShrinkWaits(s, s', p, c, p); }
    var op := s.threads[p].op;
    var cb := s.threads[h].phase.cb;
    forall m | 0 <= m < cb.next + 1 && op.chans[m] in s'.chans ensures !Waits(s'.chans[op.chans[m]], p) {
      if m == cb.next && op.chans[m] == cb.chan { assert !Waits(s.chans[cb.chan], p); }
    }
  }

  // ---- wake-up ----

  /** The last action of a callback: the served thread is recorded as finished and made runnable. */
  ghost predicate Wakes(s: State, s': State, h: nat, p: nat) {
    && Calls(s, h, p) && p in s.threads && !IsHeld(s.sched, p)
    && var ph := s.threads[h].phase;
       && ph.i < |ph.order| && ph.cb.next == |s.threads[p].op.chans|
       && Woken(s.sched, p) == Kept(s'.sched)
       && s' == s.(sched := s'.sched,
                   threads := s.threads[p := Completed(s.threads[p], ph.cb.found)]
                                       [h := s.threads[h].(phase := AfterTransfer(ph.order, ph.i, |s.threads[h].op.chans|))])
  }

  /** A callback that may take the ownership lock of its thread finds that thread in the blocked set. */
  lemma WakeFindsBlocked(s: State, h: nat, p: nat)
    requires Inv(s) && Calls(s, h, p) && !IsHeld(s.sched, p)
    ensures p in s.sched.blocked && p in s.threads && s.threads[p].phase.Waiting? && Woken(s.sched, p).Kept?
  {
    assert CallOk(s, h);
    assert PlaceOk(s, p);
  }

  lemma WakeKeeps(s: State, s': State, h: nat, p: nat)
    requires Inv(s) && Wakes(s, s', h, p)
    ensures Inv(s')
  {
    OperandsOk(s);
    assert ThreadOk(s, h) && CallOk(s, h) && ThreadOk(s, p);
    WokenKeepsOnePlace(s.sched, p);
    WakeOwnPart(s, s', h, p);
    WakeQueues(s, s', h, p);
    WakeCalls(s, s', h, p);
  }

  lemma WakeOwnPart(s: State, s': State, h: nat, p: nat)
    requires OwnInv(s) && Wakes(s, s', h, p) && CallOk(s, h)
    requires forall u :: IsHeld(s.sched, u) ==> IsHeld(s'.sched, u)
    ensures OwnInv(s')
  {
    assert ThreadOk(s, h) && ThreadOk(s, p) && PlaceOk(s, h);
    WakeOwn(s, s', h, p);
    SameChans(s, s');
    OwnFrom(s, s', {h, p});
  }

  lemma WakeOwn(s: State, s': State, h: nat, p: nat)
    requires Wakes(s, s', h, p) && CallOk(s, h) && ThreadOk(s, h) && ThreadOk(s, p) && PlaceOk(s, h)
    requires WellFormed(s.threads[p].op, s.chans.Keys) && WellFormed(s.threads[h].op, s.chans.Keys)
    requires IsHeld(s'.sched, h) && p !in s'.sched.blocked
    ensures ThreadOk(s', h) && ThreadOk(s', p) && PlaceOk(s', h) && PlaceOk(s', p)
  {
  }

  lemma WakeQueues(s: State, s': State, h: nat, p: nat)
    requires Operands(s) && QueueInv(s) && Wakes(s, s', h, p) && ThreadOk(s, h) && CallOk(s, h)
    ensures QueueInv(s')
  {
    forall c | c in s.chans ensures !Waits(s.chans[c], p) { assert QueueOk(s, c, p); }
    NoWaits(s, s', p);
    AfterTransferQueues(s, s', h);
    QueuesFrom(s, s', {h, p});
  }

  /** Once the own transfer is done, the requests queued before it are those still to be cancelled. */
  lemma AfterTransferQueues(s: State, s': State, h: nat)
    requires h in s.threads && h in s'.threads && h !in s'.pend && s'.chans == s.chans && QueueInv(s) && ThreadOk(s, h)
    requires s.threads[h].phase.Calling? && s'.threads[h].op == s.threads[h].op
    requires var ph := s.threads[h].phase; s'.threads[h].phase == AfterTransfer(ph.order, ph.i, |s.threads[h].op.chans|)
    ensures QueuesOf(s', h)
  {
    var ph := s.threads[h].phase;
    assert ph.i == 0 ==> ph.order[..ph.i] == [];
    PhaseOnly(s, s', h);
  }

  lemma WakeCalls(s: State, s': State, h: nat, p: nat)
    requires Operands(s) && CallInv(s) && Wakes(s, s', h, p) && h !in s.pend
    ensures CallInv(s')
  {
    NotServed(s, h);
    forall g | g in s'.threads && g !in {h, p} && s'.threads[g].phase.Calling? ensures s'.threads[g].phase.cb.peer !in {h, p} {
      var q := s.threads[g].phase.cb.peer;
      assert Calls(s, g, q) && CallOk(s, h);
    }
    CallsFrom(s, s', {h, p});
  }

  // ---- one channel call ----

  /** What a channel call may do, stated without its code. */
  ghost predicate Allowed(c: Chan, pend: set<nat>, req: Request, isSend: bool, e: Effect) {
    && Settled(e.chan)
    && (forall r :: r in e.chan.senders ==> r in c.senders || (r == req && isSend && e.outcome == Queued))
    && (forall r :: r in e.chan.receivers ==> r in c.receivers || (r == req && !isSend && e.outcome == Queued))
    && (forall u :: u in e.pend && Has(c.senders, u) ==> Has(e.chan.senders, u))
    && (forall u :: u in e.pend && Has(c.receivers, u) ==> Has(e.chan.receivers, u))
    && match e.outcome
       case NotPending => req.tid !in pend && e.pend == pend && e.chan == c
       case Queued => req.tid in pend && e.pend == pend && e.chan.buf == c.buf
                      && Has(if isSend then e.chan.senders else e.chan.receivers, req.tid)
       case Buffered(v) => req.tid in pend && e.pend == pend - {req.tid} && !Waits(e.chan, req.tid)
                           && (if isSend then v == req.data && e.chan.buf == c.buf + [v] else c.buf == [v] + e.chan.buf)
       case Matched(p, v, w) => req.tid in pend && p in pend && p != req.tid && e.pend == pend - {req.tid, p}
                                && !Waits(e.chan, req.tid) && !Waits(e.chan, p)
                                && (if isSend then v == req.data && Has(c.receivers, p) else Request(p, v) in c.senders)
                                && [w] + e.chan.buf == c.buf + [v]
  }

  lemma SendAllowed(c: Chan, pend: set<nat>, req: Request)
    requires Settled(c) && !Waits(c, req.tid)
    ensures Allowed(c, pend, req, true, SendEffect(c, pend, req))
  {
    var e := SendEffect(c, pend, req);
    SendKeepsSettled(c, pend, req);
    forall u
      ensures u in e.pend && Has(c.senders, u) ==> Has(e.chan.senders, u)
      ensures u in e.pend && Has(c.receivers, u) ==> Has(e.chan.receivers, u)
    { SendWaiters(c, pend, req, u); }
    SendWaiters(c, pend, req, req.tid);
  }

  lemma ReceiveAllowed(c: Chan, pend: set<nat>, req: Request)
    requires Settled(c) && !Waits(c, req.tid)
    ensures Allowed(c, pend, req, false, ReceiveEffect(c, pend, req))
  {
    var e := ReceiveEffect(c, pend, req);
    ReceiveKeepsSettled(c, pend, req);
    forall u
      ensures u in e.pend && Has(c.senders, u) ==> Has(e.chan.senders, u)
      ensures u in e.pend && Has(c.receivers, u) ==> Has(e.chan.receivers, u)
    { ReceiveWaiters(c, pend, req, u); }
    ReceiveWaiters(c, pend, req, req.tid);
    MatchedSender(c, pend, req);
  }

  lemma MatchedSender(c: Chan, pend: set<nat>, req: Request)
    ensures var e := ReceiveEffect(c, pend, req);
            e.outcome.Matched? ==> Request(e.outcome.peer, e.outcome.sent) in c.senders
                                   && [e.outcome.got] + e.chan.buf == c.buf + [e.outcome.sent]
  {
  }

  function Index(s: State, t: nat): nat
    requires t in s.threads && s.threads[t].phase.Trying? && CanTry(s, t)
  {
    s.threads[t].phase.order[s.threads[t].phase.i]
  }

  function Target(s: State, t: nat): nat
    requires t in s.threads && s.threads[t].phase.Trying? && CanTry(s, t)
  {
    s.threads[t].op.chans[Index(s, t)]
  }

  function Req(s: State, t: nat): Request
    requires t in s.threads && s.threads[t].phase.Trying? && CanTry(s, t)
  {
    Request(t, s.threads[t].op.vals[Index(s, t)])
  }

  predicate Sends(s: State, t: nat)
    requires t in s.threads && s.threads[t].phase.Trying? && CanTry(s, t)
  {
    Index(s, t) < s.threads[t].op.sends
  }

  /** A thread that calls into a channel has no request there: a sender is never also a receiver. */
  lemma CallerNotQueued(s: State, t: nat)
    requires t in s.threads && s.threads[t].phase.Trying? && CanTry(s, t)
    requires QueueInv(s) && ThreadOk(s, t)
    ensures !Waits(s.chans[Target(s, t)], t) && IndexOf(s.threads[t].op.chans, Target(s, t)) == Index(s, t)
  {
    assert QueueOk(s, Target(s, t), t);
    assert s.threads[t].op.chans[IndexOf(s.threads[t].op.chans, Target(s, t))] == Target(s, t);
  }

  ghost predicate Tries(s: State, s': State, t: nat, e: Effect) {
    && t in s.threads && s.threads[t].phase.Trying? && CanTry(s, t)
    && Allowed(s.chans[Target(s, t)], s.pend, Req(s, t), Sends(s, t), e)
    && (e.outcome.Matched? ==> e.outcome.peer in s.threads)
    && s' == Tried(s, t, e)
  }

  ghost function Changed(t: nat, e: Effect): set<nat> {
    if e.outcome.Matched? then {t, e.outcome.peer} else {t}
  }

  lemma TryShrinks(s: State, s': State, t: nat, e: Effect)
    requires Tries(s, s', t, e)
    ensures QueuesShrink(s, s', Changed(t, e)) && Untouched(s, s', Changed(t, e))
    ensures s'.chans == s.chans[Target(s, t) := e.chan] && s'.pend == e.pend && s'.sched == s.sched
    ensures s'.threads.Keys == s.threads.Keys && s'.pend <= s.pend
  {
    TryShape(s, s', t, e);
    hide Tried, Untouched;
  }

  lemma TryShape(s: State, s': State, t: nat, e: Effect)
    requires Tries(s, s', t, e)
    ensures Untouched(s, s', Changed(t, e))
    ensures s'.chans == s.chans[Target(s, t) := e.chan] && s'.pend == e.pend && s'.sched == s.sched
    ensures s'.threads.Keys == s.threads.Keys && s'.pend <= s.pend
  {
    hide Settled;
  }

  lemma TryChans(s: State, s': State, t: nat, e: Effect)
    requires (forall c :: c in s.chans ==> ChanOk(s, c)) && Tries(s, s', t, e)
    ensures forall c :: c in s'.chans ==> ChanOk(s', c)
  {
    var d := Target(s, t);
    assert ChanOk(s, d);
    TryLog(s, s', t, e);
    forall c | c in s'.chans ensures ChanOk(s', c) { assert ChanOk(s, c); }
  }

  /** The histories of the channel stay in step with its buffer. */
  lemma TryLog(s: State, s': State, t: nat, e: Effect)
    requires Tries(s, s', t, e) && s.got[Target(s, t)] + s.chans[Target(s, t)].buf == s.sent[Target(s, t)]
    ensures var d := Target(s, t);
            && d in s'.got && d in s'.sent && s'.got[d] + e.chan.buf == s'.sent[d]
            && s'.got.Keys == s.got.Keys && s'.sent.Keys == s.sent.Keys
            && (forall c :: c in s.got && c != d ==> s'.got[c] == s.got[c])
            && (forall c :: c in s.sent && c != d ==> s'.sent[c] == s.sent[c])
  {
    var d := Target(s, t);
    var buf := s.chans[d].buf;
    match e.outcome {
      case NotPending =>
      case Queued =>
      case Buffered(v) =>
        if Sends(s, t) {
          assert s.got[d] + (buf + [v]) == (s.got[d] + buf) + [v];
        } else {
          assert s.got[d] + ([v] + e.chan.buf) == (s.got[d] + [v]) + e.chan.buf;
        }
      case Matched(p, v, w) =>
        assert (s.got[d] + [w]) + e.chan.buf == s.got[d] + ([w] + e.chan.buf);
        assert s.got[d] + (buf + [v]) == (s.got[d] + buf) + [v];
    }
  }

  /** The matched thread waits at an operand of the other direction, with the word it offers. */
  lemma PeerOperand(s: State, s': State, t: nat, e: Effect)
    requires Tries(s, s', t, e) && e.outcome.Matched? && QueueInv(s)
    ensures var op := s.threads[e.outcome.peer].op; var m := IndexOf(op.chans, Target(s, t));
            && m < |op.chans| && op.chans[m] == Target(s, t)
            && (if Sends(s, t) then op.sends <= m else m < op.sends && |op.vals| == |op.chans| && e.outcome.sent == op.vals[m])
  {
    var d, p := Target(s, t), e.outcome.peer;
    var c := s.chans[d];
    InHas(c.receivers, p);
    InHas(c.senders, p);
    assert QueueOk(s, d, p);
    if Sends(s, t) {
      var r :| r in c.receivers && r.tid == p;
      assert ReceiverOk(s, d, r);
    } else {
      assert SenderOk(s, d, Request(p, e.outcome.sent));
    }
  }

  lemma TryOwnPart(s: State, s': State, t: nat, e: Effect)
    requires OwnInv(s) && QueueInv(s) && Tries(s, s', t, e)
    ensures OwnInv(s')
  {
    hide ThreadOk, PlaceOk, ChanOk, Untouched, Tries, QueueInv;
    TryShrinks(s, s', t, e);
    TryChans(s, s', t, e);
    TryOwners(s, s', t, e);
    OwnFrom(s, s', Changed(t, e));
  }

  lemma TryOwners(s: State, s': State, t: nat, e: Effect)
    requires OwnInv(s) && QueueInv(s) && Tries(s, s', t, e)
    ensures forall u :: u in s'.threads && u in Changed(t, e) ==> ThreadOk(s', u) && PlaceOk(s', u)
  {
    hide Tried, Allowed, ThreadOk, PlaceOk, ChanOk, QueueInv;
    TryOwn(s, s', t, e);
    if e.outcome.Matched? {
      PeerOperand(s, s', t, e);
      TryPeer(s, s', t, e);
    }
  }

  lemma TryOwn(s: State, s': State, t: nat, e: Effect)
    requires Tries(s, s', t, e) && ThreadOk(s, t) && PlaceOk(s, t)
    ensures ThreadOk(s', t) && PlaceOk(s', t)
  {
  }

  lemma TryPeer(s: State, s': State, t: nat, e: Effect)
    requires Tries(s, s', t, e) && e.outcome.Matched? && ThreadOk(s, e.outcome.peer) && PlaceOk(s, e.outcome.peer)
    requires var op := s.threads[e.outcome.peer].op; var m := IndexOf(op.chans, Target(s, t));
             && m < |op.chans| && (if Sends(s, t) then op.sends <= m else m < op.sends && |op.vals| == |op.chans| && e.outcome.sent == op.vals[m])
    ensures ThreadOk(s', e.outcome.peer) && PlaceOk(s', e.outcome.peer)
    ensures s'.threads[e.outcome.peer].op == s.threads[e.outcome.peer].op
    ensures s'.threads[e.outcome.peer].phase == s.threads[e.outcome.peer].phase
    ensures |s'.threads[e.outcome.peer].moved| == 1
    ensures s'.threads[e.outcome.peer].moved[0].index == IndexOf(s.threads[e.outcome.peer].op.chans, Target(s, t))
  {
  }

  lemma TryQueues(s: State, s': State, t: nat, e: Effect)
    requires Operands(s) && QueueInv(s) && OwnInv(s) && Tries(s, s', t, e)
    ensures QueueInv(s')
  {
    assert ThreadOk(s, t);
    TryShrinks(s, s', t, e);
    CallerNotQueued(s, t);
    TryOwnQueues(s, s', t, e);
    if e.outcome.Matched? { TryPeerQueues(s, s', t, e); }
    QueuesFrom(s, s', Changed(t, e));
  }

  lemma TryPeerQueues(s: State, s': State, t: nat, e: Effect)
    requires QueueInv(s) && Tries(s, s', t, e) && e.outcome.Matched?
    ensures QueuesOf(s', e.outcome.peer)
  {
    var d, p := Target(s, t), e.outcome.peer;
    InHas(e.chan.senders, p);
    InHas(e.chan.receivers, p);
    forall c | c in s'.chans ensures QueueOk(s', c, p) {
      if c != d { assert QueueOk(s, c, p); }
    }
    forall c, r: Request | c in s'.chans && r.tid == p ensures SenderOk(s', c, r) && ReceiverOk(s', c, r) {
      if c != d { assert SenderOk(s, c, r) && ReceiverOk(s, c, r); }
    }
  }

  lemma TryOwnQueues(s: State, s': State, t: nat, e: Effect)
    requires QueueInv(s) && Tries(s, s', t, e) && ThreadOk(s, t)
    requires !Waits(s.chans[Target(s, t)], t) && IndexOf(s.threads[t].op.chans, Target(s, t)) == Index(s, t)
    ensures QueuesOf(s', t)
  {
    var th := s.threads[t];
    var order, i := th.phase.order, th.phase.i;
    assert order[..i + 1] == order[..i] + [order[i]];
    assert i == 0 ==> order[..i] == [];
    var d := Target(s, t);
    forall c | c in s'.chans ensures QueueOk(s', c, t) {
      if c != d { assert QueueOk(s, c, t); }
    }
    TryOwnRequests(s, s', t, e);
    forall m | 0 <= m < |th.op.chans| && th.op.chans[m] in s'.chans ensures LiveOk(s', t, m) {
      if m != Index(s, t) { assert LiveOk(s, t, m); }
    }
  }

  lemma TryOwnRequests(s: State, s': State, t: nat, e: Effect)
    requires QueueInv(s) && Tries(s, s', t, e) && ThreadOk(s, t)
    requires !Waits(s.chans[Target(s, t)], t) && IndexOf(s.threads[t].op.chans, Target(s, t)) == Index(s, t)
    ensures forall c, r: Request :: c in s'.chans && r.tid == t ==> SenderOk(s', c, r)
    ensures forall c, r: Request :: c in s'.chans && r.tid == t ==> ReceiverOk(s', c, r)
  {
    var d := Target(s, t);
    InHas(s.chans[d].senders, t);
    InHas(s.chans[d].receivers, t);
    forall c, r: Request | c in s'.chans && r.tid == t ensures SenderOk(s', c, r) && ReceiverOk(s', c, r) {
      assert SenderOk(s, c, r) && ReceiverOk(s, c, r);
    }
  }

  lemma TryCalls(s: State, s': State, t: nat, e: Effect)
    requires Operands(s) && CallInv(s) && Tries(s, s', t, e)
    requires e.outcome.Matched? ==> CallOk(s', t) && Engaged(s.threads[e.outcome.peer].phase)
    requires e.outcome == NotPending || e.outcome == Queued || t in s.pend
    ensures CallInv(s')
  {
    match e.outcome {
      case NotPending => TryQueuedCalls(s, s', t, e);
      case Queued => TryQueuedCalls(s, s', t, e);
      case Buffered(v) => TryBufferedCalls(s, s', t, e);
      case Matched(p, v, w) =>
        TryShrinks(s, s', t, e);
        TryMatchedCalls(s, s', t, e);
    }
  }

  lemma TryBufferedCalls(s: State, s': State, t: nat, e: Effect)
    requires Operands(s) && CallInv(s) && Tries(s, s', t, e) && e.outcome.Buffered?
    ensures CallInv(s')
  {
    TryShrinks(s, s', t, e);
    NotServed(s, t);
    assert !s'.threads[t].phase.Calling? && !Engaged(s'.threads[t].phase);
    CallsFrom(s, s', {t});
  }

  /** The call returned false: only the loop moves on. */
  lemma TryQueuedCalls(s: State, s': State, t: nat, e: Effect)
    requires Operands(s) && CallInv(s) && Tries(s, s', t, e) && (e.outcome == NotPending || e.outcome == Queued)
    ensures CallInv(s')
  {
    TryShrinks(s, s', t, e);
    TryQueuedShape(s, s', t, e);
    EngagedGoesOn(s, s', t);
  }

  lemma TryQueuedShape(s: State, s': State, t: nat, e: Effect)
    requires Tries(s, s', t, e) && (e.outcome == NotPending || e.outcome == Queued)
    ensures s'.threads[t].op == s.threads[t].op && s'.threads[t].moved == s.threads[t].moved && s'.threads[t].phase.Trying?
    ensures s'.pend == s.pend
    ensures forall c :: c in s'.chans && Waits(s'.chans[c], t) && t !in s.pend ==> c in s.chans && Waits(s.chans[c], t)
  {
  }

  /** An engaged thread that stays engaged keeps the callback that may serve it. */
  lemma EngagedGoesOn(s: State, s': State, t: nat)
    requires Operands(s) && CallInv(s) && QueuesShrink(s, s', {t}) && Untouched(s, s', {t}) && s'.pend == s.pend
    requires t in s.threads && s.threads[t].phase.Trying? && t in s'.threads && s'.threads[t].phase.Trying?
    requires s'.threads[t].op == s.threads[t].op && s'.threads[t].moved == s.threads[t].moved
    requires forall c :: c in s'.chans && Waits(s'.chans[c], t) && t !in s.pend ==> c in s.chans && Waits(s.chans[c], t)
    ensures CallInv(s')
  {
    StillEngaged(s, s', t);
    CallsFrom(s, s', {t});
  }

  lemma TryMatchedCalls(s: State, s': State, t: nat, e: Effect)
    requires Operands(s) && CallInv(s) && Tries(s, s', t, e) && e.outcome.Matched?
    requires CallOk(s', t) && QueuesShrink(s, s', {t, e.outcome.peer}) && Untouched(s, s', {t, e.outcome.peer})
    requires Engaged(s.threads[e.outcome.peer].phase)
    ensures CallInv(s')
  {
    var p := e.outcome.peer;
    TryMatchedOthers(s, s', t, e);
    NewCaller(s, s', t, p);
  }

  /** Of two threads that change, one serves the other from now on, and nobody else serves either. */
  lemma NewCaller(s: State, s': State, t: nat, p: nat)
    requires Operands(s) && CallInv(s) && Untouched(s, s', {t, p}) && QueuesShrink(s, s', {t, p})
    requires s'.threads.Keys == s.threads.Keys && Calls(s', t, p) && CallOk(s', t)
    requires p in s'.threads && !s'.threads[p].phase.Calling? && !Engaged(s'.threads[t].phase)
    requires forall h :: !Calls(s, t, h) && !Calls(s, p, h)
    requires forall g :: g in s'.threads && g !in {t, p} && s'.threads[g].phase.Calling? ==>
               s'.threads[g].phase.cb.peer !in {t, p}
    ensures CallInv(s')
  {
    hide Operands, QueuesShrink, Untouched;
    CallsFrom(s, s', {t, p});
  }

  lemma TryMatchedOthers(s: State, s': State, t: nat, e: Effect)
    requires CallInv(s) && Tries(s, s', t, e) && e.outcome.Matched?
    requires Engaged(s.threads[e.outcome.peer].phase)
    ensures Calls(s', t, e.outcome.peer) && !s'.threads[e.outcome.peer].phase.Calling?
    ensures s'.threads.Keys == s.threads.Keys && t in s.threads && e.outcome.peer in s.threads
    ensures !Engaged(s'.threads[t].phase)
    ensures forall h :: !Calls(s, t, h) && !Calls(s, e.outcome.peer, h)
    ensures forall g :: g in s'.threads && g !in {t, e.outcome.peer} && s'.threads[g].phase.Calling? ==>
              s'.threads[g].phase.cb.peer !in {t, e.outcome.peer}
  {
    var p := e.outcome.peer;
    NotServed(s, t);
    NotServed(s, p);
    forall g | g in s'.threads && g !in {t, p} && s'.threads[g].phase.Calling? ensures s'.threads[g].phase.cb.peer !in {t, p} {
      assert Calls(s, g, s'.threads[g].phase.cb.peer);
    }
  }

  lemma TryCallOk(s: State, s': State, t: nat, e: Effect)
    requires OwnInv(s) && QueueInv(s) && Tries(s, s', t, e) && e.outcome.Matched?
    ensures CallOk(s', t) && Engaged(s.threads[e.outcome.peer].phase)
  {
    var p := e.outcome.peer;
    assert ThreadOk(s, t) && ThreadOk(s, p) && PlaceOk(s, p);
    PeerOperand(s, s', t, e);
    TryPeer(s, s', t, e);
  }

  lemma TryPlaces(s: State, s': State, t: nat, e: Effect)
    requires PlacesInv(s) && Tries(s, s', t, e)
    ensures PlacesInv(s')
  {
    TryShrinks(s, s', t, e);
  }

  lemma TryKeeps(s: State, s': State, t: nat, e: Effect)
    requires Inv(s) && Tries(s, s', t, e)
    ensures Inv(s')
  {
    OperandsOk(s);
    TryPlaces(s, s', t, e);
    TryOwnPart(s, s', t, e);
    TryQueues(s, s', t, e);
    if e.outcome.Matched? { TryCallOk(s, s', t, e); }
    TryCalls(s, s', t, e);
  }
}
