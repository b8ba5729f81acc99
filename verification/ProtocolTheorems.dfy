// What the rendezvous protocol promises, for every run and every interleaving of its steps.
module ProtocolTheorems {
  import opened Channels
  import opened Scheduling
  import opened Protocol
  import opened ProtocolSafety

  predicate SchedulerStep(step: Step) {
    step.Open? || step.Spawn? || step.Pick? || step.WaitForGc? || step.Return? || step.Exit?
  }

  lemma SchedulerStepKeeps(s: State, step: Step)
    requires Inv(s) && Enabled(s, step) && SchedulerStep(step)
    ensures Inv(Apply(s, step))
  {
    hide Inv;
    var s' := Apply(s, step);
    match step {
      case Open(c, cap) => OpenKeeps(s, s', c, cap);
      case Spawn(t) => SpawnKeeps(s, s', t);
      case Pick(w) => PickKeeps(s, s', w);
      case WaitForGc(w) => WaitForGcKeeps(s, s', w);
      case Return(w) => ReturnKeeps(s, s', w, if s.threads[s.sched.held[w]].phase.Idle? then Ready else BlockedInAlt);
      case Exit(w) => ExitKeeps(s, s', w);
    }
  }

  lemma LoopStepKeeps(s: State, step: Step)
    requires Inv(s) && Enabled(s, step) && (step.Begin? || step.Try? || step.EndLoop?)
    ensures Inv(Apply(s, step))
  {
    var s' := Apply(s, step);
    match step {
      case Begin(t, op, order) => BeginKeeps(s, s', t, op, order);
      case Try(t) => TryStep(s, t); TryKeeps(s, s', t, ChanEffect(s, t));
      case EndLoop(t, locked) => EndLoopKeeps(s, s', t, !s.threads[t].op.blocking && locked && t in s.pend);
    }
  }

  lemma CallbackStepShape(s: State, t: nat)
    ensures Enabled(s, CancelForPeer(t)) ==>
              CancelsForPeer(s, Apply(s, CancelForPeer(t)), t, s.threads[t].phase.cb.peer)
    ensures Enabled(s, Wake(t)) ==> Wakes(s, Apply(s, Wake(t)), t, s.threads[t].phase.cb.peer)
  {
  }

  lemma CallbackStepKeeps(s: State, step: Step)
    requires Inv(s) && Enabled(s, step) && (step.CancelForPeer? || step.Wake?)
    ensures Inv(Apply(s, step))
  {
    CallbackStepShape(s, step.t);
    var p := s.threads[step.t].phase.cb.peer;
    if step.CancelForPeer? {
      CancelForPeerKeeps(s, Apply(s, step), step.t, p);
    } else {
      WakeKeeps(s, Apply(s, step), step.t, p);
    }
  }

  lemma CancelStepKeeps(s: State, step: Step)
    requires Inv(s) && Enabled(s, step) && (step.CancelOwn? || step.Withdraw?)
    ensures Inv(Apply(s, step))
  {
    if step.CancelOwn? { CancelOwnStep(s, step.t); }
    CancelOwnKeeps(s, Apply(s, step), step.t);
  }

  lemma FinishStepKeeps(s: State, step: Step)
    requires Inv(s) && Enabled(s, step) && (step.Finish? || step.FinishEmpty?)
    ensures Inv(Apply(s, step))
  {
    FinishKeeps(s, Apply(s, step), step.t, if step.Finish? then s.threads[step.t].phase.k else |s.threads[step.t].op.chans|);
  }

  lemma StepKeeps(s: State, step: Step)
    requires Inv(s) && Enabled(s, step)
    ensures Inv(Apply(s, step))
  {
    if SchedulerStep(step) {
      SchedulerStepKeeps(s, step);
    } else if step.Begin? || step.Try? || step.EndLoop? {
      LoopStepKeeps(s, step);
    } else if step.CancelForPeer? || step.Wake? {
      CallbackStepKeeps(s, step);
    } else if step.CancelOwn? || step.Withdraw? {
      CancelStepKeeps(s, step);
    } else {
      FinishStepKeeps(s, step);
    }
  }

  lemma TryStep(s: State, t: nat)
    requires Inv(s) && Enabled(s, Try(t))
    ensures Tries(s, Apply(s, Try(t)), t, ChanEffect(s, t))
  {
    assert ThreadOk(s, t) && ChanOk(s, Target(s, t));
    CallerNotQueued(s, t);
    SendAllowed(s.chans[Target(s, t)], s.pend, Req(s, t));
    ReceiveAllowed(s.chans[Target(s, t)], s.pend, Req(s, t));
  }

  lemma CancelOwnStep(s: State, t: nat)
    requires OwnInv(s) && Enabled(s, CancelOwn(t))
    ensures CancelsOwn(s, Apply(s, CancelOwn(t)), t)
  {
    assert ThreadOk(s, t);
  }

  // ---- every run ----

  lemma RunStep(states: seq<State>, steps: seq<Step>, n: nat)
    requires IsRun(states, steps)
    ensures |states| == |steps| + 1 && states[0] == START
    ensures 0 < n < |states| ==> Enabled(states[n - 1], steps[n - 1]) && states[n] == Apply(states[n - 1], steps[n - 1])
  {
  }

  lemma {:induction false} RunsAreSafe(states: seq<State>, steps: seq<Step>, n: nat)
    requires IsRun(states, steps) && n < |states|
    ensures Inv(states[n])
  {
    if n > 0 {
      RunsAreSafe(states, steps, n - 1);
      StepKeeps(states[n - 1], steps[n - 1]);
    }
  }

  /** In every run, each finished operation took part in exactly one transfer and reports its index, a send giving
      up the word of its operand; only a non-blocking alt may report the channel count, and then nothing moved. */
  lemma ExactlyOneTransfer(states: seq<State>, steps: seq<Step>, n: nat, t: nat, i: nat)
    requires IsRun(states, steps) && n < |states| && t in states[n].threads && i < |states[n].threads[t].done|
    ensures var r := states[n].threads[t].done[i];
            || (|r.moved| == 1 && r.result == r.moved[0].index < |r.op.chans| == |r.op.vals|
                && (r.result < r.op.sends ==> r.moved[0].word == r.op.vals[r.result]))
            || (!r.op.blocking && r.moved == [] && r.result == |r.op.chans|)
  {
    RunsAreSafe(states, steps, n);
    assert ThreadOk(states[n], t);
  }

  /** A thread outside channel instructions has no request in any queue, a clear token and no callback on its way:
      setting the token again revives nothing. */
  lemma NextInstructionStartsClean(states: seq<State>, steps: seq<Step>, n: nat, t: nat)
    requires IsRun(states, steps) && n < |states|
    requires t in states[n].threads && states[n].threads[t].phase.Idle?
    ensures t !in states[n].pend
    ensures forall c :: c in states[n].chans ==> !Waits(states[n].chans[c], t)
    ensures forall h :: !Calls(states[n], h, t)
  {
    RunsAreSafe(states, steps, n);
    assert ThreadOk(states[n], t);
    NotWaiting(states[n], t);
    NotServed(states[n], t);
  }

  /** The thread has a request in the queue its operand m is served from. */
  predicate QueuedAt(s: State, t: nat, m: nat)
    requires t in s.threads && m < |s.threads[t].op.chans|
  {
    var op := s.threads[t].op;
    op.chans[m] in s.chans && Has(if m < op.sends then s.chans[op.chans[m]].senders else s.chans[op.chans[m]].receivers, t)
  }

  /** A wake-up is neither lost nor doubled: a thread in a blocked state has its token live and a request at every
      operand, or its token is spent and exactly one callback serves it. */
  lemma WakeUpsAreNeitherLostNorDoubled(states: seq<State>, steps: seq<Step>, n: nat, t: nat)
    requires IsRun(states, steps) && n < |states|
    requires t in states[n].threads && states[n].threads[t].phase.Waiting?
    ensures var s := states[n]; var op := s.threads[t].op;
            if t in s.pend then
              && (forall h :: !Calls(s, h, t))
              && (forall m :: 0 <= m < |op.chans| ==> QueuedAt(s, t, m))
            else
              && (exists h :: Calls(s, h, t))
              && (forall g, h :: Calls(s, g, t) && Calls(s, h, t) ==> g == h)
  {
    var s := states[n];
    RunsAreSafe(states, steps, n);
    assert ThreadOk(s, t);
    if t in s.pend {
      NotServed(s, t);
      forall m | 0 <= m < |s.threads[t].op.chans|
        ensures QueuedAt(s, t, m)
      {
        assert LiveOk(s, t, m);
      }
    }
  }

  /** When a callback gets the ownership lock, the scheduler finds its thread blocked and takes it. */
  lemma CallbackFindsThreadBlocked(states: seq<State>, steps: seq<Step>, n: nat, h: nat, p: nat)
    requires IsRun(states, steps) && n < |states| && Calls(states[n], h, p) && !Runs(states[n], p)
    ensures p in states[n].sched.blocked && Woken(states[n].sched, p).Kept?
  {
    RunsAreSafe(states, steps, n);
    assert CallOk(states[n], h);
    WakeFindsBlocked(states[n], h, p);
  }

  /** Nothing is lost, duplicated or reordered in a channel: what it gave out, then what it still buffers,
      is what it took; and its queues are as the code's comments promise. */
  lemma ChannelsAreFifo(states: seq<State>, steps: seq<Step>, n: nat, c: nat)
    requires IsRun(states, steps) && n < |states| && c in states[n].chans
    ensures var s := states[n]; var ch := s.chans[c];
            && c in s.got && c in s.sent && s.got[c] + ch.buf == s.sent[c]
            && (ch.receivers != [] ==> ch.buf == [] && ch.senders == [])
            && (ch.senders != [] ==> |ch.buf| == ch.cap)
  {
    RunsAreSafe(states, steps, n);
    assert ChanOk(states[n], c);
  }

  /** Each thread is runnable once, or blocked, or held by exactly one worker; a worker collects only when none is held. */
  lemma ThreadsHaveOnePlace(states: seq<State>, steps: seq<Step>, n: nat, t: nat)
    requires IsRun(states, steps) && n < |states| && t in states[n].threads
    ensures var d := states[n].sched;
            && d.running == |d.held| && Distinct(d.runnable)
            && (t in d.runnable || t in d.blocked || IsHeld(d, t))
            && !(t in d.runnable && t in d.blocked) && !(t in d.runnable && IsHeld(d, t)) && !(t in d.blocked && IsHeld(d, t))
            && (forall v, w :: v in d.held && w in d.held && d.held[v] == t == d.held[w] ==> v == w)
            && (forall w :: Collects(d, w) ==> d.held == map[])
  {
    RunsAreSafe(states, steps, n);
    forall w | Collects(states[n].sched, w) ensures states[n].sched.held == map[] {
      CollectsOnlyWhenNoneHeld(states[n].sched, w);
    }
  }

  /** The next step of the thread a worker holds. */
  function NextStep(s: State, w: nat): Step
    requires w in s.sched.held && s.sched.held[w] in s.threads
    requires s.threads[s.sched.held[w]].phase.Calling? ==> s.threads[s.sched.held[w]].phase.cb.peer in s.threads
  {
    var t := s.sched.held[w];
    match s.threads[t].phase
    case Idle => Return(w)
    case Waiting => Return(w)
    case Trying(order, i) => if i < |order| then Try(t) else EndLoop(t, true)
    case Calling(order, i, cb) => if cb.next < |s.threads[cb.peer].op.chans| then CancelForPeer(t) else Wake(t)
    case Cancelling(k, next, found) => if next < |s.threads[t].op.chans| then CancelOwn(t) else Finish(t)
    case Withdrawing(next) => if next < |s.threads[t].op.chans| then Withdraw(t) else FinishEmpty(t)
  }

  /** No guard of the model ever stops a held thread, except that a callback waits while another worker still holds
      its thread; that thread can move, so callbacks never wait in a circle. */
  lemma HeldThreadsCanMove(states: seq<State>, steps: seq<Step>, n: nat, w: nat)
    requires IsRun(states, steps) && n < |states| && w in states[n].sched.held
    ensures var s := states[n]; var t := s.sched.held[w];
            && t in s.threads
            && (s.threads[t].phase.Calling? ==> s.threads[t].phase.cb.peer in s.threads)
            && (|| Enabled(s, NextStep(s, w))
                || (&& s.threads[t].phase.Calling?
                    && exists v :: v in s.sched.held && s.sched.held[v] == s.threads[t].phase.cb.peer
                                   && !s.threads[s.sched.held[v]].phase.Calling? && Enabled(s, NextStep(s, v))))
  {
    RunsAreSafe(states, steps, n);
    HeldOrPeerMoves(states[n], w);
  }

  lemma HeldOrPeerMoves(s: State, w: nat)
    requires Inv(s) && w in s.sched.held
    ensures var t := s.sched.held[w];
            && t in s.threads
            && (s.threads[t].phase.Calling? ==> s.threads[t].phase.cb.peer in s.threads)
            && (|| Enabled(s, NextStep(s, w))
                || (&& s.threads[t].phase.Calling?
                    && exists v :: v in s.sched.held && s.sched.held[v] == s.threads[t].phase.cb.peer
                                   && !s.threads[s.sched.held[v]].phase.Calling? && Enabled(s, NextStep(s, v))))
  {
    var t := s.sched.held[w];
    assert IsHeld(s.sched, t);
    hide Enabled, NextStep;
    if s.threads[t].phase.Calling? {
      assert CallOk(s, t);
      var p := s.threads[t].phase.cb.peer;
      if IsHeld(s.sched, p) {
        var v :| v in s.sched.held && s.sched.held[v] == p;
        HeldMoves(s, v);
      } else {
        CallerMoves(s, w, p);
      }
    } else {
      HeldMoves(s, w);
    }
  }

  lemma CallerMoves(s: State, w: nat, p: nat)
    requires Inv(s) && w in s.sched.held && Calls(s, s.sched.held[w], p) && p in s.threads && !IsHeld(s.sched, p)
    ensures Enabled(s, NextStep(s, w))
  {
    var t := s.sched.held[w];
    assert CallOk(s, t) && ThreadOk(s, t) && ThreadOk(s, p);
    WakeFindsBlocked(s, t, p);
    CallerEnabled(s, w, p);
  }

  lemma CallerEnabled(s: State, w: nat, p: nat)
    requires w in s.sched.held && Calls(s, s.sched.held[w], p) && p in s.threads && !IsHeld(s.sched, p)
    requires ThreadOk(s, s.sched.held[w]) && CallOk(s, s.sched.held[w]) && WellFormed(s.threads[p].op, s.chans.Keys)
    requires Woken(s.sched, p).Kept?
    ensures Enabled(s, NextStep(s, w))
  {
  }

  lemma HeldMoves(s: State, w: nat)
    requires Inv(s) && w in s.sched.held && s.sched.held[w] in s.threads && !s.threads[s.sched.held[w]].phase.Calling?
    ensures Enabled(s, NextStep(s, w))
  {
    var t := s.sched.held[w];
    assert ThreadOk(s, t) && IsHeld(s.sched, t);
    hide Enabled, NextStep, ThreadOk;
    if s.threads[t].phase.Trying? && s.threads[t].phase.i < |s.threads[t].phase.order| {
      TryIsEnabled(s, t);
    } else {
      HeldEnabled(s, w);
    }
  }

  lemma HeldEnabled(s: State, w: nat)
    requires w in s.sched.held && s.sched.held[w] in s.threads && ThreadOk(s, s.sched.held[w])
    requires var ph := s.threads[s.sched.held[w]].phase; !ph.Calling? && !(ph.Trying? && ph.i < |ph.order|)
    ensures Enabled(s, NextStep(s, w))
  {
  }

  lemma TryIsEnabled(s: State, t: nat)
    requires Inv(s) && t in s.threads && IsHeld(s.sched, t)
    requires s.threads[t].phase.Trying? && s.threads[t].phase.i < |s.threads[t].phase.order|
    ensures Enabled(s, Try(t))
  {
    assert ThreadOk(s, t);
    var d := s.threads[t].op.chans[s.threads[t].phase.order[s.threads[t].phase.i]];
    assert ChanOk(s, d);
    CallerNotQueued(s, t);
    var e := ChanEffect(s, t);
    MatchedWaits(s, t);
    if e.outcome.Matched? { assert QueueOk(s, d, e.outcome.peer); }
  }

  lemma MatchedWaits(s: State, t: nat)
    requires t in s.threads && s.threads[t].phase.Trying? && CanTry(s, t)
    requires Settled(s.chans[Target(s, t)]) && !Waits(s.chans[Target(s, t)], t)
    ensures ChanEffect(s, t).outcome.Matched? ==> Waits(s.chans[Target(s, t)], ChanEffect(s, t).outcome.peer)
  {
    SendWaiters(s.chans[Target(s, t)], s.pend, Req(s, t), t);
    ReceiveWaiters(s.chans[Target(s, t)], s.pend, Req(s, t), t);
  }
}
