// When a non-blocking alt may report that nothing was ready, over every run.
module ProtocolAlts {
  import opened Channels
  import opened Scheduling
  import opened Protocol
  import opened ProtocolSafety
  import opened ProtocolTheorems

  /** In this step t calls the channel of its operand m, with its token live, finds neither a partner nor a word nor room,
      and its request is queued. */
  ghost predicate CallsInVain(s: State, step: Step, t: nat, m: nat) {
    && step == Try(t) && t in s.threads && s.threads[t].phase.Trying? && CanTry(s, t)
    && Index(s, t) == m && t in s.pend
    && ChanEffect(s, t).outcome == Queued && !CanServe(s.chans[Target(s, t)], s.pend, Sends(s, t))
  }

  /** Such a step between two others. */
  ghost predicate TriedInVain(states: seq<State>, steps: seq<Step>, b: nat, n: nat, t: nat, m: nat)
    requires n <= |steps| < |states|
  {
    exists j :: b < j < n && CallsInVain(states[j], steps[j], t, m)
  }

  /** The last step before n in which t begins an operation; -1 if there is none. */
  function BeginOf(steps: seq<Step>, n: nat, t: nat): (b: int)
    requires n <= |steps|
    ensures -1 <= b < n
    ensures b >= 0 ==> steps[b].Begin? && steps[b].t == t
    ensures forall j :: b < j < n && steps[j].Begin? ==> steps[j].t != t
  {
    if n == 0 then -1
    else if steps[n - 1].Begin? && steps[n - 1].t == t then n - 1
    else BeginOf(steps, n - 1, t)
  }

  /** The operands a thread must have tried: those before its place in the loop, or all once it withdraws. */
  predicate Passed(ph: Phase, m: nat) {
    match ph
    case Trying(order, i) => i <= |order| && m in order[..i]
    case Withdrawing(next) => true
    case _ => false
  }

  /** What the current operation of t is and what it did so far, if its token is live or it withdraws. */
  ghost predicate Tells(states: seq<State>, steps: seq<Step>, n: nat, t: nat)
    requires n <= |steps| < |states|
  {
    var s := states[n];
    t in s.threads && !s.threads[t].phase.Idle? ==>
      var b := BeginOf(steps, n, t);
      && b >= 0 && steps[b].op == s.threads[t].op
      && t in states[b].threads && |states[b].threads[t].done| == |s.threads[t].done|
      && (t in s.pend || s.threads[t].phase.Withdrawing? ==>
            forall m: nat :: m < |s.threads[t].op.chans| && Passed(s.threads[t].phase, m) ==>
              TriedInVain(states, steps, b, n, t, m))
  }

  // ---- what one step does to one thread ----

  predicate OwnStep(step: Step, t: nat) { !SchedulerStep(step) && step.t == t }

  /** A step that is not t's own leaves its operation alone, or ends it. */
  ghost predicate LeftAlone(s: State, s': State, t: nat) {
    t in s'.threads && !s'.threads[t].phase.Idle? ==>
      && t in s.threads && s'.threads[t].op == s.threads[t].op && s'.threads[t].phase == s.threads[t].phase
      && s'.threads[t].done == s.threads[t].done && (t in s'.pend ==> t in s.pend)
  }

  lemma OthersLeaveAlone(s: State, step: Step, t: nat)
    requires Inv(s) && Enabled(s, step) && !OwnStep(step, t)
    ensures LeftAlone(s, Apply(s, step), t)
  {
    if step.Try? {
      TryStep(s, step.t);
      TryShrinks(s, Apply(s, step), step.t, ChanEffect(s, step.t));
      hide Inv, Enabled, Apply;
      TryLeavesAlone(s, Apply(s, step), step.t, ChanEffect(s, step.t), t);
    } else {
      hide Inv;
      OtherLeavesAlone(s, step, t);
    }
  }

  lemma TryLeavesAlone(s: State, s': State, u: nat, e: Effect, t: nat)
    requires Tries(s, s', u, e) && s'.pend <= s.pend && t != u
    ensures LeftAlone(s, s', t)
  {
    hide Allowed;
  }

  lemma OtherLeavesAlone(s: State, step: Step, t: nat)
    requires Enabled(s, step) && !OwnStep(step, t) && !step.Try?
    ensures LeftAlone(s, Apply(s, step), t)
  {
  }

  /** What an own step of t leaves when it does not end the operation. */
  ghost predicate MovesOn(s: State, s': State, step: Step, t: nat) {
    t in s'.threads && !s'.threads[t].phase.Idle? ==>
      && t in s.threads && s'.threads[t].done == s.threads[t].done
      && if step.Begin? then s'.threads[t].op == step.op && s'.threads[t].phase == Trying(step.order, 0)
         else
           && s'.threads[t].op == s.threads[t].op && !s.threads[t].phase.Idle?
           && match s'.threads[t].phase
              case Trying(order, i) => 0 < i <= |order| && s.threads[t].phase == Trying(order, i - 1)
                                       && (t in s'.pend ==> t in s.pend && CallsInVain(s, step, t, order[i - 1]))
              case Withdrawing(next) => s.threads[t].phase.Withdrawing?
                                        || (s.threads[t].phase.Trying? && t in s.pend
                                            && s.threads[t].phase.i == |s.threads[t].phase.order|)
              case _ => true
  }

  lemma OwnMovesOn(s: State, step: Step, t: nat)
    requires Inv(s) && Enabled(s, step) && OwnStep(step, t)
    ensures MovesOn(s, Apply(s, step), step, t)
  {
    if step.Try? {
      TryStep(s, t);
      hide Inv, Enabled, Apply;
      TryMovesOn(s, Apply(s, step), t);
    } else {
      hide Inv;
      OtherMovesOn(s, step, t);
    }
  }

  lemma TryMovesOn(s: State, s': State, t: nat)
    requires t in s.threads && s.threads[t].phase.Trying? && CanTry(s, t) && Tries(s, s', t, ChanEffect(s, t))
    ensures MovesOn(s, s', Try(t), t)
  {
    TryOutcome(s, t);
    var e := ChanEffect(s, t);
    hide Allowed, CanServe, ChanEffect;
    match e.outcome {
      case NotPending =>
      case Queued =>
      case Buffered(v) => assert !s'.threads[t].phase.Trying? && !s'.threads[t].phase.Withdrawing?;
      case Matched(p, v, w) => assert s'.threads[t].phase.Calling?;
    }
  }

  lemma TryOutcome(s: State, t: nat)
    requires t in s.threads && s.threads[t].phase.Trying? && CanTry(s, t)
    ensures var e := ChanEffect(s, t);
            && (e.outcome == NotPending <==> t !in s.pend)
            && (e.outcome == NotPending || e.outcome == Queued ==> e.pend == s.pend)
            && (t in s.pend ==> (e.outcome == Queued <==> !CanServe(s.chans[Target(s, t)], s.pend, Sends(s, t))))
  {
    if t in s.pend { WaitsIffNotServed(s.chans[Target(s, t)], s.pend, Req(s, t)); }
  }

  lemma OtherMovesOn(s: State, step: Step, t: nat)
    requires Enabled(s, step) && OwnStep(step, t) && !step.Try?
    ensures MovesOn(s, Apply(s, step), step, t)
  {
  }

  // ---- over every run ----

  lemma {:induction false} RunsTell(states: seq<State>, steps: seq<Step>, n: nat, t: nat)
    requires IsRun(states, steps) && n <= |steps|
    ensures Tells(states, steps, n, t)
  {
    hide Inv, Enabled, Apply, IsRun, Tells, LeftAlone, MovesOn;
    RunStep(states, steps, n);
    if n == 0 {
      NothingToTell(states, steps, t);
    } else {
      var s, step := states[n - 1], steps[n - 1];
      RunsTell(states, steps, n - 1, t);
      RunsAreSafe(states, steps, n - 1);
      if OwnStep(step, t) {
        OwnMovesOn(s, step, t);
        LoopIsComplete(s, t);
        OwnTells(states, steps, n, t);
      } else {
        OthersLeaveAlone(s, step, t);
        OthersTell(states, steps, n, t);
      }
    }
  }

  lemma NothingToTell(states: seq<State>, steps: seq<Step>, t: nat)
    requires |steps| < |states| && states[0] == START
    ensures Tells(states, steps, 0, t)
  {
  }

  lemma OthersTell(states: seq<State>, steps: seq<Step>, n: nat, t: nat)
    requires 0 < n <= |steps| < |states| && Tells(states, steps, n - 1, t)
    requires LeftAlone(states[n - 1], states[n], t) && !OwnStep(steps[n - 1], t)
    ensures Tells(states, steps, n, t)
  {
    var s := states[n];
    if t in s.threads && !s.threads[t].phase.Idle? {
      var b := BeginOf(steps, n, t);
      assert b == BeginOf(steps, n - 1, t);
      forall m: nat | TriedInVain(states, steps, b, n - 1, t, m) ensures TriedInVain(states, steps, b, n, t, m) {}
    }
  }

  /** The loop covers every operand. */
  predicate Complete(th: Thread) {
    th.phase.Trying? ==> forall m :: 0 <= m < |th.op.chans| ==> m in th.phase.order
  }

  lemma LoopIsComplete(s: State, t: nat)
    requires Inv(s)
    ensures t in s.threads ==> Complete(s.threads[t])
  {
    if t in s.threads { assert ThreadOk(s, t); }
  }

  lemma OwnTells(states: seq<State>, steps: seq<Step>, n: nat, t: nat)
    requires 0 < n <= |steps| < |states| && Tells(states, steps, n - 1, t)
    requires MovesOn(states[n - 1], states[n], steps[n - 1], t) && OwnStep(steps[n - 1], t)
    requires t in states[n - 1].threads ==> Complete(states[n - 1].threads[t])
    ensures Tells(states, steps, n, t)
  {
    var s, s' := states[n - 1], states[n];
    if t in s'.threads && !s'.threads[t].phase.Idle? && !steps[n - 1].Begin? {
      var b := BeginOf(steps, n, t);
      assert b == BeginOf(steps, n - 1, t);
      if t in s'.pend || s'.threads[t].phase.Withdrawing? {
        forall m: nat | m < |s'.threads[t].op.chans| && Passed(s'.threads[t].phase, m)
          ensures TriedInVain(states, steps, b, n, t, m)
        {
          OwnTellsOf(states, steps, n, b, t, m);
        }
      }
    }
  }

  lemma OwnTellsOf(states: seq<State>, steps: seq<Step>, n: nat, b: nat, t: nat, m: nat)
    requires 0 < n <= |steps| < |states| && b < n - 1
    requires MovesOn(states[n - 1], states[n], steps[n - 1], t) && !steps[n - 1].Begin?
    requires t in states[n - 1].threads && t in states[n].threads && Passed(states[n].threads[t].phase, m)
    requires states[n].threads[t].phase.Trying? ==> t in states[n].pend
    requires states[n - 1].threads[t].phase.Trying? ==> m in states[n - 1].threads[t].phase.order
    requires t in states[n - 1].pend || states[n - 1].threads[t].phase.Withdrawing? ==>
               (Passed(states[n - 1].threads[t].phase, m) ==> TriedInVain(states, steps, b, n - 1, t, m))
    ensures TriedInVain(states, steps, b, n, t, m)
  {
    var s, s' := states[n - 1], states[n];
    hide CallsInVain, TriedInVain;
    if s.threads[t].phase.Trying? && s.threads[t].phase.i == |s.threads[t].phase.order| {
      assert s.threads[t].phase.order[..s.threads[t].phase.i] == s.threads[t].phase.order;
    }
    if Passed(s.threads[t].phase, m) && (t in s.pend || s.threads[t].phase.Withdrawing?) {
      StillTried(states, steps, n, b, t, m);
    } else if s'.threads[t].phase.Trying? {
      var order, i := s'.threads[t].phase.order, s'.threads[t].phase.i;
      assert order[..i] == order[..i - 1] + [order[i - 1]];
      JustTried(states, steps, n, b, t, m);
    }
  }

  lemma StillTried(states: seq<State>, steps: seq<Step>, n: nat, b: nat, t: nat, m: nat)
    requires 0 < n <= |steps| < |states| && TriedInVain(states, steps, b, n - 1, t, m)
    ensures TriedInVain(states, steps, b, n, t, m)
  {
  }

  lemma JustTried(states: seq<State>, steps: seq<Step>, n: nat, b: nat, t: nat, m: nat)
    requires 0 < n <= |steps| < |states| && b < n - 1 && CallsInVain(states[n - 1], steps[n - 1], t, m)
    ensures TriedInVain(states, steps, b, n, t, m)
  {
  }

  /** Steps b and e are the begin and the end of an operation of t that called each of its channels in vain. */
  ghost predicate EmptyAlt(states: seq<State>, steps: seq<Step>, b: nat, e: nat, t: nat, op: Op)
    requires |steps| < |states|
  {
    && b < e < |steps| && steps[b].Begin? && steps[b].t == t && steps[b].op == op && !op.blocking && steps[e] == FinishEmpty(t)
    && forall m: nat :: m < |op.chans| ==> TriedInVain(states, steps, b, e, t, m)
  }

  /** Step e + 1 is where the record was made, and b where its operation began. */
  ghost predicate Recorded(states: seq<State>, b: nat, e: nat, t: nat, done: seq<Record>, i: nat) {
    && b < e + 1 < |states| && t in states[b].threads && t in states[e + 1].threads && i < |done|
    && |states[b].threads[t].done| == i && states[e + 1].threads[t].done == done[..i + 1]
  }

  /** In this step t's records stay, or one is added; one without a transfer only at the end of a withdrawal. */
  ghost predicate DoneGrows(s: State, s': State, step: Step, t: nat) {
    t in s'.threads ==>
      if t !in s.threads then s'.threads[t].done == []
      else
        || s'.threads[t].done == s.threads[t].done
        || exists r: Record :: s'.threads[t].done == s.threads[t].done + [r]
                   && r.op == s.threads[t].op && !s.threads[t].phase.Idle?
                   && (r.moved == [] ==> step == FinishEmpty(t) && s.threads[t].phase.Withdrawing?)
  }

  lemma RecordStep(s: State, step: Step, t: nat)
    requires Inv(s) && Enabled(s, step)
    ensures DoneGrows(s, Apply(s, step), step, t)
  {
    hide Inv, Enabled, Apply, DoneGrows;
    if step.Try? {
      TryGrows(s, step.t, t);
    } else if step.Wake? {
      WakeGrows(s, step.t, t);
    } else {
      OtherGrows(s, step, t);
    }
  }

  lemma TryGrows(s: State, u: nat, t: nat)
    requires Inv(s) && Enabled(s, Try(u))
    ensures DoneGrows(s, Apply(s, Try(u)), Try(u), t)
  {
    TryStep(s, u);
    hide Inv, Enabled, Apply;
    TryRecords(s, Apply(s, Try(u)), u, ChanEffect(s, u), t);
  }

  lemma WakeGrows(s: State, h: nat, t: nat)
    requires Inv(s) && Enabled(s, Wake(h))
    ensures DoneGrows(s, Apply(s, Wake(h)), Wake(h), t)
  {
    ThreadIs(s, h);
    hide Inv;
    WakeRecords(s, h, t);
  }

  lemma OtherGrows(s: State, step: Step, t: nat)
    requires Inv(s) && Enabled(s, step) && !step.Try? && !step.Wake?
    ensures DoneGrows(s, Apply(s, step), step, t)
  {
    if step.Finish? { ThreadIs(s, step.t); }
    hide Inv;
    OtherRecords(s, step, t);
  }

  lemma ThreadIs(s: State, t: nat)
    requires Inv(s) && t in s.threads
    ensures s.threads[t].phase.Cancelling? ==> s.threads[t].moved != []
    ensures s.threads[t].phase.Calling? ==> CallOk(s, t)
  {
    assert ThreadOk(s, t);
  }

  lemma TryRecords(s: State, s': State, u: nat, e: Effect, t: nat)
    requires Tries(s, s', u, e)
    ensures DoneGrows(s, s', Try(u), t)
  {
    hide Allowed;
  }

  lemma WakeRecords(s: State, h: nat, t: nat)
    requires Enabled(s, Wake(h)) && CallOk(s, h)
    ensures DoneGrows(s, Apply(s, Wake(h)), Wake(h), t)
  {
  }

  lemma OtherRecords(s: State, step: Step, t: nat)
    requires Enabled(s, step) && !step.Try? && !step.Wake? && (step.Finish? ==> s.threads[step.t].moved != [])
    ensures DoneGrows(s, Apply(s, step), step, t)
  {
  }

  /** A withdrawal that ends in step e, with what its thread did before. */
  lemma EmptyEnds(states: seq<State>, steps: seq<Step>, e: nat, t: nat, i: nat)
    requires e < |steps| == |states| - 1 && Tells(states, steps, e, t) && steps[e] == FinishEmpty(t)
    requires t in states[e].threads && states[e].threads[t].phase.Withdrawing? && |states[e].threads[t].done| == i
    requires t in states[e + 1].threads && |states[e + 1].threads[t].done| == i + 1 && !states[e].threads[t].op.blocking
    ensures var b := BeginOf(steps, e, t);
            b >= 0 && EmptyAlt(states, steps, b, e, t, states[e].threads[t].op)
            && Recorded(states, b, e, t, states[e + 1].threads[t].done, i)
  {
    var done := states[e + 1].threads[t].done;
    assert done[..i + 1] == done;
  }

  /** Over every run: an operation that moved nothing and reports the number of its channels was a non-blocking alt which,
      between its begin and its end, called each of its channels and found none that could serve it at the time. */
  lemma {:induction false} EmptyAltTriedAll(states: seq<State>, steps: seq<Step>, n: nat, t: nat, i: nat)
    requires IsRun(states, steps) && n < |states| && t in states[n].threads
    requires i < |states[n].threads[t].done| && states[n].threads[t].done[i].moved == []
    ensures exists b: nat, e: nat ::
      EmptyAlt(states, steps, b, e, t, states[n].threads[t].done[i].op) && Recorded(states, b, e, t, states[n].threads[t].done, i)
  {
    hide Inv, Enabled, Apply, IsRun, Tells;
    RunStep(states, steps, n);
    if n == 0 {
      assert false;
    } else {
      var s, step := states[n - 1], steps[n - 1];
      RunsAreSafe(states, steps, n - 1);
      RecordStep(s, step, t);
      if i < |s.threads[t].done| {
        EmptyAltTriedAll(states, steps, n - 1, t, i);
        assert states[n].threads[t].done[..i + 1] == s.threads[t].done[..i + 1];
      } else {
        RunsTell(states, steps, n - 1, t);
        ExactlyOneTransfer(states, steps, n, t, i);
        EmptyEnds(states, steps, n - 1, t, i);
      }
    }
  }

  // ---- the converse ----

  /** From b to e only t and the scheduler act, and t begins nothing else. */
  ghost predicate Undisturbed(steps: seq<Step>, b: nat, e: nat, t: nat) {
    b < e < |steps| && forall j :: b < j <= e ==> (SchedulerStep(steps[j]) || OwnStep(steps[j], t)) && !steps[j].Begin?
  }

  /** Until t calls its operand m, channel and tokens are as they were in s0. */
  ghost predicate Untried(s0: State, s: State, t: nat, op: Op, m: nat)
    requires m < |op.chans| && op.chans[m] in s0.chans
  {
    t in s.threads && s.threads[t].phase.Trying? && t in s.pend && !Passed(s.threads[t].phase, m) ==>
      && s.threads[t].op == op && op.chans[m] in s.chans
      && s.chans[op.chans[m]] == s0.chans[op.chans[m]] && s.pend == s0.pend + {t}
  }

  lemma UntriedStep(s0: State, s: State, step: Step, t: nat, op: Op, m: nat)
    requires Inv(s) && Enabled(s, step) && m < |op.chans| && op.chans[m] in s0.chans && Distinct(op.chans)
    requires Untried(s0, s, t, op, m) && (SchedulerStep(step) || OwnStep(step, t)) && !step.Begin?
    ensures Untried(s0, Apply(s, step), t, op, m)
  {
    if step.Try? {
      TryStep(s, t);
      OwnMovesOn(s, step, t);
      TryShrinks(s, Apply(s, step), t, ChanEffect(s, t));
      hide Inv, Enabled, Apply;
      UntriedTry(s0, s, Apply(s, step), t, op, m);
    } else {
      hide Inv;
      UntriedOther(s0, s, step, t, op, m);
    }
  }

  lemma UntriedTry(s0: State, s: State, s': State, t: nat, op: Op, m: nat)
    requires t in s.threads && s.threads[t].phase.Trying? && CanTry(s, t)
    requires MovesOn(s, s', Try(t), t) && s'.pend == ChanEffect(s, t).pend
    requires s'.chans == s.chans[Target(s, t) := ChanEffect(s, t).chan]
    requires m < |op.chans| && op.chans[m] in s0.chans && Distinct(op.chans) && Untried(s0, s, t, op, m)
    ensures Untried(s0, s', t, op, m)
  {
    if t in s'.threads && s'.threads[t].phase.Trying? && t in s'.pend && !Passed(s'.threads[t].phase, m) {
      var order, i := s'.threads[t].phase.order, s'.threads[t].phase.i;
      assert order[..i] == order[..i - 1] + [order[i - 1]];
    }
  }

  lemma UntriedOther(s0: State, s: State, step: Step, t: nat, op: Op, m: nat)
    requires Enabled(s, step) && !step.Try? && !step.Begin? && (SchedulerStep(step) || OwnStep(step, t))
    requires m < |op.chans| && op.chans[m] in s0.chans && Untried(s0, s, t, op, m)
    ensures Untried(s0, Apply(s, step), t, op, m)
  {
  }

  lemma UntriedStarts(s: State, step: Step, m: nat)
    requires Enabled(s, step) && step.Begin? && m < |step.op.chans| && step.op.chans[m] in s.chans
    ensures Untried(s, Apply(s, step), step.t, step.op, m)
  {
  }

  lemma {:induction false} UntriedRun(states: seq<State>, steps: seq<Step>, b: nat, j: nat, e: nat, t: nat, m: nat)
    requires IsRun(states, steps) && Undisturbed(steps, b, e, t) && b < j <= e
    requires steps[b].Begin? && steps[b].t == t && WellFormed(steps[b].op, states[b].chans.Keys) && m < |steps[b].op.chans|
    ensures Untried(states[b], states[j], t, steps[b].op, m)
  {
    hide Inv, Apply, IsRun, Untried;
    RunStep(states, steps, j);
    if j == b + 1 {
      UntriedStarts(states[b], steps[b], m);
    } else {
      hide Enabled;
      UntriedRun(states, steps, b, j - 1, e, t, m);
      RunsAreSafe(states, steps, j - 1);
      UntriedStep(states[b], states[j - 1], steps[j - 1], t, steps[b].op, m);
    }
  }

  /** An operation, non-blocking or not, with an operand that can be served when it begins makes its one transfer, if no other
      thread acts before it ends. */
  lemma ServableAltMoves(states: seq<State>, steps: seq<Step>, b: nat, e: nat, t: nat, m: nat)
    requires IsRun(states, steps) && Undisturbed(steps, b, e, t)
    requires steps[b].Begin? && steps[b].t == t && Enabled(states[b], steps[b]) && m < |steps[b].op.chans|
    requires CanServe(states[b].chans[steps[b].op.chans[m]], states[b].pend, m < steps[b].op.sends)
    requires t in states[e].threads && t in states[e + 1].threads && states[e + 1].threads[t].done != states[e].threads[t].done
    ensures var i := |states[e].threads[t].done|; var done := states[e + 1].threads[t].done;
            |done| == i + 1 && done[i].op == steps[b].op && |done[i].moved| == 1
  {
    hide Inv, Enabled, Apply, IsRun, CanServe, Untried, CallsInVain;
    RunStep(states, steps, e + 1);
    RunsAreSafe(states, steps, e);
    RecordStep(states[e], steps[e], t);
    RunsTell(states, steps, e, t);
    assert BeginOf(steps, e, t) == b;
    var i := |states[e].threads[t].done|;
    ExactlyOneTransfer(states, steps, e + 1, t, i);
    if states[e + 1].threads[t].done[i].moved == [] {
      assert TriedInVain(states, steps, b, e, t, m);
      var j :| b < j < e && CallsInVain(states[j], steps[j], t, m);
      RunsAreSafe(states, steps, b);
      RunsAreSafe(states, steps, j);
      BeginsWellFormed(states[b], steps[b]);
      UntriedRun(states, steps, b, j, e, t, m);
      VainIsUnserved(states[b], states[j], steps[j], t, steps[b].op, m);
    }
  }

  lemma BeginsWellFormed(s: State, step: Step)
    requires Enabled(s, step) && step.Begin?
    ensures WellFormed(step.op, s.chans.Keys) && step.t in s.threads && s.threads[step.t].phase.Idle?
  {
  }

  /** Whether a channel can serve a thread that does not wait there does not depend on the thread's own token. */
  lemma OwnTokenServesNobody(c: Chan, pend: set<nat>, t: nat, send: bool)
    requires !Waits(c, t)
    ensures CanServe(c, pend + {t}, send) <==> CanServe(c, pend, send)
  {
    assert pend + {t} - {t} == pend - {t};
    NoneLive(c.senders, pend + {t}, t);
    NoneLive(c.receivers, pend + {t}, t);
    NoneLive(c.senders, pend, t);
    NoneLive(c.receivers, pend, t);
  }

  lemma FirstCall(s: State, step: Step, t: nat, m: nat)
    requires Inv(s) && CallsInVain(s, step, t, m)
    ensures !Passed(s.threads[t].phase, m)
  {
    assert ThreadOk(s, t);
  }

  lemma VainIsUnserved(s0: State, s: State, step: Step, t: nat, op: Op, m: nat)
    requires Inv(s0) && Inv(s) && t in s0.threads && s0.threads[t].phase.Idle? && m < |op.chans| && op.chans[m] in s0.chans
    requires CallsInVain(s, step, t, m) && Untried(s0, s, t, op, m)
    ensures !CanServe(s0.chans[op.chans[m]], s0.pend, m < op.sends)
  {
    FirstCall(s, step, t, m);
    NotWaiting(s0, t);
    hide Inv, QueueInv, ChanEffect, CanServe;
    OwnTokenServesNobody(s0.chans[op.chans[m]], s0.pend, t, m < op.sends);
  }
}
