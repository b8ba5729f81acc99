// Turns over every run: which thread a worker picks, and when it collects.
module ProtocolTurns {
  import opened Channels
  import opened Scheduling
  import opened Protocol
  import opened ProtocolSafety
  import opened ProtocolTheorems

  // ---- runnable threads take turns ----

  ghost predicate Becomes(s: State, s': State, t: nat) { t !in s.sched.runnable && t in s'.sched.runnable }

  /** The last step, before n, in which t became runnable; -1 if there is none. */
  ghost function RunnableSince(states: seq<State>, n: nat, t: nat): (k: int)
    requires n < |states|
    ensures -1 <= k < n
    ensures k >= 0 ==> Becomes(states[k], states[k + 1], t)
    ensures forall j :: k < j < n ==> !Becomes(states[j], states[j + 1], t)
  {
    if n == 0 then -1
    else if Becomes(states[n - 1], states[n], t) then n - 1
    else RunnableSince(states, n - 1, t)
  }

  /** In one step the queue stays, loses its first thread, or gets a new last one. */
  ghost predicate QueueMoves(s: State, s': State) {
    var q, q' := s.sched.runnable, s'.sched.runnable;
    q' == q || (q != [] && q' == q[1..]) || exists t :: t !in q && q' == q + [t]
  }

  lemma StepMovesQueue(s: State, step: Step)
    requires Inv(s) && Enabled(s, step)
    ensures QueueMoves(s, Apply(s, step))
  {
    if step.Try? {
      TryLeavesSched(s, step.t);
    } else {
      NotRunnable(s);
      hide Inv;
      OtherMovesQueue(s, step);
    }
  }

  lemma TryLeavesSched(s: State, t: nat)
    requires Inv(s) && Enabled(s, Try(t))
    ensures Apply(s, Try(t)).sched == s.sched
  {
    TryStep(s, t);
    hide Inv, Enabled, Apply;
    TryShrinks(s, Apply(s, Try(t)), t, ChanEffect(s, t));
  }

  /** What enters the queue is not in it. */
  ghost predicate Outside(s: Sched) {
    && (forall w :: w in s.held ==> s.held[w] !in s.runnable)
    && (forall t :: t in s.blocked ==> t !in s.runnable)
    && (forall t :: t in s.runnable ==> t in s.all)
  }

  lemma NotRunnable(s: State)
    requires OnePlace(s.sched)
    ensures Outside(s.sched)
  {
    forall w | w in s.sched.held ensures s.sched.held[w] !in s.sched.runnable { assert IsHeld(s.sched, s.sched.held[w]); }
  }

  lemma OtherMovesQueue(s: State, step: Step)
    requires Enabled(s, step) && !step.Try? && Outside(s.sched)
    ensures QueueMoves(s, Apply(s, step))
  {
  }

  /** The threads of q have become runnable in that order. */
  ghost predicate InTurn(states: seq<State>, n: nat, q: seq<nat>)
    requires n < |states|
  {
    && (forall i :: 0 <= i < |q| ==> RunnableSince(states, n, q[i]) >= 0)
    && (forall i, j :: 0 <= i < j < |q| ==> RunnableSince(states, n, q[i]) < RunnableSince(states, n, q[j]))
  }

  lemma OldStays(states: seq<State>, n: nat)
    requires 0 < n < |states| && InTurn(states, n - 1, states[n - 1].sched.runnable)
    ensures InTurn(states, n, states[n - 1].sched.runnable)
  {
    var q := states[n - 1].sched.runnable;
    forall i | 0 <= i < |q| ensures RunnableSince(states, n, q[i]) == RunnableSince(states, n - 1, q[i]) { assert q[i] in q; }
  }

  lemma FirstGoes(states: seq<State>, n: nat, q: seq<nat>)
    requires n < |states| && InTurn(states, n, q) && q != []
    ensures InTurn(states, n, q[1..])
  {
    hide RunnableSince;
    var r := q[1..];
    assert forall i :: 0 <= i < |r| ==> r[i] == q[i + 1];
  }

  lemma LastComes(states: seq<State>, n: nat, q: seq<nat>, t: nat)
    requires 0 < n < |states| && InTurn(states, n, q) && RunnableSince(states, n, t) == n - 1
    requires forall i :: 0 <= i < |q| ==> RunnableSince(states, n, q[i]) < n - 1
    ensures InTurn(states, n, q + [t])
  {
    hide RunnableSince;
    var r := q + [t];
    assert forall i :: 0 <= i < |q| ==> r[i] == q[i];
  }

  lemma StaysInTurn(states: seq<State>, n: nat)
    requires 0 < n < |states| && InTurn(states, n - 1, states[n - 1].sched.runnable) && QueueMoves(states[n - 1], states[n])
    ensures InTurn(states, n, states[n].sched.runnable)
  {
    var q, q' := states[n - 1].sched.runnable, states[n].sched.runnable;
    OldStays(states, n);
    if q != [] && q' == q[1..] {
      FirstGoes(states, n, q);
    } else if q' != q {
      var t :| t !in q && q' == q + [t];
      NewLast(states, n, t);
      forall i | 0 <= i < |q| ensures RunnableSince(states, n, q[i]) < n - 1 { assert q[i] in q; }
      LastComes(states, n, q, t);
    }
  }

  lemma NewLast(states: seq<State>, n: nat, t: nat)
    requires 0 < n < |states| && t !in states[n - 1].sched.runnable
    requires states[n].sched.runnable == states[n - 1].sched.runnable + [t]
    ensures RunnableSince(states, n, t) == n - 1
  {
    assert states[n].sched.runnable[|states[n - 1].sched.runnable|] == t;
  }

  lemma {:induction false} QueueIsInTurn(states: seq<State>, steps: seq<Step>, n: nat)
    requires IsRun(states, steps) && n < |states|
    ensures InTurn(states, n, states[n].sched.runnable)
  {
    hide Inv, Enabled, Apply, IsRun, QueueMoves;
    RunStep(states, steps, n);
    if n > 0 {
      QueueIsInTurn(states, steps, n - 1);
      RunsAreSafe(states, steps, n - 1);
      StepMovesQueue(states[n - 1], steps[n - 1]);
      StaysInTurn(states, n);
    }
  }

  /** Over every run a worker picks, of all runnable threads, the one that became runnable first. */
  lemma LongestRunnableIsPicked(states: seq<State>, steps: seq<Step>, n: nat, w: nat, u: nat)
    requires IsRun(states, steps) && n < |steps| && steps[n] == Pick(w) && u in states[n].sched.runnable
    ensures w in states[n + 1].sched.held
    ensures var t := states[n + 1].sched.held[w];
            t == u || 0 <= RunnableSince(states, n, t) < RunnableSince(states, n, u)
  {
    RunStep(states, steps, n + 1);
    QueueIsInTurn(states, steps, n);
    hide Inv, IsRun;
    PicksFirst(states[n], w);
    var q := states[n].sched.runnable;
    var i :| 0 <= i < |q| && q[i] == u;
  }

  lemma PicksFirst(s: State, w: nat)
    requires Enabled(s, Pick(w))
    ensures s.sched.runnable != [] && w in Apply(s, Pick(w)).sched.held
    ensures Apply(s, Pick(w)).sched.held[w] == s.sched.runnable[0]
  {
  }

  // ---- collections ----

  function PicksBefore(steps: seq<Step>, n: nat): nat
    requires n <= |steps|
  {
    if n == 0 then 0 else PicksBefore(steps, n - 1) + (if steps[n - 1].Pick? then 1 else 0)
  }

  lemma StepCountsPicks(s: State, step: Step)
    requires Inv(s) && Enabled(s, step)
    ensures Apply(s, step).sched.picks == s.sched.picks + (if step.Pick? then 1 else 0)
  {
    if step.Try? {
      TryLeavesSched(s, step.t);
    } else {
      hide Inv;
      OtherCountsPicks(s, step);
    }
  }

  lemma OtherCountsPicks(s: State, step: Step)
    requires Enabled(s, step) && !step.Try?
    ensures Apply(s, step).sched.picks == s.sched.picks + (if step.Pick? then 1 else 0)
  {
  }

  lemma {:induction false} PicksAreCounted(states: seq<State>, steps: seq<Step>, n: nat)
    requires IsRun(states, steps) && n < |states|
    ensures states[n].sched.picks == 1 + PicksBefore(steps, n)
  {
    hide Inv, Enabled, Apply, IsRun;
    RunStep(states, steps, n);
    if n > 0 {
      PicksAreCounted(states, steps, n - 1);
      RunsAreSafe(states, steps, n - 1);
      StepCountsPicks(states[n - 1], steps[n - 1]);
    }
  }

  /** Over every run a worker that has not waited for a collection collects before its pick exactly when 255, 511, 767 and so on
      threads have been picked before; no thread is held then. */
  lemma CollectsEvery256Picks(states: seq<State>, steps: seq<Step>, n: nat, w: nat)
    requires IsRun(states, steps) && n < |steps| && steps[n] == Pick(w) && w !in states[n].sched.gcWaiters
    ensures Collects(states[n].sched, w) <==> (PicksBefore(steps, n) + 1) % 256 == 0
    ensures Collects(states[n].sched, w) ==> states[n].sched.held == map[]
  {
    RunStep(states, steps, n + 1);
    PicksAreCounted(states, steps, n);
    RunsAreSafe(states, steps, n);
    if Collects(states[n].sched, w) { CollectsOnlyWhenNoneHeld(states[n].sched, w); }
  }
}
