// The thread scheduler (src/vm/scheduler.cpp) and the loop in which a worker executes one thread
// (src/vm/thread.cpp). The functions describe one section under the scheduler's lock; the class
// `Scheduler` is the code that works on its fields.
module Scheduling {

  datatype ThreadState =
    | Unknown | BlockedInAlt | BlockedSending | BlockedReceiving
    | Debug | Ready | Running | Release | Exiting | EmptyStack | Broken

  /** All threads, the runnable queue, the blocked set, which worker holds which thread, the running count,
      the pick counter that decides when to collect, and the workers that wait for a collection. */
  datatype Sched = Sched(
    all: set<nat>, runnable: seq<nat>, blocked: set<nat>, held: map<nat, nat>, running: int,
    picks: nat, gcWaiters: set<nat>, gcComplete: bool)

  /** How an enqueue ends: it is kept, it ends the whole machine (a broken thread), or the state is refused. */
  datatype Enqueued = Kept(s: Sched) | Terminates | Refused

  predicate Blocks(st: ThreadState) { st.BlockedInAlt? || st.BlockedSending? || st.BlockedReceiving? }

  function Enqueue(s: Sched, t: nat, st: ThreadState): Enqueued {
    if st.Ready? || st.Debug? then Kept(s.(runnable := s.runnable + [t]))
    else if Blocks(st) then Kept(s.(blocked := s.blocked + {t}))
    else if st.EmptyStack? || st.Exiting? then Kept(s.(all := s.all - {t}))
    else if st.Broken? then Terminates
    else Refused
  }

  /** A worker gives back the thread it held, in the state its execution ended in. */
  function PutBack(s: Sched, w: nat, st: ThreadState): Enqueued
    requires w in s.held
  {
    Enqueue(s.(held := s.held - {w}, running := s.running - 1), s.held[w], st)
  }

  predicate CollectionDue(s: Sched) { s.picks % 256 == 0 }

  /** What a free worker does with the lock held: it collects, waits for another worker to collect, or passes. */
  predicate Collects(s: Sched, w: nat) { w !in s.gcWaiters && CollectionDue(s) && s.running == 0 }

  predicate MustWait(s: Sched, w: nat) { w !in s.gcWaiters && CollectionDue(s) && s.running != 0 }

  predicate MayPick(s: Sched, w: nat) {
    w !in s.held && s.runnable != [] && !MustWait(s, w) && (w in s.gcWaiters ==> s.gcComplete)
  }

  function Collected(s: Sched): Sched { s.(gcComplete := true) }

  function WaitsForGc(s: Sched, w: nat): Sched { s.(gcComplete := false, gcWaiters := s.gcWaiters + {w}) }

  function Picked(s: Sched, w: nat): Sched
    requires MayPick(s, w)
  {
    Taken(if Collects(s, w) then Collected(s) else s, w)
  }

  function Taken(s: Sched, w: nat): Sched
    requires s.runnable != []
  {
    s.(runnable := s.runnable[1..], held := s.held[w := s.runnable[0]], running := s.running + 1,
       picks := s.picks + 1, gcWaiters := s.gcWaiters - {w})
  }

  function Scheduled(s: Sched, t: nat): Sched {
    s.(all := s.all + {t}, runnable := s.runnable + [t])
  }

  /** Moves a thread from the blocked set to the runnable queue; refused when it is not blocked. */
  function Woken(s: Sched, t: nat): Enqueued {
    if t !in s.blocked then Refused else Enqueue(s.(blocked := s.blocked - {t}), t, Ready)
  }

  // ---- every thread is in exactly one place ----

  ghost predicate IsHeld(s: Sched, t: nat) { exists w :: w in s.held && s.held[w] == t }

  predicate Distinct(q: seq<nat>) { forall i, j :: 0 <= i < j < |q| ==> q[i] != q[j] }

  /** Each known thread is queued once, or blocked, or held by one worker, and the count says how many are held. */
  ghost predicate OnePlace(s: Sched) {
    && s.running == |s.held|
    && Distinct(s.runnable)
    && (forall t :: t in s.runnable ==> t in s.all && t !in s.blocked && !IsHeld(s, t))
    && (forall t :: t in s.blocked ==> t in s.all && !IsHeld(s, t))
    && (forall w :: w in s.held ==> s.held[w] in s.all)
    && (forall v, w :: v in s.held && w in s.held && s.held[v] == s.held[w] ==> v == w)
    && (forall t :: t in s.all ==> t in s.runnable || t in s.blocked || IsHeld(s, t))
  }

  lemma ScheduledKeepsOnePlace(s: Sched, t: nat)
    requires OnePlace(s) && t !in s.all
    ensures OnePlace(Scheduled(s, t))
    ensures forall u :: IsHeld(Scheduled(s, t), u) <==> IsHeld(s, u)
  {
    var s' := Scheduled(s, t);
    assert forall u :: IsHeld(s', u) <==> IsHeld(s, u);
  }

  lemma TakenKeepsOnePlace(s: Sched, w: nat)
    requires OnePlace(s) && w !in s.held && s.runnable != []
    ensures OnePlace(Taken(s, w))
    ensures forall t :: IsHeld(Taken(s, w), t) <==> IsHeld(s, t) || t == s.runnable[0]
  {
    var s', t := Taken(s, w), s.runnable[0];
    assert s'.held[w] == t;
    forall u ensures IsHeld(s', u) <==> IsHeld(s, u) || u == t {
      if IsHeld(s, u) {
        var v :| v in s.held && s.held[v] == u;
        assert s'.held[v] == u;
      }
    }
    assert forall u :: u in s.runnable <==> u == t || u in s'.runnable;
  }

  lemma PickedKeepsOnePlace(s: Sched, w: nat)
    requires OnePlace(s) && MayPick(s, w)
    ensures OnePlace(Picked(s, w))
    ensures forall t :: IsHeld(Picked(s, w), t) <==> IsHeld(s, t) || t == s.runnable[0]
  {
    var s1 := if Collects(s, w) then Collected(s) else s;
    SamePlaces(s, s1);
    TakenKeepsOnePlace(s1, w);
  }

  /** A collection runs only while no worker holds a thread. */
  lemma CollectsOnlyWhenNoneHeld(s: Sched, w: nat)
    requires OnePlace(s) && Collects(s, w)
    ensures s.held == map[]
    ensures forall t :: t in s.all ==> t in s.runnable || t in s.blocked
  {
    assert |s.held| == 0;
  }

  /** All threads but t have their place, and t has none. */
  ghost predicate OnePlaceBut(s: Sched, t: nat) {
    && t in s.all && t !in s.runnable && t !in s.blocked && !IsHeld(s, t)
    && s.running == |s.held| && Distinct(s.runnable)
    && (forall u :: u in s.runnable ==> u in s.all && u !in s.blocked && !IsHeld(s, u))
    && (forall u :: u in s.blocked ==> u in s.all && !IsHeld(s, u))
    && (forall w :: w in s.held ==> s.held[w] in s.all)
    && (forall v, w :: v in s.held && w in s.held && s.held[v] == s.held[w] ==> v == w)
    && (forall u :: u in s.all && u != t ==> u in s.runnable || u in s.blocked || IsHeld(s, u))
  }

  lemma SameHeld(s: Sched, s': Sched)
    requires s'.held == s.held
    ensures forall u :: IsHeld(s', u) <==> IsHeld(s, u)
  {
  }

  lemma EnqueueRestoresPlace(s: Sched, t: nat, st: ThreadState)
    requires OnePlaceBut(s, t) && Enqueue(s, t, st).Kept?
    ensures OnePlace(Enqueue(s, t, st).s)
    ensures forall u :: IsHeld(Enqueue(s, t, st).s, u) <==> IsHeld(s, u)
  {
    SameHeld(s, Enqueue(s, t, st).s);
  }

  lemma ReleaseLosesPlace(s: Sched, w: nat)
    requires OnePlace(s) && w in s.held
    ensures var s' := s.(held := s.held - {w}, running := s.running - 1);
            OnePlaceBut(s', s.held[w]) && forall t :: IsHeld(s', t) <==> IsHeld(s, t) && t != s.held[w]
  {
    var s' := s.(held := s.held - {w}, running := s.running - 1);
    forall t ensures IsHeld(s', t) <==> IsHeld(s, t) && t != s.held[w] {
      if IsHeld(s, t) && t != s.held[w] {
        var v :| v in s.held && s.held[v] == t;
        assert s'.held[v] == t;
      }
    }
    assert s'.held.Keys == s.held.Keys - {w};
    assert |s.held.Keys| == |s.held| && |s'.held.Keys| == |s'.held|;
    assert IsHeld(s, s.held[w]);
  }

  lemma PutBackKeepsOnePlace(s: Sched, w: nat, st: ThreadState)
    requires OnePlace(s) && w in s.held && PutBack(s, w, st).Kept?
    ensures OnePlace(PutBack(s, w, st).s)
    ensures forall t :: IsHeld(PutBack(s, w, st).s, t) <==> IsHeld(s, t) && t != s.held[w]
  {
    ReleaseLosesPlace(s, w);
    EnqueueRestoresPlace(s.(held := s.held - {w}, running := s.running - 1), s.held[w], st);
  }

  lemma WokenKeepsOnePlace(s: Sched, t: nat)
    requires OnePlace(s) && t in s.blocked
    ensures Woken(s, t).Kept? && OnePlace(Woken(s, t).s)
    ensures forall u :: IsHeld(Woken(s, t).s, u) <==> IsHeld(s, u)
  {
    SameHeld(s, s.(blocked := s.blocked - {t}));
    EnqueueRestoresPlace(s.(blocked := s.blocked - {t}), t, Ready);
  }

  lemma SamePlaces(s: Sched, s': Sched)
    requires OnePlace(s)
    requires s' == s.(gcWaiters := s'.gcWaiters, gcComplete := s'.gcComplete)
    ensures OnePlace(s')
    ensures forall u :: IsHeld(s', u) <==> IsHeld(s, u)
  {
    assert forall u :: IsHeld(s', u) <==> IsHeld(s, u);
  }

  // ---- what executing a thread can leave behind ----

  /** The instructions by what they do to the thread state; the data of a run decides whether a channel served the request,
      whether the frame left was the last one, and what is thrown. */
  datatype Instruction =
    | Plain                       // leaves the state alone
    | Send(served: bool)
    | Receive(served: bool)
    | Alt(served: bool)
    | Leave(last: bool)           // ret, spawn and mspawn, which pop a frame
    | Native(last: bool)          // a call into a built-in module, which runs and returns
    | Exit
    | Throw(e: Exception)

  /** User exceptions break the thread; the others leave the execution and end the worker. */
  datatype Exception = User | Termination | System

  /** How an execution ends: in a state, or by an exception that leaves it. */
  datatype Ended = In(st: ThreadState) | Escaped(e: Exception)

  /** The state that an instruction leaves behind a running thread. */
  function StateAfter(i: Instruction): ThreadState {
    match i
    case Send(served) => if served then Running else BlockedSending
    case Receive(served) => if served then Running else BlockedReceiving
    case Alt(served) => if served then Running else BlockedInAlt
    case Leave(last) => if last then EmptyStack else Running
    case Native(last) => if last then EmptyStack else Running
    case Exit => Exiting
    case _ => Running
  }

  predicate GoesOn(i: Instruction) { !i.Throw? && StateAfter(i) == Running }

  /** Index of the first instruction within the quanta that does not simply go on, or the quanta. */
  function StopsAt(code: seq<Instruction>, quanta: nat): (k: nat)
    requires quanta <= |code|
    ensures k <= quanta && (k < quanta ==> !GoesOn(code[k]))
    ensures forall i :: 0 <= i < k ==> GoesOn(code[i])
  {
    if quanta == 0 || !GoesOn(code[0]) then 0 else 1 + StopsAt(code[1..], quanta - 1)
  }

  function FinalState(code: seq<Instruction>, quanta: nat, tool: bool): Ended
    requires quanta <= |code|
  {
    var k := StopsAt(code, quanta);
    if k == quanta then In(if tool then Debug else Ready)
    else if code[k].Throw? then (if code[k].e == User then In(Broken) else Escaped(code[k].e))
    else In(StateAfter(code[k]))
  }

  lemma {:induction false} StopsAtIs(code: seq<Instruction>, quanta: nat, k: nat)
    requires quanta <= |code| && k <= quanta
    requires forall i :: 0 <= i < k ==> GoesOn(code[i])
    requires k < quanta ==> !GoesOn(code[k])
    ensures StopsAt(code, quanta) == k
  {
    var d := StopsAt(code, quanta);
    assert !(d < k) && !(k < d);
  }

  /** The state while and after an instruction runs, step by step as the instructions write it. */
  method Run(i: Instruction) returns (st: ThreadState)
    requires !i.Throw?
    ensures st == StateAfter(i)
  {
    st := Running;
    match i {
      case Send(served) =>
        st := BlockedSending;
        if served { st := Running; }
      case Receive(served) =>
        st := BlockedReceiving;
        if served { st := Running; }
      case Alt(served) =>
        st := BlockedInAlt;
        if served { st := Running; }
      case Leave(last) =>
        if last { st := EmptyStack; }
      case Native(last) =>
        st := Release;
        if last { st := EmptyStack; }
        if st == Release { st := Running; }
      case Exit => st := Exiting;
      case _ =>
    }
  }

  /** The execution loop: at most `quanta` instructions, stopping at the first that leaves the running state or throws. */
  method Execute(code: seq<Instruction>, quanta: nat, tool: bool) returns (r: Ended)
    requires quanta <= |code|
    ensures r == FinalState(code, quanta, tool)
  {
    var st := Running;
    var left := quanta;
    while left != 0
      invariant 0 <= left <= quanta && st == Running
      invariant forall i :: 0 <= i < quanta - left ==> GoesOn(code[i])
    {
      var i := code[quanta - left];
      if i.Throw? {
        StopsAtIs(code, quanta, quanta - left);
        if i.e != User { return Escaped(i.e); }
        return In(Broken);
      }
      st := Run(i);
      if st != Running { break; }
      left := left - 1;
    }
    StopsAtIs(code, quanta, quanta - left);
    if st == Running { st := if tool then Debug else Ready; }
    r := In(st);
  }

  /** The state in which an execution ends, by the instruction that ends it. */
  lemma FinalStateIs(code: seq<Instruction>, quanta: nat, tool: bool, k: nat)
    requires quanta <= |code| && k <= quanta && forall i :: 0 <= i < k ==> GoesOn(code[i])
    ensures k == quanta ==> FinalState(code, quanta, tool) == In(if tool then Debug else Ready)
    ensures k < quanta && !GoesOn(code[k]) ==> (
      FinalState(code, quanta, tool) ==
      match code[k]
      case Throw(User) => In(Broken)
      case Throw(e) => Escaped(e)
      case Send(_) => In(BlockedSending)
      case Receive(_) => In(BlockedReceiving)
      case Alt(_) => In(BlockedInAlt)
      case Exit => In(Exiting)
      case _ => In(EmptyStack))
    ensures k < quanta && !GoesOn(code[k]) ==>
      !code[k].Plain? && code[k] !in {Send(true), Receive(true), Alt(true), Leave(false), Native(false)}
  {
    if k == quanta || !GoesOn(code[k]) { StopsAtIs(code, quanta, k); }
  }

  /** No state in which an execution ends is one the scheduler refuses; it ends the machine exactly when a user exception was
      thrown. Other exceptions leave the execution before the scheduler is asked. */
  lemma ExecuteIsAccepted(s: Sched, w: nat, code: seq<Instruction>, quanta: nat, tool: bool)
    requires w in s.held && quanta <= |code|
    ensures var r := FinalState(code, quanta, tool); var k := StopsAt(code, quanta);
            && (r.Escaped? <==> k < quanta && code[k].Throw? && code[k].e != User)
            && (r.In? ==> !PutBack(s, w, r.st).Refused?
                          && (PutBack(s, w, r.st).Terminates? <==> k < quanta && code[k] == Throw(User)))
  {
  }

  // ---- the code in place ----

  class Scheduler {
    var all: set<nat>
    var runnable: seq<nat>
    var blocked: set<nat>
    var held: map<nat, nat>
    var running: int
    var picks: nat
    var gcWaiters: set<nat>
    var gcComplete: bool

    ghost function State(): Sched
      reads this
    {
      Sched(all, runnable, blocked, held, running, picks, gcWaiters, gcComplete)
    }

    constructor ()
      ensures State() == Sched({}, [], {}, map[], 0, 1, {}, true) && OnePlace(State())
    {
      all, runnable, blocked, held, running := {}, [], {}, map[], 0;
      picks, gcWaiters, gcComplete := 1, {}, true;
    }

    method ScheduleThread(t: nat)
      requires OnePlace(State()) && t !in all
      modifies this
      ensures State() == Scheduled(old(State()), t) && OnePlace(State())
    {
      ScheduledKeepsOnePlace(State(), t);
      all := all + {t};
      runnable := runnable + [t];
    }

    /** Returns false when the state is refused or ends the machine; nothing is changed then. */
    method EnqueueThreadUnsafe(t: nat, st: ThreadState) returns (ok: bool)
      modifies this`all, this`runnable, this`blocked
      ensures var r := Enqueue(old(State()), t, st);
              ok == r.Kept? && State() == if ok then r.s else old(State())
    {
      ok := true;
      match st {
        case Ready => runnable := runnable + [t];
        case Debug => runnable := runnable + [t];
        case BlockedInAlt => blocked := blocked + {t};
        case BlockedSending => blocked := blocked + {t};
        case BlockedReceiving => blocked := blocked + {t};
        case EmptyStack => all := all - {t};
        case Exiting => all := all - {t};
        case _ => ok := false;
      }
    }

    /** First half of `next_thread`: the worker returns its thread. */
    method ReturnThread(w: nat, st: ThreadState) returns (ok: bool)
      requires OnePlace(State()) && w in held
      modifies this
      ensures var r := PutBack(old(State()), w, st); ok == r.Kept? && (ok ==> State() == r.s && OnePlace(State()))
    {
      hide OnePlace, OnePlaceBut;
      ReleaseLosesPlace(State(), w);
      var t := held[w];
      running := running - 1;
      held := held - {w};
      ghost var released := State();
      ok := EnqueueThreadUnsafe(t, st);
      if ok { EnqueueRestoresPlace(released, t, st); }
    }

    /** Second half of `next_thread`, one pass of its loop under the lock; -1 when the worker has to wait. */
    method PickThread(w: nat) returns (t: int)
      requires OnePlace(State()) && w !in held
      modifies this
      ensures OnePlace(State())
      ensures t >= 0 <==> MayPick(old(State()), w)
      ensures t >= 0 ==> State() == Picked(old(State()), w) && held == old(held)[w := t]
      ensures MustWait(old(State()), w) ==> State() == WaitsForGc(old(State()), w)
    {
      ghost var before := State();
      var ready := CollectIfDue(w);
      SamePlaces(before, State());
      if !ready || runnable == [] {
        if ready {
          ghost var mid := State();
          gcWaiters := gcWaiters - {w};
          SamePlaces(mid, State());
        }
        return -1;
      }
      t := TakeFront(w);
    }

    method TakeFront(w: nat) returns (t: nat)
      requires OnePlace(State()) && w !in held && runnable != []
      modifies this`runnable, this`running, this`picks, this`held, this`gcWaiters
      ensures State() == Taken(old(State()), w) && OnePlace(State())
      ensures held == old(held)[w := t]
    {
      hide OnePlace;
      TakenKeepsOnePlace(State(), w);
      t := runnable[0];
      runnable := runnable[1..];
      running := running + 1;
      picks := picks + 1;
      held := held[w := t];
      gcWaiters := gcWaiters - {w};
    }

    /** Collects when that is due and possible; false when the worker must wait for a collection. */
    method CollectIfDue(w: nat) returns (ready: bool)
      requires OnePlace(State()) && w !in held
      modifies this`gcComplete, this`gcWaiters
      ensures ready == (!MustWait(old(State()), w) && (w in old(gcWaiters) ==> gcComplete))
      ensures State() == if MustWait(old(State()), w) then WaitsForGc(old(State()), w)
                         else if Collects(old(State()), w) then Collected(old(State())) else old(State())
    {
      if w in gcWaiters { return gcComplete; }
      if picks % 256 != 0 { return true; }
      if running != 0 {
        gcComplete := false;
        gcWaiters := gcWaiters + {w};
        return false;
      }
      CollectsOnlyWhenNoneHeld(State(), w);
      gcComplete := true;
      return true;
    }

    method EnqueueBlockedThread(t: nat) returns (ok: bool)
      requires OnePlace(State())
      modifies this
      ensures OnePlace(State()) && (ok <==> t in old(blocked))
      ensures State() == if ok then Woken(old(State()), t).s else old(State())
    {
      if t !in blocked { return false; }
      WokenKeepsOnePlace(State(), t);
      blocked := blocked - {t};
      ok := EnqueueThreadUnsafe(t, Ready);
    }
  }
}
