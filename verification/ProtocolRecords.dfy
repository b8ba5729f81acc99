// What threads record of their transfers is what passed through the channels, in order; and when a non-blocking alt waits.
module ProtocolRecords {
  import opened Channels
  import opened Scheduling
  import opened Protocol
  import opened ProtocolSafety
  import opened ProtocolTheorems

  // ---- the words that threads record ----

  /** The thread recorded one more transfer. */
  ghost predicate Grew(s: State, s': State, u: nat, mv: Move) {
    u in s.threads && u in s'.threads && s'.threads[u].moved == s.threads[u].moved + [mv]
  }

  /** The transfer of the operand: a send of c, or a receive from c. */
  predicate IsTransfer(op: Op, mv: Move, c: nat, send: bool) {
    mv.index < |op.chans| && op.chans[mv.index] == c && (send <==> mv.index < op.sends)
  }

  ghost predicate Recorded(s: State, s': State, u: nat, mv: Move, c: nat, send: bool) {
    Grew(s, s', u, mv) && IsTransfer(s.threads[u].op, mv, c, send)
  }

  /** The word that some thread recorded, in this step, as sent to c or received from c. */
  ghost function WordIn(s: State, s': State, c: nat, send: bool): seq<int> {
    if exists u, mv :: Recorded(s, s', u, mv, c, send) then
      var u, mv :| Recorded(s, s', u, mv, c, send);
      [mv.word]
    else []
  }

  /** All those words, in the order in which they were recorded. */
  ghost function WordsUpTo(states: seq<State>, n: nat, c: nat, send: bool): seq<int>
    requires n < |states|
  {
    if n == 0 then [] else WordsUpTo(states, n - 1, c, send) + WordIn(states[n - 1], states[n], c, send)
  }

  /** What the channel took, or gave out; nothing before it exists. */
  function Log(s: State, c: nat, send: bool): seq<int> {
    if c !in s.chans then []
    else if send then (if c in s.sent then s.sent[c] else [])
    else if c in s.got then s.got[c] else []
  }

  /** In this step the log of c grew by the word that a thread recorded, if one did. */
  ghost predicate LogGrows(s: State, s': State, c: nat, send: bool) {
    && (forall u, mv :: Recorded(s, s', u, mv, c, send) ==> Log(s', c, send) == Log(s, c, send) + [mv.word])
    && (Log(s', c, send) == Log(s, c, send) || exists u, mv :: Recorded(s, s', u, mv, c, send))
  }

  lemma QuietStep(s: State, step: Step, c: nat, send: bool)
    requires Enabled(s, step) && !step.Try?
    ensures forall u, mv :: !Grew(s, Apply(s, step), u, mv)
    ensures Log(Apply(s, step), c, send) == Log(s, c, send)
  {
    var s' := Apply(s, step);
    forall u | u in s.threads && u in s'.threads ensures s'.threads[u].moved == s.threads[u].moved || s'.threads[u].moved == [] {}
  }

  /** Appending is all that can make a record grow, so it grows by that word only. */
  lemma SameMove(s: State, s': State, u: nat, mv: Move, nv: Move)
    requires Grew(s, s', u, mv) && Grew(s, s', u, nv)
    ensures mv == nv
  {
    assert s'.threads[u].moved[|s.threads[u].moved|] == nv;
  }

  /** A call that moved nothing, or one word through the buffer. */
  lemma AloneGrows(s: State, s': State, t: nat, e: Effect, c: nat, send: bool)
    requires Tries(s, s', t, e) && !e.outcome.Matched?
    ensures LogGrows(s, s', c, send)
  {
    hide Allowed;
    forall u | u in s.threads && u != t ensures s'.threads[u].moved == s.threads[u].moved {}
    match e.outcome {
      case NotPending =>
      case Queued =>
      case Buffered(v) =>
        var mv := Move(Index(s, t), v);
        assert Grew(s, s', t, mv) && Recorded(s, s', t, mv, Target(s, t), Sends(s, t));
        forall u, nv | Grew(s, s', u, nv) ensures u == t && nv == mv {
          if u == t { SameMove(s, s', t, mv, nv); }
        }
    }
  }

  /** A match: one thread records a send and the other a receive, both at the channel called. */
  lemma MatchGrows(s: State, s': State, t: nat, e: Effect, c: nat, send: bool)
    requires Tries(s, s', t, e) && e.outcome.Matched? && QueueInv(s)
    ensures LogGrows(s, s', c, send)
  {
    var d, p := Target(s, t), e.outcome.peer;
    PeerOperand(s, s', t, e);
    assert p != t;
    hide Allowed, QueueInv;
    var own := Move(Index(s, t), if Sends(s, t) then e.outcome.sent else e.outcome.got);
    var other := Move(IndexOf(s.threads[p].op.chans, d), if Sends(s, t) then e.outcome.got else e.outcome.sent);
    assert Grew(s, s', t, own) && Recorded(s, s', t, own, d, Sends(s, t));
    assert Grew(s, s', p, other) && Recorded(s, s', p, other, d, !Sends(s, t));
    forall u | u in s.threads && u != t && u != p ensures s'.threads[u].moved == s.threads[u].moved {}
    forall u, nv | Grew(s, s', u, nv) ensures (u == t && nv == own) || (u == p && nv == other) {
      if u == t { SameMove(s, s', t, own, nv); } else if u == p { SameMove(s, s', p, other, nv); }
    }
  }

  lemma StepGrows(s: State, step: Step, c: nat, send: bool)
    requires Inv(s) && Enabled(s, step)
    ensures LogGrows(s, Apply(s, step), c, send)
  {
    if step.Try? {
      var e := ChanEffect(s, step.t);
      TryStep(s, step.t);
      hide Apply, Enabled;
      if e.outcome.Matched? {
        MatchGrows(s, Apply(s, step), step.t, e, c, send);
      } else {
        AloneGrows(s, Apply(s, step), step.t, e, c, send);
      }
    } else {
      QuietStep(s, step, c, send);
    }
  }

  /** Over every run, what a channel took is exactly the words that threads recorded as sent to it, and what it gave out
      exactly those that threads recorded as received from it, each in the order of the transfers. */
  lemma {:induction false} LogsAreRecords(states: seq<State>, steps: seq<Step>, n: nat, c: nat, send: bool)
    requires IsRun(states, steps) && n < |states|
    ensures Log(states[n], c, send) == WordsUpTo(states, n, c, send)
  {
    if n == 0 {
      assert states[0] == START;
    } else {
      hide Inv, Enabled, Apply;
      LogsAreRecords(states, steps, n - 1, c, send);
      RunsAreSafe(states, steps, n - 1);
      StepGrows(states[n - 1], steps[n - 1], c, send);
    }
  }

  // ---- non-blocking alts ----

  /** Every try_lock of a token that is still live succeeds: in the code only a call that is spending the token holds its
      lock for longer than it looks at it. */
  ghost predicate LocksSucceed(states: seq<State>, steps: seq<Step>) {
    |states| == |steps| + 1 && forall i :: 0 <= i < |steps| && steps[i].EndLoop? && steps[i].t in states[i].pend ==> steps[i].locked
  }

  ghost predicate RestsServed(s: State) {
    forall t :: t in s.threads && s.threads[t].phase.Waiting? && !s.threads[t].op.blocking ==> t !in s.pend
  }

  /** At the end of its loop an alt comes to rest with its token live exactly if it is blocking or its try_lock fails. */
  lemma RestsLiveIff(s: State, t: nat, locked: bool)
    requires Enabled(s, EndLoop(t, locked))
    ensures var s' := Apply(s, EndLoop(t, locked));
            s'.threads[t].phase.Waiting? && t in s'.pend <==> t in s.pend && (s.threads[t].op.blocking || !locked)
  {
  }

  lemma RestKeeps(s: State, step: Step)
    requires Inv(s) && RestsServed(s) && Enabled(s, step)
    requires step.EndLoop? && step.t in s.pend ==> step.locked
    ensures RestsServed(Apply(s, step))
  {
    var s' := Apply(s, step);
    if step.Try? {
      TryStep(s, step.t);
      TryShrinks(s, s', step.t, ChanEffect(s, step.t));
      TryRests(s, step.t);
    } else {
      hide Inv;
      OtherRests(s, step);
    }
  }

  lemma TryRests(s: State, t: nat)
    requires Enabled(s, Try(t)) && RestsServed(s) && Apply(s, Try(t)).pend <= s.pend
    ensures RestsServed(Apply(s, Try(t)))
  {
  }

  lemma OtherRests(s: State, step: Step)
    requires RestsServed(s) && Enabled(s, step) && !step.Try?
    requires step.EndLoop? && step.t in s.pend ==> step.locked
    ensures RestsServed(Apply(s, step))
  {
  }

  lemma StartRests()
    ensures RestsServed(START)
  {
  }

  lemma LockSucceeds(states: seq<State>, steps: seq<Step>, i: nat)
    requires LocksSucceed(states, steps) && i < |steps|
    ensures steps[i].EndLoop? && steps[i].t in states[i].pend ==> steps[i].locked
  {
  }

  lemma {:induction false} RunsRestServed(states: seq<State>, steps: seq<Step>, n: nat)
    requires IsRun(states, steps) && LocksSucceed(states, steps) && n < |states|
    ensures RestsServed(states[n])
  {
    hide Inv, Enabled, Apply, RestsServed, IsRun, LocksSucceed;
    StartRests();
    RunStep(states, steps, n);
    if n > 0 {
      LockSucceeds(states, steps, n - 1);
      RunsAreSafe(states, steps, n - 1);
      RunsRestServed(states, steps, n - 1);
      RestKeeps(states[n - 1], steps[n - 1]);
    }
  }

  /** A non-blocking alt waits only for the callback of a transfer that has already been made. */
  lemma NonBlockingWaitsOnlyWhenServed(states: seq<State>, steps: seq<Step>, n: nat, t: nat)
    requires IsRun(states, steps) && LocksSucceed(states, steps) && n < |states| && t in states[n].threads
    requires states[n].threads[t].phase.Waiting? && !states[n].threads[t].op.blocking
    ensures var s := states[n];
            t !in s.pend && |s.threads[t].moved| == 1 && exists h :: Calls(s, h, t)
  {
    RunsRestServed(states, steps, n);
    RunsAreSafe(states, steps, n);
    assert ThreadOk(states[n], t);
  }
}
