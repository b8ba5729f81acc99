// In which order the threads that wait at a channel are served, over every run.
module ProtocolOrder {
  import opened Channels
  import opened Scheduling
  import opened Protocol
  import opened ProtocolSafety
  import opened ProtocolTheorems

  // ---- order in one queue ----

  /** A request of a stands in front of one of b. */
  ghost predicate Before(q: seq<Request>, a: nat, b: nat) {
    exists i, j :: 0 <= i < j < |q| && q[i].tid == a && q[j].tid == b
  }

  lemma BeforeHas(q: seq<Request>, a: nat, b: nat)
    requires Before(q, a, b)
    ensures Has(q, a) && Has(q, b)
  {
  }

  lemma BeforeSuffix(q: seq<Request>, k: nat, a: nat, b: nat)
    requires k <= |q| && Before(q[k..], a, b)
    ensures Before(q, a, b)
  {
    var r := q[k..];
    var i, j :| 0 <= i < j < |r| && r[i].tid == a && r[j].tid == b;
    assert q[i + k].tid == a && q[j + k].tid == b;
  }

  lemma BeforeErased(q: seq<Request>, tid: nat, a: nat, b: nat)
    requires Before(EraseFirst(q, tid), a, b)
    ensures Before(q, a, b)
  {
    var k, r := FirstOf(q, tid), EraseFirst(q, tid);
    if k < |q| {
      var i, j :| 0 <= i < j < |r| && r[i].tid == a && r[j].tid == b;
      assert q[if i < k then i else i + 1].tid == a && q[if j < k then j else j + 1].tid == b;
    }
  }

  lemma BeforeAppended(q: seq<Request>, req: Request, a: nat, b: nat)
    requires Before(q + [req], a, b)
    ensures Before(q, a, b) || (Has(q, a) && b == req.tid)
  {
    var r := q + [req];
    var i, j :| 0 <= i < j < |r| && r[i].tid == a && r[j].tid == b;
    assert r[i] == q[i];
    if j < |q| { assert r[j] == q[j]; }
  }

  function Queue(c: Chan, senders: bool): seq<Request> { if senders then c.senders else c.receivers }

  /** What one step may do to a queue: requests go, and at most `newcomer` comes, to the back. */
  ghost predicate InLine(q: seq<Request>, q': seq<Request>, newcomer: Option<nat>) {
    && (forall a: nat :: Has(q', a) ==> Has(q, a) || newcomer == Some(a))
    && (forall a: nat, b: nat :: Before(q', a, b) ==> Before(q, a, b) || (Has(q, a) && newcomer == Some(b)))
  }

  lemma SuffixInLine(q: seq<Request>, k: nat)
    requires k <= |q|
    ensures InLine(q, q[k..], None)
  {
    forall a: nat | Has(q[k..], a) ensures Has(q, a) {
      var i :| 0 <= i < |q[k..]| && q[k..][i].tid == a;
      assert q[i + k].tid == a;
    }
    forall a: nat, b: nat | Before(q[k..], a, b) ensures Before(q, a, b) { BeforeSuffix(q, k, a, b); }
  }

  lemma ErasedInLine(q: seq<Request>, tid: nat)
    requires OnePerThread(q)
    ensures InLine(q, EraseFirst(q, tid), None)
  {
    forall a: nat ensures Has(EraseFirst(q, tid), a) ==> Has(q, a) { EraseWaiters(q, tid, a); }
    forall a: nat, b: nat | Before(EraseFirst(q, tid), a, b) ensures Before(q, a, b) { BeforeErased(q, tid, a, b); }
  }

  lemma AppendedInLine(q: seq<Request>, req: Request)
    ensures InLine(q, q + [req], Some(req.tid))
  {
    forall a: nat ensures Has(q + [req], a) ==> Has(q, a) || a == req.tid { AppendWaiters(q, req, a); }
    forall a: nat, b: nat | Before(q + [req], a, b) ensures Before(q, a, b) || (Has(q, a) && b == req.tid) {
      BeforeAppended(q, req, a, b);
    }
  }

  lemma DroppedInLine(q: seq<Request>, pend: set<nat>)
    ensures InLine(q, DropDead(q, pend), None) && InLine(q, [], None)
    ensures DropDead(q, pend) != [] ==> InLine(q, DropDead(q, pend)[1..], None)
  {
    var k := DeadCount(q, pend);
    SuffixInLine(q, k);
    SuffixInLine(q, |q|);
    if k < |q| {
      SuffixInLine(q, k + 1);
      assert q[k..][1..] == q[k + 1..];
    }
  }

  lemma CallInLine(c: Chan, pend: set<nat>, req: Request, send: bool, senders: bool)
    ensures var e := if send then SendEffect(c, pend, req) else ReceiveEffect(c, pend, req);
            InLine(Queue(c, senders), Queue(e.chan, senders),
                   if e.outcome == Queued && send == senders then Some(req.tid) else None)
  {
    DroppedInLine(Queue(c, senders), pend);
    AppendedInLine(Queue(c, senders), req);
    SuffixInLine(Queue(c, senders), 0);
    hide InLine;
    assert Queue(c, senders)[0..] == Queue(c, senders);
  }

  lemma CancelInLine(c: Chan, tid: nat, senders: bool)
    requires Settled(c)
    ensures InLine(Queue(c, senders), Queue(CancelEffect(c, tid), senders), None)
  {
    ErasedInLine(Queue(c, senders), tid);
    SuffixInLine(Queue(c, senders), 0);
    hide InLine;
    assert Queue(c, senders)[0..] == Queue(c, senders);
  }

  /** The first live request is in front of every other live one. */
  lemma FirstLiveIsFirst(q: seq<Request>, pend: set<nat>, b: nat)
    requires Has(q, b) && b in pend
    ensures DropDead(q, pend) != [] && (DropDead(q, pend)[0].tid != b ==> Before(q, DropDead(q, pend)[0].tid, b))
  {
    var j :| 0 <= j < |q| && q[j].tid == b;
    var k := DeadCount(q, pend);
    assert k <= j;
    assert q[k..][0] == q[k];
  }

  // ---- over every run ----

  /** In this step t's call to c found nothing and was put into its queue. */
  ghost predicate QueuesIn(s: State, step: Step, t: nat, c: nat, send: bool) {
    && step == Try(t) && t in s.threads && s.threads[t].phase.Trying? && CanTry(s, t)
    && Target(s, t) == c && Sends(s, t) == send && ChanEffect(s, t).outcome == Queued
  }

  /** The last step, before n, in which t was put into the queue; -1 if there is none. */
  ghost function Since(states: seq<State>, steps: seq<Step>, n: nat, t: nat, c: nat, send: bool): (k: int)
    requires n <= |steps| < |states|
    ensures -1 <= k < n
    ensures k >= 0 ==> QueuesIn(states[k], steps[k], t, c, send)
    ensures forall j :: k < j < n ==> !QueuesIn(states[j], steps[j], t, c, send)
  {
    if n == 0 then -1
    else if QueuesIn(states[n - 1], steps[n - 1], t, c, send) then n - 1
    else Since(states, steps, n - 1, t, c, send)
  }

  /** A queue is in the order in which its requests came. */
  ghost predicate Lined(states: seq<State>, steps: seq<Step>, n: nat, c: nat, send: bool)
    requires n <= |steps| < |states|
  {
    c in states[n].chans ==>
      && (forall a: nat :: Has(Queue(states[n].chans[c], send), a) ==> Since(states, steps, n, a, c, send) >= 0)
      && (forall a: nat, b: nat :: Before(Queue(states[n].chans[c], send), a, b) ==>
            Since(states, steps, n, a, c, send) < Since(states, steps, n, b, c, send))
  }

  ghost function Newcomer(s: State, step: Step, c: nat, send: bool): Option<nat> {
    if step.Try? && QueuesIn(s, step, step.t, c, send) then Some(step.t) else None
  }

  lemma ScanInLine(chans: map<nat, Chan>, op: Op, c: nat, next: nat, t: nat, d: nat, send: bool)
    requires next < |op.chans| && op.chans[next] in chans && d in chans && Settled(chans[d])
    ensures InLine(Queue(chans[d], send), Queue(ScanChans(chans, op, c, next, t)[d], send), None)
  {
    CancelInLine(chans[d], t, send);
    SameInLine(chans[d], send);
  }

  lemma SameInLine(c: Chan, send: bool)
    ensures InLine(Queue(c, send), Queue(c, send), None)
  {
    assert Queue(c, send)[0..] == Queue(c, send);
    SuffixInLine(Queue(c, send), 0);
  }

  lemma StepInLine(s: State, step: Step, c: nat, send: bool)
    requires Inv(s) && Enabled(s, step) && c in s.chans
    ensures c in Apply(s, step).chans
    ensures InLine(Queue(s.chans[c], send), Queue(Apply(s, step).chans[c], send), Newcomer(s, step, c, send))
    ensures Newcomer(s, step, c, send).Some? ==> !Has(Queue(s.chans[c], send), step.t)
  {
    assert ChanOk(s, c);
    SameInLine(s.chans[c], send);
    if step.Try? {
      TryStep(s, step.t);
      TryChanges(s, Apply(s, step), step.t);
      hide Inv, Enabled, Apply, InLine, Queue;
      TryInLine(s, Apply(s, step), step.t, c, send);
    } else {
      OtherInLine(s, step, c, send);
    }
  }

  lemma TryInLine(s: State, s': State, t: nat, c: nat, send: bool)
    requires t in s.threads && s.threads[t].phase.Trying? && CanTry(s, t) && c in s.chans && !Waits(s.chans[Target(s, t)], t)
    requires s'.chans == s.chans[Target(s, t) := ChanEffect(s, t).chan]
    ensures InLine(Queue(s.chans[c], send), Queue(s'.chans[c], send), Newcomer(s, Try(t), c, send))
    ensures Newcomer(s, Try(t), c, send).Some? ==> !Has(Queue(s.chans[c], send), t)
  {
    hide InLine, Queue, Has;
    SameInLine(s.chans[c], send);
    if c == Target(s, t) {
      CallInLine(s.chans[c], s.pend, Req(s, t), Sends(s, t), send);
      NotInQueue(s.chans[c], t, send);
    }
  }

  lemma NotInQueue(c: Chan, t: nat, send: bool)
    requires !Waits(c, t)
    ensures !Has(Queue(c, send), t)
  {
  }

  /** A call changes the channel called, in which the caller did not wait. */
  lemma TryChanges(s: State, s': State, t: nat)
    requires t in s.threads && s.threads[t].phase.Trying? && CanTry(s, t)
    requires Tries(s, s', t, ChanEffect(s, t)) && QueueInv(s) && OwnInv(s)
    ensures !Waits(s.chans[Target(s, t)], t)
    ensures s'.chans == s.chans[Target(s, t) := ChanEffect(s, t).chan]
  {
    assert ThreadOk(s, t);
    CallerNotQueued(s, t);
    TryShrinks(s, s', t, ChanEffect(s, t));
    hide OwnInv, QueueInv, Tries;
  }

  lemma OtherInLine(s: State, step: Step, c: nat, send: bool)
    requires Enabled(s, step) && c in s.chans && Settled(s.chans[c]) && !step.Try?
    ensures c in Apply(s, step).chans
    ensures InLine(Queue(s.chans[c], send), Queue(Apply(s, step).chans[c], send), None)
  {
    SameInLine(s.chans[c], send);
    hide InLine;
    match step {
      case CancelForPeer(t) =>
        var cb := s.threads[t].phase.cb;
        ScanInLine(s.chans, s.threads[cb.peer].op, cb.chan, cb.next, cb.peer, c, send);
      case CancelOwn(t) =>
        var ph, op := s.threads[t].phase, s.threads[t].op;
        ScanInLine(s.chans, op, if ph.k < |op.chans| then op.chans[ph.k] else op.chans[0], ph.next, t, c, send);
      case Withdraw(t) => CancelInLine(s.chans[c], t, send);
      case _ =>
    }
  }

  /** A channel begins with empty queues. */
  lemma NewChannelIsEmpty(s: State, step: Step, c: nat, send: bool)
    requires Inv(s) && Enabled(s, step) && c !in s.chans && c in Apply(s, step).chans
    ensures Queue(Apply(s, step).chans[c], send) == []
  {
    if step.Try? {
      TryStep(s, step.t);
      TryShrinks(s, Apply(s, step), step.t, ChanEffect(s, step.t));
      hide Inv, Enabled, Apply, Tries;
    } else {
      hide Inv;
      NewIsEmpty(s, step, c, send);
    }
  }

  lemma NewIsEmpty(s: State, step: Step, c: nat, send: bool)
    requires Enabled(s, step) && !step.Try? && c !in s.chans && c in Apply(s, step).chans
    ensures Queue(Apply(s, step).chans[c], send) == []
  {
  }

  lemma {:induction false} QueuesAreLined(states: seq<State>, steps: seq<Step>, n: nat, c: nat, send: bool)
    requires IsRun(states, steps) && n <= |steps|
    ensures Lined(states, steps, n, c, send)
  {
    hide Inv, Enabled, Apply, IsRun, InLine, QueuesIn, Newcomer, Queue, Lined;
    RunStep(states, steps, n);
    if n == 0 {
      StartIsLined(states, steps, c, send);
    } else {
      QueuesAreLined(states, steps, n - 1, c, send);
      RunsAreSafe(states, steps, n - 1);
      StepLined(states, steps, n, c, send);
    }
  }

  lemma StartIsLined(states: seq<State>, steps: seq<Step>, c: nat, send: bool)
    requires |steps| < |states| && states[0] == START
    ensures Lined(states, steps, 0, c, send)
  {
  }

  lemma StepLined(states: seq<State>, steps: seq<Step>, n: nat, c: nat, send: bool)
    requires 0 < n <= |steps| < |states| && Inv(states[n - 1]) && Lined(states, steps, n - 1, c, send)
    requires Enabled(states[n - 1], steps[n - 1]) && states[n] == Apply(states[n - 1], steps[n - 1])
    ensures Lined(states, steps, n, c, send)
  {
    hide Inv, Enabled, Apply, InLine, QueuesIn, Newcomer, Queue, Lined;
    if c in states[n].chans {
      if c in states[n - 1].chans {
        StepInLine(states[n - 1], steps[n - 1], c, send);
        StaysLined(states, steps, n, c, send);
      } else {
        NewChannelIsEmpty(states[n - 1], steps[n - 1], c, send);
        EmptyIsLined(states, steps, n, c, send);
      }
    } else {
      NoChannelIsLined(states, steps, n, c, send);
    }
  }

  lemma NoChannelIsLined(states: seq<State>, steps: seq<Step>, n: nat, c: nat, send: bool)
    requires n <= |steps| < |states| && c !in states[n].chans
    ensures Lined(states, steps, n, c, send)
  {
  }

  lemma EmptyIsLined(states: seq<State>, steps: seq<Step>, n: nat, c: nat, send: bool)
    requires n <= |steps| < |states| && c in states[n].chans && Queue(states[n].chans[c], send) == []
    ensures Lined(states, steps, n, c, send)
  {
  }

  lemma StaysLined(states: seq<State>, steps: seq<Step>, n: nat, c: nat, send: bool)
    requires 0 < n <= |steps| < |states| && c in states[n - 1].chans && c in states[n].chans
    requires Lined(states, steps, n - 1, c, send)
    requires InLine(Queue(states[n - 1].chans[c], send), Queue(states[n].chans[c], send),
                    Newcomer(states[n - 1], steps[n - 1], c, send))
    requires Newcomer(states[n - 1], steps[n - 1], c, send).Some? ==> !Has(Queue(states[n - 1].chans[c], send), steps[n - 1].t)
    ensures Lined(states, steps, n, c, send)
  {
    var q, q' := Queue(states[n - 1].chans[c], send), Queue(states[n].chans[c], send);
    forall a: nat | Has(q, a) ensures Since(states, steps, n, a, c, send) == Since(states, steps, n - 1, a, c, send) {
      assert !QueuesIn(states[n - 1], steps[n - 1], a, c, send);
    }
    forall a: nat, b: nat | Before(q', a, b)
      ensures Since(states, steps, n, a, c, send) < Since(states, steps, n, b, c, send)
    {
      if Before(q, a, b) { BeforeHas(q, a, b); }
    }
  }

  /** Over every run, of all threads that wait in a queue with a live token, the one that a call is matched with is the one that
      queued first: for any other the step in which it queued is a later one. */
  lemma WaitersAreServedInOrder(states: seq<State>, steps: seq<Step>, n: nat, t: nat, b: nat)
    requires IsRun(states, steps) && n < |steps| && steps[n] == Try(t) && Enabled(states[n], Try(t))
    requires ChanEffect(states[n], t).outcome.Matched?
    requires b in states[n].pend && Has(Queue(states[n].chans[Target(states[n], t)], !Sends(states[n], t)), b)
    ensures var s := states[n]; var c, senders, p := Target(s, t), !Sends(s, t), ChanEffect(s, t).outcome.peer;
            && 0 <= Since(states, steps, n, p, c, senders)
            && (p == b || Since(states, steps, n, p, c, senders) < Since(states, steps, n, b, c, senders))
  {
    var s := states[n];
    var c, senders := Target(s, t), !Sends(s, t);
    QueuesAreLined(states, steps, n, c, senders);
    PeerIsFirst(s, t, b);
    hide Inv, Enabled, Apply, IsRun, Since, ChanEffect, Before, Has, Queue;
  }

  lemma PeerIsFirst(s: State, t: nat, b: nat)
    requires t in s.threads && s.threads[t].phase.Trying? && CanTry(s, t) && ChanEffect(s, t).outcome.Matched?
    requires b in s.pend && Has(Queue(s.chans[Target(s, t)], !Sends(s, t)), b)
    ensures var q, p := Queue(s.chans[Target(s, t)], !Sends(s, t)), ChanEffect(s, t).outcome.peer;
            Has(q, p) && (p == b || Before(q, p, b))
  {
    var q := Queue(s.chans[Target(s, t)], !Sends(s, t));
    FirstLiveIsFirst(q, s.pend, b);
    var p := ChanEffect(s, t).outcome.peer;
    assert p == DropDead(q, s.pend)[0].tid;
    if p != b { BeforeHas(q, p, b); }
  }
}
