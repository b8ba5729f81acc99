// The rendezvous protocol of send, receive and alt over all threads, channels and workers
// (src/vm/execution_table.cpp, src/vm/channel.cpp, src/vm/scheduler.cpp).
// One step is one locked section: a channel call, one cancellation, a wake-up, a worker's pick or return.
module Protocol {
  import opened Channels
  import opened Scheduling

  /** The operands of one send, receive or alt: channels `chans[..sends]` are sent to, the others received from.
      A plain send or receive is a blocking operation on one channel. */
  datatype Op = Op(blocking: bool, sends: nat, chans: seq<nat>, vals: seq<int>)

  /** A wake-up callback: it cancels `peer`'s requests in all its channels but `chan`, remembering where `chan` is. */
  datatype Callback = Callback(peer: nat, chan: nat, next: nat, found: int)

  datatype Phase =
    | Idle                                          // not inside a channel instruction
    | Trying(order: seq<nat>, i: nat)               // the loop over the shuffled channel indices
    | Calling(order: seq<nat>, i: nat, cb: Callback)  // matched a waiting thread, running its callback
    | Cancelling(k: nat, next: nat, found: int)     // served at index k, cancelling the other requests
    | Withdrawing(next: nat)                        // non-blocking alt that found nothing ready
    | Waiting                                       // returned in a blocked state

  datatype Move = Move(index: nat, word: int)

  /** What one finished operation reported, and the transfers it took part in. */
  datatype Record = Record(op: Op, result: int, moved: seq<Move>)

  datatype Thread = Thread(op: Op, phase: Phase, moved: seq<Move>, done: seq<Record>)

  /** `sent` and `got` are the histories of the words each channel took from senders and gave to receivers. */
  datatype State = State(
    chans: map<nat, Chan>, sent: map<nat, seq<int>>, got: map<nat, seq<int>>,
    pend: set<nat>, threads: map<nat, Thread>, sched: Sched)

  datatype Step =
    | Open(c: nat, cap: nat)
    | Spawn(t: nat)
    | Pick(w: nat)
    | WaitForGc(w: nat)
    | Return(w: nat)
    | Exit(w: nat)
    | Begin(t: nat, op: Op, order: seq<nat>)
    | Try(t: nat)
    | EndLoop(t: nat, locked: bool)
    | CancelForPeer(t: nat)
    | Wake(t: nat)
    | CancelOwn(t: nat)
    | Finish(t: nat)
    | Withdraw(t: nat)
    | FinishEmpty(t: nat)

  // ---- the steps ----

  predicate WellFormed(op: Op, chans: set<nat>) {
    && |op.chans| > 0 && op.sends <= |op.chans| == |op.vals|
    && Distinct(op.chans)
    && forall m :: 0 <= m < |op.chans| ==> op.chans[m] in chans
  }

  predicate Shuffled(order: seq<nat>, n: nat) {
    && |order| == n && Distinct(order)
    && (forall i :: 0 <= i < n ==> order[i] < n)
    && (forall m :: 0 <= m < n ==> m in order)
  }

  /** The position of a channel among the operands, or their number. */
  function IndexOf(chans: seq<nat>, c: nat): (m: nat)
    ensures m <= |chans| && (m < |chans| ==> chans[m] == c)
    ensures forall j :: 0 <= j < m ==> chans[j] != c
  {
    if chans == [] || chans[0] == c then 0 else 1 + IndexOf(chans[1..], c)
  }

  predicate Runs(s: State, t: nat) { t in s.threads && exists w :: w in s.sched.held && s.sched.held[w] == t }

  /** One pass of the cancellation loop: skip the channel that served the request, cancel in any other. */
  function ScanFound(op: Op, c: nat, next: nat, found: int): int
    requires next < |op.chans|
  {
    if op.chans[next] == c then next else found
  }

  function ScanChans(chans: map<nat, Chan>, op: Op, c: nat, next: nat, t: nat): map<nat, Chan>
    requires next < |op.chans| && op.chans[next] in chans
  {
    var d := op.chans[next];
    if d == c then chans else chans[d := CancelEffect(chans[d], t)]
  }

  function ChanEffect(s: State, t: nat): Effect
    requires t in s.threads && s.threads[t].phase.Trying? && CanTry(s, t)
  {
    var th := s.threads[t];
    var k := th.phase.order[th.phase.i];
    var c := s.chans[th.op.chans[k]];
    var req := Request(t, th.op.vals[k]);
    if k < th.op.sends then SendEffect(c, s.pend, req) else ReceiveEffect(c, s.pend, req)
  }

  predicate CanTry(s: State, t: nat)
    requires t in s.threads && s.threads[t].phase.Trying?
  {
    var th := s.threads[t];
    && th.phase.i < |th.phase.order|
    && th.phase.order[th.phase.i] < |th.op.chans| == |th.op.vals|
    && th.op.chans[th.phase.order[th.phase.i]] in s.chans
    && th.op.chans[th.phase.order[th.phase.i]] in s.sent
    && th.op.chans[th.phase.order[th.phase.i]] in s.got
  }

  predicate CanScan(s: State, op: Op, next: nat) {
    next < |op.chans| && op.chans[next] in s.chans
  }

  /** After the own transfer at position i: the earlier requests, if there are any, have to be cancelled. */
  function AfterTransfer(order: seq<nat>, i: nat, n: nat): Phase
    requires i < |order|
  {
    if i > 0 then Cancelling(order[i], 0, -1) else Cancelling(order[i], n, order[i])
  }

  predicate Enabled(s: State, step: Step) {
    match step
    case Open(c, cap) => c !in s.chans
    case Spawn(t) => t !in s.threads && t !in s.sched.all
    case Pick(w) => MayPick(s.sched, w)
    case WaitForGc(w) => w !in s.sched.held && MustWait(s.sched, w)
    case Return(w) => w in s.sched.held && s.sched.held[w] in s.threads
                      && (s.threads[s.sched.held[w]].phase.Idle? || s.threads[s.sched.held[w]].phase.Waiting?)
    case Exit(w) => w in s.sched.held && s.sched.held[w] in s.threads && s.threads[s.sched.held[w]].phase.Idle?
    case Begin(t, op, order) => Runs(s, t) && s.threads[t].phase.Idle?
                                && WellFormed(op, s.chans.Keys) && Shuffled(order, |op.chans|)
    case Try(t) => Runs(s, t) && s.threads[t].phase.Trying? && CanTry(s, t)
                   && (ChanEffect(s, t).outcome.Matched? ==> ChanEffect(s, t).outcome.peer in s.threads)
    case EndLoop(t, locked) => Runs(s, t) && s.threads[t].phase.Trying? && s.threads[t].phase.i == |s.threads[t].phase.order|
    case CancelForPeer(t) => Runs(s, t) && s.threads[t].phase.Calling? && s.threads[t].phase.cb.peer in s.threads
                             && CanScan(s, s.threads[s.threads[t].phase.cb.peer].op, s.threads[t].phase.cb.next)
    case Wake(t) => Runs(s, t) && s.threads[t].phase.Calling? && s.threads[t].phase.i < |s.threads[t].phase.order|
                    && s.threads[t].phase.cb.peer in s.threads && !Runs(s, s.threads[t].phase.cb.peer)
                    && s.threads[t].phase.cb.next == |s.threads[s.threads[t].phase.cb.peer].op.chans|
                    && Woken(s.sched, s.threads[t].phase.cb.peer).Kept?
    case CancelOwn(t) => Runs(s, t) && s.threads[t].phase.Cancelling? && CanScan(s, s.threads[t].op, s.threads[t].phase.next)
    case Finish(t) => Runs(s, t) && s.threads[t].phase.Cancelling? && s.threads[t].phase.next == |s.threads[t].op.chans|
    case Withdraw(t) => Runs(s, t) && s.threads[t].phase.Withdrawing? && CanScan(s, s.threads[t].op, s.threads[t].phase.next)
    case FinishEmpty(t) => Runs(s, t) && s.threads[t].phase.Withdrawing? && s.threads[t].phase.next == |s.threads[t].op.chans|
  }

  function SetThread(s: State, t: nat, th: Thread): State { s.(threads := s.threads[t := th]) }

  function Completed(th: Thread, result: int): Thread {
    th.(phase := Idle, done := th.done + [Record(th.op, result, th.moved)])
  }

  /** The state after a channel call of thread t with effect e. */
  function Tried(s: State, t: nat, e: Effect): State
    requires t in s.threads && s.threads[t].phase.Trying? && CanTry(s, t)
    requires e.outcome.Matched? ==> e.outcome.peer in s.threads
  {
    var th := s.threads[t];
    var order, i := th.phase.order, th.phase.i;
    var k := order[i];
    var c := th.op.chans[k];
    var isSend := k < th.op.sends;
    var s1 := s.(chans := s.chans[c := e.chan], pend := e.pend);
    match e.outcome
    case NotPending => SetThread(s1, t, th.(phase := Trying(order, i + 1)))
    case Queued => SetThread(s1, t, th.(phase := Trying(order, i + 1)))
    case Buffered(v) =>
      var th' := th.(phase := AfterTransfer(order, i, |th.op.chans|), moved := th.moved + [Move(k, v)]);
      if isSend then SetThread(s1.(sent := s.sent[c := s.sent[c] + [v]]), t, th')
      else SetThread(s1.(got := s.got[c := s.got[c] + [v]]), t, th')
    case Matched(p, v, w) =>
      var th' := th.(phase := Calling(order, i, Callback(p, c, 0, -1)), moved := th.moved + [Move(k, if isSend then v else w)]);
      var peer := s.threads[p];
      var peer' := peer.(moved := peer.moved + [Move(IndexOf(peer.op.chans, c), if isSend then w else v)]);
      s1.(sent := s.sent[c := s.sent[c] + [v]], got := s.got[c := s.got[c] + [w]],
          threads := s.threads[p := peer'][t := th'])
  }

  function Apply(s: State, step: Step): State
    requires Enabled(s, step)
  {
    match step
    case Open(c, cap) =>
      s.(chans := s.chans[c := Chan(cap, [], [], [])], sent := s.sent[c := []], got := s.got[c := []])
    case Spawn(t) =>
      s.(threads := s.threads[t := Thread(Op(true, 0, [], []), Idle, [], [])], sched := Scheduled(s.sched, t))
    case Pick(w) => s.(sched := Picked(s.sched, w))
    case WaitForGc(w) => s.(sched := WaitsForGc(s.sched, w))
    case Return(w) =>
      s.(sched := PutBack(s.sched, w, if s.threads[s.sched.held[w]].phase.Idle? then Ready else BlockedInAlt).s)
    case Exit(w) =>
      s.(sched := PutBack(s.sched, w, Exiting).s, threads := s.threads - {s.sched.held[w]})
    case Begin(t, op, order) =>
      SetThread(s.(pend := s.pend + {t}), t, s.threads[t].(op := op, phase := Trying(order, 0), moved := []))
    case Try(t) => Tried(s, t, ChanEffect(s, t))
    case EndLoop(t, locked) =>
      if !s.threads[t].op.blocking && locked && t in s.pend then
        SetThread(s.(pend := s.pend - {t}), t, s.threads[t].(phase := Withdrawing(0)))
      else SetThread(s, t, s.threads[t].(phase := Waiting))
    case CancelForPeer(t) =>
      var th := s.threads[t];
      var cb := th.phase.cb;
      var op := s.threads[cb.peer].op;
      SetThread(s.(chans := ScanChans(s.chans, op, cb.chan, cb.next, cb.peer)), t,
                th.(phase := th.phase.(cb := cb.(next := cb.next + 1, found := ScanFound(op, cb.chan, cb.next, cb.found)))))
    case Wake(t) =>
      var th := s.threads[t];
      var p := th.phase.cb.peer;
      var th' := th.(phase := AfterTransfer(th.phase.order, th.phase.i, |th.op.chans|));
      s.(sched := Woken(s.sched, p).s,
         threads := s.threads[p := Completed(s.threads[p], th.phase.cb.found)][t := th'])
    case CancelOwn(t) =>
      var th := s.threads[t];
      var ph := th.phase;
      var c := if ph.k < |th.op.chans| then th.op.chans[ph.k] else th.op.chans[0];
      SetThread(s.(chans := ScanChans(s.chans, th.op, c, ph.next, t)), t,
                th.(phase := ph.(next := ph.next + 1, found := ScanFound(th.op, c, ph.next, ph.found))))
    case Finish(t) => SetThread(s, t, Completed(s.threads[t], s.threads[t].phase.k))
    case Withdraw(t) =>
      var th := s.threads[t];
      var d := th.op.chans[th.phase.next];
      SetThread(s.(chans := s.chans[d := CancelEffect(s.chans[d], t)]), t, th.(phase := Withdrawing(th.phase.next + 1)))
    case FinishEmpty(t) => SetThread(s, t, Completed(s.threads[t], |s.threads[t].op.chans|))
  }

  const START: State := State(map[], map[], map[], {}, map[], Sched({}, [], {}, map[], 0, 1, {}, true))

  /** A run: every step is enabled where it is taken; the last state is the result. */
  ghost predicate IsRun(states: seq<State>, steps: seq<Step>) {
    && |states| == |steps| + 1 && states[0] == START
    && forall i :: 0 <= i < |steps| ==> Enabled(states[i], steps[i]) && states[i + 1] == Apply(states[i], steps[i])
  }

  // ---- the invariant ----

  /** A transfer took place at one of the operands, and a send gave up the word of its operand. */
  predicate MoveOk(op: Op, mv: Move) {
    mv.index < |op.chans| == |op.vals| && (mv.index < op.sends ==> mv.word == op.vals[mv.index])
  }

  predicate OneMove(op: Op, moved: seq<Move>) { |moved| == 1 && MoveOk(op, moved[0]) }

  /** A finished operation made exactly one transfer and reports its index, or was non-blocking, made none,
      and reports the number of its channels. */
  predicate RecordOk(r: Record) {
    || (OneMove(r.op, r.moved) && r.result == r.moved[0].index)
    || (!r.op.blocking && r.moved == [] && r.result == |r.op.chans|)
  }

  predicate Engaged(ph: Phase) { ph.Trying? || ph.Waiting? }

  /** The own part of each thread: operands, token, transfers so far. */
  ghost predicate ThreadOk(s: State, t: nat)
    requires t in s.threads
  {
    var th := s.threads[t];
    && (forall i :: 0 <= i < |th.done| ==> RecordOk(th.done[i]))
    && (!th.phase.Idle? ==> WellFormed(th.op, s.chans.Keys))
    && (t in s.pend ==> Engaged(th.phase) && th.moved == [])
    && match th.phase
       case Idle => true
       case Trying(order, i) => Shuffled(order, |th.op.chans|) && i <= |order| && (t !in s.pend ==> OneMove(th.op, th.moved))
       case Calling(order, i, cb) => Shuffled(order, |th.op.chans|) && i < |order|
                                     && OneMove(th.op, th.moved) && th.moved[0].index == order[i]
       case Cancelling(k, next, found) => OneMove(th.op, th.moved) && th.moved[0].index == k && next <= |th.op.chans|
                                          && found == (if k < next then k as int else -1)
       case Withdrawing(next) => !th.op.blocking && th.moved == [] && next <= |th.op.chans|
       case Waiting => t !in s.pend ==> OneMove(th.op, th.moved)
  }

  /** Where the scheduler has each thread. */
  ghost predicate PlaceOk(s: State, t: nat)
    requires t in s.threads
  {
    match s.threads[t].phase
    case Idle => t !in s.sched.blocked
    case Waiting => t !in s.sched.runnable
    case _ => IsHeld(s.sched, t)
  }

  /** The operand indices at which a thread may still have a request queued. */
  predicate Entered(ph: Phase, m: nat) {
    match ph
    case Idle => false
    case Trying(order, i) => i <= |order| && m in order[..i]
    case Calling(order, i, cb) => i <= |order| && m in order[..i]
    case Cancelling(k, next, found) => next <= m && m != k
    case Withdrawing(next) => next <= m
    case Waiting => true
  }

  /** A queued request belongs to an operand its thread has tried and not yet cancelled. */
  ghost predicate QueueOk(s: State, c: nat, t: nat)
    requires c in s.chans
  {
    Waits(s.chans[c], t) ==>
      && t in s.threads
      && IndexOf(s.threads[t].op.chans, c) < |s.threads[t].op.chans|
      && Entered(s.threads[t].phase, IndexOf(s.threads[t].op.chans, c))
  }

  /** A queued request stands in the queue of its direction and offers the word of its operand. */
  ghost predicate SenderOk(s: State, c: nat, r: Request)
    requires c in s.chans
  {
    r in s.chans[c].senders ==>
      && r.tid in s.threads
      && var op := s.threads[r.tid].op; var m := IndexOf(op.chans, c);
         m < op.sends && m < |op.chans| == |op.vals| && r.data == op.vals[m]
  }

  ghost predicate ReceiverOk(s: State, c: nat, r: Request)
    requires c in s.chans
  {
    r in s.chans[c].receivers ==>
      r.tid in s.threads && s.threads[r.tid].op.sends <= IndexOf(s.threads[r.tid].op.chans, c)
  }

  /** While the token is live, every operand tried so far still has its request queued. */
  ghost predicate LiveOk(s: State, t: nat, m: nat)
    requires t in s.threads && m < |s.threads[t].op.chans| && s.threads[t].op.chans[m] in s.chans
  {
    t in s.pend && Entered(s.threads[t].phase, m) ==>
      var c := s.chans[s.threads[t].op.chans[m]];
      if m < s.threads[t].op.sends then Has(c.senders, t) else Has(c.receivers, t)
  }

  predicate Calls(s: State, h: nat, p: nat) { h in s.threads && s.threads[h].phase.Calling? && s.threads[h].phase.cb.peer == p }

  /** A running callback serves an engaged thread whose token is spent, and has cancelled what it passed. */
  ghost predicate CallOk(s: State, h: nat)
    requires h in s.threads && s.threads[h].phase.Calling?
  {
    var cb := s.threads[h].phase.cb;
    && cb.peer in s.threads && cb.peer != h && cb.peer !in s.pend
    && var th := s.threads[cb.peer];
       && Engaged(th.phase) && cb.chan in s.chans && cb.next <= |th.op.chans|
       && OneMove(th.op, th.moved) && th.op.chans[th.moved[0].index] == cb.chan
       && cb.found == (if th.moved[0].index < cb.next then th.moved[0].index as int else -1)
       && !Waits(s.chans[cb.chan], cb.peer)
       && forall m :: 0 <= m < cb.next && th.op.chans[m] in s.chans ==> !Waits(s.chans[th.op.chans[m]], cb.peer)
  }

  ghost predicate ChanOk(s: State, c: nat)
    requires c in s.chans
  {
    Settled(s.chans[c]) && c in s.sent && c in s.got && s.got[c] + s.chans[c].buf == s.sent[c]
  }

  /** The scheduler knows exactly the threads, each in one place. */
  ghost predicate PlacesInv(s: State) { OnePlace(s.sched) && s.sched.all == s.threads.Keys }

  /** Channel contents and the own part of each thread. */
  ghost predicate OwnInv(s: State) {
    && s.pend <= s.threads.Keys
    && (forall c :: c in s.chans ==> ChanOk(s, c))
    && (forall t :: t in s.threads ==> ThreadOk(s, t) && PlaceOk(s, t))
  }

  /** What stands in the request queues. */
  ghost predicate QueueInv(s: State) {
    && (forall c, t :: c in s.chans ==> QueueOk(s, c, t))
    && (forall c, r :: c in s.chans ==> SenderOk(s, c, r))
    && (forall c, r :: c in s.chans ==> ReceiverOk(s, c, r))
    && (forall t, m :: t in s.threads && 0 <= m < |s.threads[t].op.chans| && s.threads[t].op.chans[m] in s.chans ==>
          LiveOk(s, t, m))
  }

  /** Each engaged thread with a spent token is served by exactly one running callback, and only those are. */
  ghost predicate CallInv(s: State) {
    && (forall h :: h in s.threads && s.threads[h].phase.Calling? ==> CallOk(s, h))
    && (forall h1, h2, p :: Calls(s, h1, p) && Calls(s, h2, p) ==> h1 == h2)
    && (forall t :: t in s.threads && Engaged(s.threads[t].phase) && t !in s.pend ==> exists h :: Calls(s, h, t))
  }

  ghost predicate Inv(s: State) { PlacesInv(s) && OwnInv(s) && QueueInv(s) && CallInv(s) }
}
