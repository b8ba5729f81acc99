// The boolean compiler: conditions to branches that are patched later
// (limbo/compiler/ecom.b, limbo/compiler/gen.b, the operator tables of limbo/compiler/nodes.b).
// An instruction is known by its place in the instruction list.
module BoolCompiler {

  datatype Option<T> = None | Some(value: T)

  // ---- conditions ----

  datatype Op = Eq | Neq | Lt | Gt | Leq | Geq

  /** opcommute and oprelinvert on the relations. */
  function Commuted(op: Op): Op {
    match op case Eq => Eq case Neq => Neq case Lt => Gt case Gt => Lt case Leq => Geq case Geq => Leq
  }

  function Inverted(op: Op): Op {
    match op case Eq => Neq case Neq => Eq case Lt => Geq case Gt => Leq case Leq => Gt case Geq => Lt
  }

  predicate Holds(op: Op, x: int, y: int) {
    match op case Eq => x == y case Neq => x != y case Lt => x < y case Gt => x > y case Leq => x <= y case Geq => x >= y
  }

  const RCONST := 6
  const RALWAYS := 7
  const RCANT := 10

  /** An integer expression, with what the code generator knows of it: how it can be addressed, the temporaries it needs. */
  datatype Operand = Operand(expr: int, addable: int, temps: int) | Zero

  function Addable(e: Operand): int { if e.Zero? then RCONST else e.addable }
  function Temps(e: Operand): int { if e.Zero? then 0 else e.temps }

  datatype Cond =
    | Nothing
    | Compare(op: Op, left: Operand, right: Operand)
    | Nonzero(e: Operand)
    | Not(c: Cond)
    | And(a: Cond, b: Cond)
    | Or(a: Cond, b: Cond)
    | Comma(effect: Operand, c: Cond)

  /** An empty condition only stands alone. */
  predicate Proper(n: Cond) {
    match n
    case Nothing => false
    case Compare(_, _, _) => true
    case Nonzero(_) => true
    case Not(c) => Proper(c)
    case And(a, b) => Proper(a) && Proper(b)
    case Or(a, b) => Proper(a) && Proper(b)
    case Comma(_, c) => Proper(c)
  }

  type Env = int -> int

  function ValueOf(e: Operand, env: Env): int { if e.Zero? then 0 else env(e.expr) }

  function Value(n: Cond, env: Env): bool {
    match n
    case Nothing => true
    case Compare(op, l, r) => Holds(op, ValueOf(l, env), ValueOf(r, env))
    case Nonzero(e) => ValueOf(e, env) != 0
    case Not(c) => !Value(c, env)
    case And(a, b) => Value(a, env) && Value(b, env)
    case Or(a, b) => Value(a, env) || Value(b, env)
    case Comma(_, c) => Value(c, env)
  }

  /** What happens while a condition is evaluated: operands are computed, comparisons are made. */
  datatype Event = Computed(e: Operand) | Compared(l: Operand, r: Operand)

  /** Operands that are not simply addressed are computed before the comparison. */
  function Prelude(left: Operand, right: Operand): seq<Event> {
    if Addable(right) < RALWAYS then (if Addable(left) >= RCANT then [Computed(left)] else [])
    else if Temps(left) <= Temps(right) then
      [Computed(right)] + (if Addable(left) >= RCANT then [Computed(left)] else [])
    else [Computed(left), Computed(right)]
  }

  function CompareEvents(l: Operand, r: Operand): seq<Event> {
    if Addable(l) < Addable(r) then Prelude(r, l) + [Compared(r, l)] else Prelude(l, r) + [Compared(l, r)]
  }

  /** Short-circuit order: the second operand only when the first does not decide. */
  function Events(n: Cond, env: Env): seq<Event> {
    match n
    case Nothing => []
    case Compare(_, l, r) => CompareEvents(l, r)
    case Nonzero(e) => CompareEvents(e, Zero)
    case Not(c) => Events(c, env)
    case And(a, b) => Events(a, env) + (if Value(a, env) then Events(b, env) else [])
    case Or(a, b) => Events(a, env) + (if Value(a, env) then [] else Events(b, env))
    case Comma(e, c) => [Computed(e)] + Events(c, env)
  }

  // ---- code and its execution ----

  /** The branch field links pending branches until it is patched to the target. */
  datatype Inst = Compute(e: Operand) | Bra(op: Op, l: Operand, r: Operand, branch: Option<nat>)

  type Code = seq<Inst>

  datatype Exit = Fall | Out

  datatype Run = Run(exit: Exit, events: seq<Event>)

  /** Between lo and hi every branch that is not pending goes forward, at most to hi. */
  ghost predicate Fragment(code: Code, lo: nat, hi: nat, pend: set<nat>) {
    && lo <= hi <= |code|
    && forall i :: lo <= i < hi && code[i].Bra? && i !in pend ==> code[i].branch != None && i < code[i].branch.value <= hi
  }

  /** From p: fall through at hi, or leave by a pending branch. */
  ghost function Execute(code: Code, p: nat, hi: nat, pend: set<nat>, env: Env): Run
    requires Fragment(code, p, hi, pend)
    decreases hi - p
  {
    if p == hi then Run(Fall, [])
    else match code[p]
      case Compute(e) => After([Computed(e)], Execute(code, p + 1, hi, pend, env))
      case Bra(op, l, r, branch) =>
        if !Holds(op, ValueOf(l, env), ValueOf(r, env)) then After([Compared(l, r)], Execute(code, p + 1, hi, pend, env))
        else if p in pend then Run(Out, [Compared(l, r)])
        else After([Compared(l, r)], Execute(code, branch.value, hi, pend, env))
  }

  function After(events: seq<Event>, r: Run): Run { r.(events := events + r.events) }

  /** One piece of code, then another if the first falls through. */
  function Then(r: Run, s: Run): Run { if r.exit == Fall then After(r.events, s) else r }

  lemma AfterThen(events: seq<Event>, r: Run, s: Run)
    ensures After(events, Then(r, s)) == Then(After(events, r), s)
  {
    if r.exit == Fall { assert events + (r.events + s.events) == events + r.events + s.events; }
  }

  /** Code put together from two pieces runs as one after the other. */
  lemma {:induction false} ExecuteSplit(code: Code, p: nat, mid: nat, hi: nat, pend: set<nat>, env: Env)
    requires Fragment(code, p, mid, pend) && Fragment(code, mid, hi, pend)
    ensures Fragment(code, p, hi, pend)
    ensures Execute(code, p, hi, pend, env) == Then(Execute(code, p, mid, pend, env), Execute(code, mid, hi, pend, env))
    decreases mid - p
  {
    var rest := Execute(code, mid, hi, pend, env);
    if p < mid {
      ExecuteSplit(code, p + 1, mid, hi, pend, env);
      match code[p]
      case Compute(e) => AfterThen([Computed(e)], Execute(code, p + 1, mid, pend, env), rest);
      case Bra(op, l, r, branch) =>
        AfterThen([Compared(l, r)], Execute(code, p + 1, mid, pend, env), rest);
        if p !in pend {
          ExecuteSplit(code, branch.value, mid, hi, pend, env);
          AfterThen([Compared(l, r)], Execute(code, branch.value, mid, pend, env), rest);
        }
    } else {
      assert rest.events == [] + rest.events;
    }
  }

  /** Only the instructions of the piece matter, and which of them are pending. */
  lemma {:induction false} ExecuteSame(code: Code, code': Code, p: nat, hi: nat, pend: set<nat>, pend': set<nat>, env: Env)
    requires Fragment(code, p, hi, pend) && hi <= |code'|
    requires forall i :: p <= i < hi ==> code'[i] == code[i] && (i in pend <==> i in pend')
    ensures Fragment(code', p, hi, pend')
    ensures Execute(code', p, hi, pend', env) == Execute(code, p, hi, pend, env)
    decreases hi - p
  {
    if p < hi {
      ExecuteSame(code, code', p + 1, hi, pend, pend', env);
      if code[p].Bra? && p !in pend { ExecuteSame(code, code', code[p].branch.value, hi, pend, pend', env); }
    }
  }

  /** The code with every listed branch set to dst. */
  function Patched(code: Code, list: seq<nat>, dst: nat): (r: Code)
    ensures |r| == |code|
  {
    seq(|code|, i requires 0 <= i < |code| => if i in list && code[i].Bra? then code[i].(branch := Some(dst)) else code[i])
  }

  /** Pending branches of the first piece, patched to the end of the second, now fall through there. */
  lemma {:induction false} ExecutePatched(code: Code, list: seq<nat>, p: nat, mid: nat, hi: nat, pend: set<nat>, outer: set<nat>,
                                          env: Env)
    requires Fragment(code, p, mid, pend) && mid < hi <= |code|
    requires forall i :: p <= i < mid && i in pend ==> i in list
    requires forall i :: i in list ==> i in pend && i < mid
    requires Fragment(code, mid, hi, outer)
    requires forall i :: i in outer ==> i >= mid
    ensures var after := Patched(code, list, hi);
            && Fragment(after, p, hi, outer)
            && Execute(after, p, hi, outer, env) ==
               var r := Execute(code, p, mid, pend, env);
               if r.exit == Out then Run(Fall, r.events) else After(r.events, Execute(code, mid, hi, outer, env))
    decreases mid - p
  {
    var after := Patched(code, list, hi);
    if p == mid {
      ExecuteSame(code, after, mid, hi, outer, outer, env);
    } else {
      ExecutePatched(code, list, p + 1, mid, hi, pend, outer, env);
      var rest := Execute(code, mid, hi, outer, env);
      match code[p]
      case Compute(e) => AfterRun([Computed(e)], Execute(code, p + 1, mid, pend, env), rest);
      case Bra(op, l, r, branch) =>
        AfterRun([Compared(l, r)], Execute(code, p + 1, mid, pend, env), rest);
        if p !in pend {
          assert p !in list;
          ExecutePatched(code, list, branch.value, mid, hi, pend, outer, env);
          AfterRun([Compared(l, r)], Execute(code, branch.value, mid, pend, env), rest);
        } else {
          assert after[p].branch == Some(hi);
          assert Execute(after, hi, hi, outer, env) == Run(Fall, []);
        }
    }
  }

  lemma AfterRun(events: seq<Event>, r: Run, rest: Run)
    ensures After(events, if r.exit == Out then Run(Fall, r.events) else After(r.events, rest)) ==
            var s := After(events, r); if s.exit == Out then Run(Fall, s.events) else After(s.events, rest)
  {
    assert events + (r.events + rest.events) == events + r.events + rest.events;
  }

  // ---- branch chains ----

  /** The pending branches that start at b, newest first. */
  ghost predicate Chain(code: Code, b: Option<nat>, list: seq<nat>)
    decreases |list|
  {
    if list == [] then b == None
    else b == Some(list[0]) && list[0] < |code| && code[list[0]].Bra? && Chain(code, code[list[0]].branch, list[1..])
  }

  ghost predicate Descending(list: seq<nat>) { forall i, j :: 0 <= i < j < |list| ==> list[i] > list[j] }

  lemma {:induction false} ChainSame(code: Code, code': Code, b: Option<nat>, list: seq<nat>)
    requires Chain(code, b, list) && |code| <= |code'| && forall i :: i in list && i < |code| ==> code'[i] == code[i]
    ensures Chain(code', b, list)
    decreases |list|
  {
    if list != [] { ChainSame(code, code', code[list[0]].branch, list[1..]); }
  }

  lemma {:induction false} ChainInside(code: Code, b: Option<nat>, list: seq<nat>)
    requires Chain(code, b, list)
    ensures forall i :: i in list ==> i < |code| && code[i].Bra?
    decreases |list|
  {
    if list != [] { ChainInside(code, code[list[0]].branch, list[1..]); }
  }

  ghost function SetOf(list: seq<nat>): set<nat> { set i | i in list }

  // ---- the compiler ----

  /** What compiling a condition adds: code that falls through exactly when the condition equals iftrue and otherwise leaves
      by one of its own pending branches, which come in front of the outer ones; nothing else changes. */
  ghost predicate Compiles(n: Cond, iftrue: bool, was: Code, code: Code, b: Option<nat>, pend: seq<nat>, outer: seq<nat>) {
    && was <= code && Chain(code, b, pend + outer) && Descending(pend)
    && (forall i :: i in pend ==> |was| <= i < |code|)
    && Fragment(code, |was|, |code|, SetOf(pend))
    && forall env :: Execute(code, |was|, |code|, SetOf(pend), env) == Expected(n, iftrue, env)
  }

  ghost function Expected(n: Cond, iftrue: bool, env: Env): Run {
    Run(if Value(n, env) == iftrue then Fall else Out, Events(n, env))
  }

  class CodeGen {
    var code: Code

    constructor ()
      ensures code == []
    {
      code := [];
    }

    /** The place of the next instruction. */
    function NextInst(): nat
      reads this
    {
      |code|
    }

    method Emit(i: Inst) returns (at: nat)
      modifies this
      ensures at == |old(code)| && code == old(code) + [i]
    {
      at := |code|;
      code := code + [i];
    }

    /** patch: every branch of the chain goes to dst. */
    method Patch(b: Option<nat>, dst: nat, ghost list: seq<nat>)
      requires Chain(code, b, list) && Descending(list)
      modifies this
      ensures code == Patched(old(code), list, dst)
    {
      var p := b;
      ghost var n := 0;
      ghost var was := code;
      ChainInside(code, b, list);
      assert list[0..] == list;
      assert code == Patched(was, list[..0], dst);
      while p != None
        invariant 0 <= n <= |list| && Chain(was, p, list[n..]) && code == Patched(was, list[..n], dst)
        decreases |list| - n
      {
        var i := p.value;
        assert i == list[n] && i !in list[..n];
        p := code[i].branch;
        code := code[i := code[i].(branch := Some(dst))];
        assert list[..n + 1] == list[..n] + [i];
        assert list[n..][1..] == list[n + 1..];
        n := n + 1;
      }
      assert list[n..] == [] ==> list[..n] == list;
    }

    /** Code for the operands that have no simple address. */
    method EmitOperands(left: Operand, right: Operand)
      modifies this
      ensures code == old(code) + PreludeCode(left, right)
    {
      if Addable(right) < RALWAYS {
        if Addable(left) >= RCANT { var _ := Emit(Compute(left)); }
      } else if Temps(left) <= Temps(right) {
        var _ := Emit(Compute(right));
        if Addable(left) >= RCANT { var _ := Emit(Compute(left)); }
      } else {
        var _ := Emit(Compute(left));
        var _ := Emit(Compute(right));
      }
    }

    /** Operands into addressable places, a branch for when the relation does not come out as wanted. */
    method Leaf(n: Cond, op0: Op, left0: Operand, right0: Operand, iftrue: bool, b: Option<nat>, ghost outer: seq<nat>)
      returns (bb: Option<nat>, ghost pend: seq<nat>)
      requires n == Compare(op0, left0, right0) || (n == Nonzero(left0) && op0 == Neq && right0 == Zero)
      requires Chain(code, b, outer)
      modifies this
      ensures Compiles(n, iftrue, old(code), code, bb, pend, outer) && |code| > |old(code)|
    {
      hide Compiles, Holds, Value, Events, Prelude, PreludeCode, Chain;
      var op, left, right := op0, left0, right0;
      if iftrue { op := Inverted(op); }
      if Addable(left) < Addable(right) {
        left, right := right, left;
        op := Commuted(op);
      }
      EmitOperands(left, right);
      var at := Emit(Bra(op, left, right, b));
      bb := Some(at);
      pend := [at];
      LeafMeans(n, op0, left0, right0, iftrue, op, left, right);
      LeafCompiles(n, iftrue, old(code), code, left, right, op, b, outer);
    }

    /** Fall through when the condition equals iftrue. */
    method BCom(n: Cond, iftrue: bool, b: Option<nat>, ghost outer: seq<nat>) returns (bb: Option<nat>, ghost pend: seq<nat>)
      requires Proper(n) || (n.Nothing? && iftrue)
      requires Chain(code, b, outer)
      modifies this
      ensures Compiles(n, iftrue, old(code), code, bb, pend, outer) && (Proper(n) ==> |code| > |old(code)|)
      decreases n, 1
    {
      hide Compiles, Chain;
      match n
      case Nothing =>
        bb, pend := b, [];
        NothingCompiles(code, b, outer);
      case Compare(op, left, right) =>
        bb, pend := Leaf(n, op, left, right, iftrue, b, outer);
      case Nonzero(e) =>
        bb, pend := Leaf(n, Neq, e, Zero, iftrue, b, outer);
      case Not(c) =>
        bb, pend := BCom(c, !iftrue, b, outer);
        NotCompiles(c, iftrue, old(code), code, bb, pend, outer);
      case And(_, _) =>
        if !iftrue { bb, pend := OrOr(n, iftrue, b, outer); } else { bb, pend := AndAnd(n, iftrue, b, outer); }
      case Or(_, _) =>
        if !iftrue { bb, pend := AndAnd(n, iftrue, b, outer); } else { bb, pend := OrOr(n, iftrue, b, outer); }
      case Comma(e, c) =>
        var _ := Emit(Compute(e));
        ghost var mid := code;
        ChainInside(old(code), b, outer);
        ChainSame(old(code), mid, b, outer);
        bb, pend := BCom(c, iftrue, b, outer);
        CommaCompiles(e, c, iftrue, old(code), mid, code, bb, pend, outer);
    }

    method AndAnd(n: Cond, iftrue: bool, b: Option<nat>, ghost outer: seq<nat>) returns (bb: Option<nat>, ghost pend: seq<nat>)
      requires Proper(n) && (if iftrue then n.And? else n.Or?)
      requires Chain(code, b, outer)
      modifies this
      ensures Compiles(n, iftrue, old(code), code, bb, pend, outer) && |code| > |old(code)|
      decreases n, 0
    {
      hide Compiles, Chain;
      ghost var pend1, pend2;
      bb, pend1 := BCom(n.a, iftrue, b, outer);
      ghost var mid := code;
      CompiledChain(n.a, iftrue, old(code), mid, bb, pend1, outer);
      ghost var b1 := bb;
      bb, pend2 := BCom(n.b, iftrue, bb, pend1 + outer);
      pend := pend2 + pend1;
      AndAndCompiles(n, iftrue, old(code), mid, code, b1, pend1, bb, pend2, outer);
    }

    method OrOr(n: Cond, iftrue: bool, b: Option<nat>, ghost outer: seq<nat>) returns (bb: Option<nat>, ghost pend: seq<nat>)
      requires Proper(n) && (if iftrue then n.Or? else n.And?)
      requires Chain(code, b, outer)
      modifies this
      ensures Compiles(n, iftrue, old(code), code, bb, pend, outer) && |code| > |old(code)|
      decreases n, 0
    {
      hide Compiles, Chain;
      var own;
      ghost var pend1;
      EmptyChain(code);
      own, pend1 := BCom(n.a, !iftrue, None, []);
      ghost var mid := code;
      CompiledChain(n.a, !iftrue, old(code), mid, own, pend1, []);
      assert pend1 + [] == pend1;
      CompiledOver(n.a, !iftrue, old(code), mid, own, pend1, b, outer);
      bb, pend := BCom(n.b, iftrue, b, outer);
      ghost var both := code;
      CompiledOver(n.b, iftrue, mid, both, bb, pend, own, pend1);
      Patch(own, NextInst(), pend1);
      OrOrCompiles(n, iftrue, old(code), mid, both, own, pend1, bb, pend, outer);
    }
  }

  /** Inverting and swapping: the branch is taken exactly when the condition is not what is wanted. */
  lemma LeafMeans(n: Cond, op0: Op, left0: Operand, right0: Operand, iftrue: bool, op: Op, l: Operand, r: Operand)
    requires n == Compare(op0, left0, right0) || (n == Nonzero(left0) && op0 == Neq && right0 == Zero)
    requires var op1 := if iftrue then Inverted(op0) else op0;
             if Addable(left0) < Addable(right0) then l == right0 && r == left0 && op == Commuted(op1)
             else l == left0 && r == right0 && op == op1
    ensures forall env :: Holds(op, ValueOf(l, env), ValueOf(r, env)) <==> Value(n, env) != iftrue
    ensures forall env :: Events(n, env) == Prelude(l, r) + [Compared(l, r)]
  {
  }

  lemma LeafCompiles(n: Cond, iftrue: bool, was: Code, code: Code, l: Operand, r: Operand, op: Op, b: Option<nat>,
                     outer: seq<nat>)
    requires Chain(was, b, outer) && code == was + PreludeCode(l, r) + [Bra(op, l, r, b)]
    requires forall env :: Holds(op, ValueOf(l, env), ValueOf(r, env)) <==> Value(n, env) != iftrue
    requires forall env :: Events(n, env) == Prelude(l, r) + [Compared(l, r)]
    ensures Compiles(n, iftrue, was, code, Some(|code| - 1), [|code| - 1], outer)
  {
    var at := |code| - 1;
    assert code[|was|..] == PreludeCode(l, r) + [Bra(op, l, r, b)];
    ChainInside(was, b, outer);
    ChainSame(was, code, b, outer);
    assert ([at] + outer)[1..] == outer;
    assert SetOf([at]) == {at};
    assert Fragment(code, |was|, |code|, {at}) by { LeafRuns(code, |was|, l, r, op, b, _ => 0); }
    forall env ensures Execute(code, |was|, |code|, {at}, env) == Expected(n, iftrue, env) {
      LeafRuns(code, |was|, l, r, op, b, env);
    }
  }

  lemma LeafRuns(code: Code, lo: nat, l: Operand, r: Operand, op: Op, b: Option<nat>, env: Env)
    requires lo < |code| && code[lo..] == PreludeCode(l, r) + [Bra(op, l, r, b)]
    ensures Fragment(code, lo, |code|, {|code| - 1})
    ensures Execute(code, lo, |code|, {|code| - 1}, env) ==
            Run(if Holds(op, ValueOf(l, env), ValueOf(r, env)) then Out else Fall, Prelude(l, r) + [Compared(l, r)])
  {
    PreludeEvents(l, r);
    hide Execute, Fragment, PreludeCode, Prelude, EventsOf, Holds;
    FrontIs(code, lo, PreludeCode(l, r), Bra(op, l, r, b));
    FrontRuns(code, lo, |code| - 1, env);
  }

  /** Code that only computes, and a branch that is pending. */
  lemma FrontRuns(code: Code, lo: nat, n: nat, env: Env)
    requires lo <= n == |code| - 1 && code[n].Bra? && forall i :: lo <= i < n ==> code[i].Compute?
    ensures Fragment(code, lo, n + 1, {n})
    ensures Execute(code, lo, n + 1, {n}, env) ==
            Run(if Holds(code[n].op, ValueOf(code[n].l, env), ValueOf(code[n].r, env)) then Out else Fall,
                EventsOf(code[lo..n]) + [Compared(code[n].l, code[n].r)])
  {
    LastRuns(code, n, env);
    hide Execute, Fragment, EventsOf, Holds;
    ComputesRun(code, lo, n, env);
    ExecuteSplit(code, lo, n, n + 1, {n}, env);
  }

  /** The instructions in front of the last one. */
  lemma FrontIs(code: Code, lo: nat, front: Code, last: Inst)
    requires lo < |code| && code[lo..] == front + [last] && forall i :: 0 <= i < |front| ==> front[i].Compute?
    ensures code[lo..|code| - 1] == front && code[|code| - 1] == last
    ensures forall i :: lo <= i < |code| - 1 ==> code[i].Compute?
  {
    var n := |code| - 1;
    assert code[n] == code[lo..][n - lo];
    assert forall i :: lo <= i < n ==> code[i] == code[lo..][i - lo] == front[i - lo];
  }

  lemma LastRuns(code: Code, n: nat, env: Env)
    requires n == |code| - 1 && code[n].Bra?
    ensures Fragment(code, n, n + 1, {n})
    ensures Execute(code, n, n + 1, {n}, env) ==
            Run(if Holds(code[n].op, ValueOf(code[n].l, env), ValueOf(code[n].r, env)) then Out else Fall,
                [Compared(code[n].l, code[n].r)])
  {
  }

  lemma PreludeEvents(l: Operand, r: Operand)
    ensures EventsOf(PreludeCode(l, r)) == Prelude(l, r)
    ensures forall i :: 0 <= i < |PreludeCode(l, r)| ==> PreludeCode(l, r)[i].Compute?
  {
    OneEvent(l);
    OneEvent(r);
    TwoEvents(l, r);
    TwoEvents(r, l);
    assert [Compute(r)] + [Compute(l)] == [Compute(r), Compute(l)];
  }

  lemma OneEvent(x: Operand)
    ensures EventsOf([Compute(x)]) == [Computed(x)]
  {
  }

  lemma TwoEvents(x: Operand, y: Operand)
    ensures EventsOf([Compute(x), Compute(y)]) == [Computed(x), Computed(y)]
  {
    assert [Compute(x), Compute(y)][1..] == [Compute(y)];
    OneEvent(y);
  }

  /** Code that only computes falls through. */
  lemma {:induction false} ComputesRun(code: Code, lo: nat, n: nat, env: Env)
    requires lo <= n < |code| && forall i :: lo <= i < n ==> code[i].Compute?
    ensures Fragment(code, lo, n, {n})
    ensures Execute(code, lo, n, {n}, env) == Run(Fall, EventsOf(code[lo..n]))
    decreases n - lo
  {
    if lo < n {
      ComputesRun(code, lo + 1, n, env);
      assert code[lo..n][1..] == code[lo + 1..n];
    }
  }

  function EventsOf(code: Code): seq<Event> {
    if code == [] then [] else (if code[0].Compute? then [Computed(code[0].e)] else []) + EventsOf(code[1..])
  }

  function PreludeCode(l: Operand, r: Operand): Code {
    if Addable(r) < RALWAYS then (if Addable(l) >= RCANT then [Compute(l)] else [])
    else if Temps(l) <= Temps(r) then [Compute(r)] + (if Addable(l) >= RCANT then [Compute(l)] else [])
    else [Compute(l), Compute(r)]
  }

  lemma NothingCompiles(code: Code, b: Option<nat>, outer: seq<nat>)
    requires Chain(code, b, outer)
    ensures Compiles(Nothing, true, code, code, b, [], outer)
  {
    assert [] + outer == outer;
  }

  lemma NotCompiles(c: Cond, iftrue: bool, was: Code, code: Code, b: Option<nat>, pend: seq<nat>, outer: seq<nat>)
    requires Compiles(c, !iftrue, was, code, b, pend, outer)
    ensures Compiles(Not(c), iftrue, was, code, b, pend, outer)
  {
    assert forall env :: Expected(Not(c), iftrue, env) == Expected(c, !iftrue, env);
  }

  lemma CompiledChain(n: Cond, iftrue: bool, was: Code, code: Code, b: Option<nat>, pend: seq<nat>, outer: seq<nat>)
    requires Compiles(n, iftrue, was, code, b, pend, outer)
    ensures Chain(code, b, pend + outer) && Descending(pend)
  {
  }

  lemma EmptyChain(code: Code)
    ensures Chain(code, None, [])
  {
  }

  lemma DescendingSum(s: seq<nat>, t: seq<nat>, mid: nat)
    requires Descending(s) && Descending(t)
    requires (forall i :: i in s ==> i >= mid) && (forall i :: i in t ==> i < mid)
    ensures Descending(s + t)
  {
    var all := s + t;
    forall i, j | 0 <= i < j < |all| ensures all[i] > all[j] {
      if i < |s| && j >= |s| { assert s[i] in s && t[j - |s|] in t; }
    }
  }

  /** Chains from before stay what they are. */
  lemma CompiledOver(n: Cond, iftrue: bool, was: Code, code: Code, b: Option<nat>, pend: seq<nat>, c: Option<nat>,
                     other: seq<nat>)
    requires exists outer :: Compiles(n, iftrue, was, code, b, pend, outer)
    requires Chain(was, c, other)
    ensures Chain(code, c, other)
  {
    ChainInside(was, c, other);
    ChainSame(was, code, c, other);
  }

  lemma CommaCompiles(e: Operand, c: Cond, iftrue: bool, was: Code, mid: Code, code: Code, b: Option<nat>, pend: seq<nat>,
                      outer: seq<nat>)
    requires mid == was + [Compute(e)] && Compiles(c, iftrue, mid, code, b, pend, outer)
    ensures Compiles(Comma(e, c), iftrue, was, code, b, pend, outer)
  {
    hide Chain, Descending;
    assert code[|was|] == Compute(e);
    forall env ensures Execute(code, |was|, |code|, SetOf(pend), env) == Expected(Comma(e, c), iftrue, env) {
      assert Execute(code, |mid|, |code|, SetOf(pend), env) == Expected(c, iftrue, env);
    }
  }

  lemma AndAndCompiles(n: Cond, iftrue: bool, was: Code, mid: Code, code: Code, b1: Option<nat>, pend1: seq<nat>,
                       b2: Option<nat>, pend2: seq<nat>, outer: seq<nat>)
    requires if iftrue then n.And? else n.Or?
    requires Compiles(n.a, iftrue, was, mid, b1, pend1, outer)
    requires Compiles(n.b, iftrue, mid, code, b2, pend2, pend1 + outer)
    ensures Compiles(n, iftrue, was, code, b2, pend2 + pend1, outer)
  {
    hide Execute, Fragment, Chain, Expected, Descending;
    var pend := pend2 + pend1;
    var p := SetOf(pend);
    assert pend + outer == pend2 + (pend1 + outer);
    DescendingSum(pend2, pend1, |mid|);
    AndAndRuns(n, iftrue, was, mid, code, pend1, pend2, p, _ => 0);
    forall env ensures Fragment(code, |was|, |code|, p) && Execute(code, |was|, |code|, p, env) == Expected(n, iftrue, env) {
      AndAndRuns(n, iftrue, was, mid, code, pend1, pend2, p, env);
    }
  }

  lemma AndAndRuns(n: Cond, iftrue: bool, was: Code, mid: Code, code: Code, pend1: seq<nat>, pend2: seq<nat>, p: set<nat>,
                   env: Env)
    requires if iftrue then n.And? else n.Or?
    requires |was| <= |mid| && mid <= code && p == SetOf(pend1) + SetOf(pend2)
    requires (forall i :: i in pend1 ==> i < |mid|) && (forall i :: i in pend2 ==> i >= |mid|)
    requires Fragment(mid, |was|, |mid|, SetOf(pend1)) && Fragment(code, |mid|, |code|, SetOf(pend2))
    requires Execute(mid, |was|, |mid|, SetOf(pend1), env) == Expected(n.a, iftrue, env)
    requires Execute(code, |mid|, |code|, SetOf(pend2), env) == Expected(n.b, iftrue, env)
    ensures Fragment(code, |was|, |code|, p) && Execute(code, |was|, |code|, p, env) == Expected(n, iftrue, env)
  {
    hide Execute, Fragment;
    ExecuteSame(mid, code, |was|, |mid|, SetOf(pend1), p, env);
    ExecuteSame(code, code, |mid|, |code|, SetOf(pend2), p, env);
    ExecuteSplit(code, |was|, |mid|, |code|, p, env);
  }

  lemma OrOrCompiles(n: Cond, iftrue: bool, was: Code, mid: Code, code: Code, own: Option<nat>, pend1: seq<nat>,
                     b2: Option<nat>, pend2: seq<nat>, outer: seq<nat>)
    requires if iftrue then n.Or? else n.And?
    requires Compiles(n.a, !iftrue, was, mid, own, pend1, [])
    requires Compiles(n.b, iftrue, mid, code, b2, pend2, outer) && |mid| < |code|
    requires exists b :: Chain(was, b, outer)
    ensures Compiles(n, iftrue, was, Patched(code, pend1, |code|), b2, pend2, outer)
  {
    hide Execute, Fragment, Chain, Expected, Descending;
    var after := Patched(code, pend1, |code|);
    var b :| Chain(was, b, outer);
    ChainInside(was, b, outer);
    assert forall i :: i in pend2 + outer ==> i !in pend1;
    ChainInside(code, b2, pend2 + outer);
    ChainSame(code, after, b2, pend2 + outer);
    var p1, p2 := SetOf(pend1), SetOf(pend2);
    OrOrRuns(n, iftrue, was, mid, code, pend1, p1, p2, _ => 0);
    forall env ensures Fragment(after, |was|, |after|, p2) && Execute(after, |was|, |after|, p2, env) == Expected(n, iftrue, env) {
      OrOrRuns(n, iftrue, was, mid, code, pend1, p1, p2, env);
    }
  }

  lemma OrOrRuns(n: Cond, iftrue: bool, was: Code, mid: Code, code: Code, pend1: seq<nat>, p1: set<nat>, p2: set<nat>, env: Env)
    requires if iftrue then n.Or? else n.And?
    requires |was| <= |mid| < |code| && mid <= code && p1 == SetOf(pend1)
    requires (forall i :: i in pend1 ==> i < |mid|) && (forall i :: i in p2 ==> i >= |mid|)
    requires Fragment(mid, |was|, |mid|, p1) && Fragment(code, |mid|, |code|, p2)
    requires Execute(mid, |was|, |mid|, p1, env) == Expected(n.a, !iftrue, env)
    requires Execute(code, |mid|, |code|, p2, env) == Expected(n.b, iftrue, env)
    ensures var after := Patched(code, pend1, |code|);
            Fragment(after, |was|, |after|, p2) && Execute(after, |was|, |after|, p2, env) == Expected(n, iftrue, env)
  {
    hide Execute, Fragment, Patched;
    ExecuteSame(mid, code, |was|, |mid|, p1, p1, env);
    ExecutePatched(code, pend1, |was|, |mid|, |code|, p1, p2, env);
  }

  // ---- the patched code on the machine ----

  /** Every branch between lo and hi has a target, forward inside the piece or outside it. */
  ghost predicate Runnable(code: Code, lo: nat, hi: nat) {
    && lo <= hi <= |code|
    && forall i :: lo <= i < hi && code[i].Bra? ==>
         code[i].branch != None && (i < code[i].branch.value || !(lo <= code[i].branch.value < hi))
  }

  /** Where control leaves the piece, and what happened on the way. */
  ghost function Machine(code: Code, lo: nat, hi: nat, p: nat, env: Env): (nat, seq<Event>)
    requires Runnable(code, lo, hi)
    decreases if lo <= p < hi then hi - p else 0
  {
    if !(lo <= p < hi) then (p, [])
    else match code[p]
      case Compute(e) => var (q, events) := Machine(code, lo, hi, p + 1, env); (q, [Computed(e)] + events)
      case Bra(op, l, r, branch) =>
        var next := if Holds(op, ValueOf(l, env), ValueOf(r, env)) then branch.value else p + 1;
        var (q, events) := Machine(code, lo, hi, next, env); (q, [Compared(l, r)] + events)
  }

  lemma {:induction false} MachineRuns(code: Code, later: Code, lo: nat, hi: nat, p: nat, pend: seq<nat>, dst: nat, env: Env)
    requires Fragment(code, lo, hi, SetOf(pend)) && lo <= p <= hi <= |later| && !(lo <= dst < hi)
    requires forall i :: lo <= i < hi ==> later[i] == Patched(code, pend, dst)[i]
    ensures Runnable(later, lo, hi) && Fragment(code, p, hi, SetOf(pend))
    ensures var r := Execute(code, p, hi, SetOf(pend), env);
            Machine(later, lo, hi, p, env) == (if r.exit == Fall then hi else dst, r.events)
    decreases hi - p
  {
    assert forall i :: lo <= i < hi && code[i].Bra? && i !in SetOf(pend) ==> later[i] == code[i];
    if p < hi {
      MachineRuns(code, later, lo, hi, p + 1, pend, dst, env);
      if code[p].Bra? {
        if p in SetOf(pend) {
          assert later[p] == code[p].(branch := Some(dst));
          assert Machine(later, lo, hi, dst, env) == (dst, []);
          assert [Compared(code[p].l, code[p].r)] + [] == [Compared(code[p].l, code[p].r)];
        } else {
          MachineRuns(code, later, lo, hi, code[p].branch.value, pend, dst, env);
        }
      }
    }
  }

  /** Whatever is compiled after the condition: once its branches are patched to dst, control falls through behind it exactly when
      the condition equals iftrue and reaches dst otherwise, in short-circuit order. */
  lemma PatchedConditionMeans(n: Cond, iftrue: bool, was: Code, code: Code, b: Option<nat>, pend: seq<nat>, outer: seq<nat>,
                              later: Code, dst: nat, env: Env)
    requires Compiles(n, iftrue, was, code, b, pend, outer)
    requires |later| >= |code| && !(|was| <= dst < |code|)
    requires forall i :: |was| <= i < |code| ==> later[i] == Patched(code, pend, dst)[i]
    ensures Runnable(later, |was|, |code|)
    ensures Machine(later, |was|, |code|, |was|, env) == (if Value(n, env) == iftrue then |code| else dst, Events(n, env))
  {
    MachineRuns(code, later, |was|, |code|, |was|, pend, dst, env);
    assert Execute(code, |was|, |code|, SetOf(pend), env) == Expected(n, iftrue, env);
  }

  /** The branches that a condition leaves pending are its own: none of them is in an outer list. */
  lemma PendingListsAreDisjoint(n: Cond, iftrue: bool, was: Code, code: Code, b: Option<nat>, pend: seq<nat>, outer: seq<nat>,
                                c: Option<nat>)
    requires Compiles(n, iftrue, was, code, b, pend, outer) && Chain(was, c, outer)
    ensures forall i :: i in pend ==> i !in outer
  {
    ChainInside(was, c, outer);
  }

  // ---- operands are there when they are compared ----

  /** Whatever is compared at i and cannot be addressed has been computed right before. */
  ghost predicate Prepared(events: seq<Event>, i: nat)
    requires i < |events|
  {
    events[i].Compared? ==> JustComputed(events, i, events[i].l) && JustComputed(events, i, events[i].r)
  }

  ghost predicate JustComputed(events: seq<Event>, i: nat, x: Operand)
    requires i < |events|
  {
    Addable(x) >= RCANT ==> exists j: nat :: i - 2 <= j < i && events[j] == Computed(x)
  }

  ghost predicate AllPrepared(events: seq<Event>) { forall i :: 0 <= i < |events| ==> Prepared(events, i) }

  lemma PreparedSum(s: seq<Event>, t: seq<Event>)
    requires AllPrepared(s) && AllPrepared(t)
    ensures AllPrepared(s + t)
  {
    var all := s + t;
    forall i | 0 <= i < |all| && all[i].Compared? ensures Prepared(all, i) {
      if i < |s| {
        ComputedEarlier(s, t, i, all[i].l);
        ComputedEarlier(s, t, i, all[i].r);
      } else {
        ComputedLater(s, t, i - |s|, all[i].l);
        ComputedLater(s, t, i - |s|, all[i].r);
      }
    }
  }

  lemma ComputedEarlier(s: seq<Event>, t: seq<Event>, i: nat, x: Operand)
    requires i < |s| && s[i].Compared? && Prepared(s, i) && (x == s[i].l || x == s[i].r)
    ensures JustComputed(s + t, i, x)
  {
    if Addable(x) >= RCANT {
      var j: nat :| i - 2 <= j < i && s[j] == Computed(x);
      assert (s + t)[j] == Computed(x);
    }
  }

  lemma ComputedLater(s: seq<Event>, t: seq<Event>, i: nat, x: Operand)
    requires i < |t| && t[i].Compared? && Prepared(t, i) && (x == t[i].l || x == t[i].r)
    ensures JustComputed(s + t, |s| + i, x)
  {
    if Addable(x) >= RCANT {
      var j: nat :| i - 2 <= j < i && t[j] == Computed(x);
      assert (s + t)[|s| + j] == Computed(x);
    }
  }

  lemma ComparePrepared(l: Operand, r: Operand)
    ensures AllPrepared(CompareEvents(l, r))
  {
    var events := CompareEvents(l, r);
    var k := |events| - 1;
    forall x | Addable(x) >= RCANT && (x == l || x == r) ensures JustComputed(events, k, x) {
      if k == 1 { assert events[0] == Computed(x); } else { assert events[0] == Computed(x) || events[1] == Computed(x); }
    }
  }

  /** In every evaluation of every condition, an operand that cannot be addressed has just been computed when it is compared. */
  lemma {:induction false} OperandsArePrepared(n: Cond, env: Env)
    ensures AllPrepared(Events(n, env))
  {
    match n
    case Nothing =>
    case Compare(_, l, r) => ComparePrepared(l, r);
    case Nonzero(e) => ComparePrepared(e, Zero);
    case Not(c) => OperandsArePrepared(c, env);
    case And(a, b) =>
      OperandsArePrepared(a, env);
      OperandsArePrepared(b, env);
      PreparedSum(Events(a, env), Events(b, env));
      assert Events(a, env) + [] == Events(a, env);
    case Or(a, b) =>
      OperandsArePrepared(a, env);
      OperandsArePrepared(b, env);
      PreparedSum(Events(a, env), Events(b, env));
      assert Events(a, env) + [] == Events(a, env);
    case Comma(e, c) =>
      OperandsArePrepared(c, env);
      PreparedSum([Computed(e)], Events(c, env));
  }

  /** Of two operands that are computed, the one that needs more temporaries goes first. */
  lemma MoreTemporariesFirst(l: Operand, r: Operand)
    ensures var events := CompareEvents(l, r);
            |events| == 3 ==> events[0].Computed? && events[1].Computed? && Temps(events[0].e) >= Temps(events[1].e)
  {
  }
}
