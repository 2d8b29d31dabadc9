// The emitted blocks simulate the source: code found anywhere in a program
// with unique labels, started in the block it was emitted for, performs the
// same actions on the same state and ends where the outcome says.
module LowerSim {
  import opened Ast
  import opened Semantics
  import opened Ir
  import opened Emit

  // `m` has moved to position `pc`, in block `cur`, with state `s`; registers
  // below `n` are as in `m0`.
  ghost predicate Arrived<S>(m0: Config<S>, m: Config<S>, pc: nat, cur: Label, s: S, n: nat) {
    m0.Running? && m.Running? && m.pc == pc && m.cur == cur && m.s == s && Agree(m0.regs, m.regs, n)
  }

  // At the start of the block labelled `l`.
  ghost predicate InBlock<S>(p: Code, m0: Config<S>, m: Config<S>, l: Label, s: S, n: nat) {
    PosFrom(p, l, 0) < |p| && Arrived(m0, m, PosFrom(p, l, 0) + 1, l, s, n)
  }

  ghost predicate Starts<S>(p: Code, code: Code, pc: nat, st: Em, m: Config<S>) {
    && Unique(p) && CodeAt(p, pc, code) && m.Running? && m.pc == pc && m.cur == st.cur
    && (st.cur.Lab? ==> st.cur.n < st.labels)
  }

  ghost predicate Known(op: Operand, m: Config, n: nat) {
    m.Running? && (op.Reg? ==> op.r < n && op.r in m.regs)
  }

  lemma AgreeTrans(a: map<nat, int>, b: map<nat, int>, c: map<nat, int>, n: nat, k: nat)
    requires Agree(a, b, n) && Agree(b, c, k) && n <= k
    ensures Agree(a, c, n)
  {}

  lemma OneStep<S>(act: Act<S>, p: Code, m: Config<S>, k: nat, m1: Config<S>)
    requires Steps(act, p, m, k) == m1
    ensures Steps(act, p, m, k + 1) == Step(act, p, m1)
  {
    StepsAdd(act, p, m, k, 1);
  }

  // --- expressions ---

  lemma {:induction false} ExprSim<S>(act: Act<S>, p: Code, e: Expr, mode: Mode, st: Em, pc: nat, m: Config<S>) returns (k: nat, m': Config<S>)
    requires Starts(p, EmitExpr(e, mode, st).0, pc, st, m)
    ensures
      var (c, r, s1) := EmitExpr(e, mode, st);
      var (v, x) := Eval(act, e, mode, m.s);
      Steps(act, p, m, k) == m' && Arrived(m, m', pc + |c|, s1.cur, x, st.regs) && Known(r, m', s1.regs) && Get(r, m'.regs) == v
    decreases e, 2
  {
    if e.Ident? {
      k, m' := 1, Step(act, p, m);
      Lines(p, pc, EmitExpr(e, mode, st).0);
      assert Gets([], m.regs) == [];
      assert Steps(act, p, m', 0) == m';
    } else if e.Group? {
      k, m' := ExprSim(act, p, e.inner, mode, st, pc, m);
    } else if Logical(e) {
      k, m' := LogicalSim(act, p, e, st, pc, m);
    } else {
      k, m' := NodeSim(act, p, e, mode, st, pc, m);
    }
  }

  // A strict operator: its parts, then one line.
  lemma {:induction false} NodeSim<S>(act: Act<S>, p: Code, e: Expr, mode: Mode, st: Em, pc: nat, m: Config<S>) returns (k: nat, m': Config<S>)
    requires !e.Ident? && !e.Group? && !Logical(e) && Starts(p, EmitExpr(e, mode, st).0, pc, st, m)
    ensures
      var (c, r, s1) := EmitExpr(e, mode, st);
      var (v, x) := Eval(act, e, mode, m.s);
      Steps(act, p, m, k) == m' && Arrived(m, m', pc + |c|, s1.cur, x, st.regs) && Known(r, m', s1.regs) && Get(r, m'.regs) == v
    decreases e, 1
  {
    var (c, ops, s1) := EmitParts(e, Parts(e, mode), st);
    var line := Do(s1.regs, Node(e), ops);
    assert EmitExpr(e, mode, st) == (c + [line], Reg(s1.regs), s1.(regs := s1.regs + 1));
    CodeSplit(p, pc, c, [line]);
    var k1, m1 := PartsSim(act, p, e, Parts(e, mode), st, pc, m);
    k, m' := DoSim(act, p, m, k1, m1, line);
    var (vs, x) := EvalParts(act, e, Parts(e, mode), m.s);
    assert Eval(act, e, mode, m.s) == act(Node(e), vs, x);
  }

  // One more action after `k1` steps.
  lemma DoSim<S>(act: Act<S>, p: Code, m: Config<S>, k1: nat, m1: Config<S>, line: Line) returns (k: nat, m': Config<S>)
    requires Steps(act, p, m, k1) == m1 && m1.Running? && CodeAt(p, m1.pc, [line]) && line.Do?
    ensures k == k1 + 1 && Steps(act, p, m, k) == m'
    ensures var (v, x) := act(line.a, Gets(line.args, m1.regs), m1.s);
      m' == Running(m1.pc + 1, m1.regs[line.dst := v], m1.cur, m1.prev, x)
  {
    LineAt(p, m1.pc, [line], 0);
    OneStep(act, p, m, k1, m1);
    k, m' := k1 + 1, Step(act, p, m1);
  }

  lemma {:induction false} PartsSim<S>(act: Act<S>, p: Code, whole: Expr, ps: seq<(Expr, Mode)>, st: Em, pc: nat, m: Config<S>) returns (k: nat, m': Config<S>)
    requires forall q <- ps :: q.0 < whole
    requires Starts(p, EmitParts(whole, ps, st).0, pc, st, m)
    ensures
      var (c, rs, s1) := EmitParts(whole, ps, st);
      var (vs, x) := EvalParts(act, whole, ps, m.s);
      Steps(act, p, m, k) == m' && Arrived(m, m', pc + |c|, s1.cur, x, st.regs)
      && (forall r <- rs :: Known(r, m', s1.regs)) && Gets(rs, m'.regs) == vs
    decreases whole, 0, |ps|
  {
    if ps == [] {
      k, m' := 0, m;
    } else {
      var (c1, r1, s1) := EmitExpr(ps[0].0, ps[0].1, st);
      var (c2, rs, s2) := EmitParts(whole, ps[1..], s1);
      CodeSplit(p, pc, c1, c2);
      var k1, m1 := ExprSim(act, p, ps[0].0, ps[0].1, st, pc, m);
      var k2, m2 := PartsSim(act, p, whole, ps[1..], s1, pc + |c1|, m1);
      StepsAdd(act, p, m, k1, k2);
      AgreeTrans(m.regs, m1.regs, m2.regs, st.regs, s1.regs);
      k, m' := k1 + k2, m2;
      ConsKept(r1, rs, m1, m2, s1.regs, s2.regs);
    }
  }

  lemma GetsCons(op: Operand, ops: seq<Operand>, regs: map<nat, int>)
    ensures Gets([op] + ops, regs) == [Get(op, regs)] + Gets(ops, regs)
  {}

  // The first operand still stands after the code of the others.
  lemma ConsKept(op: Operand, ops: seq<Operand>, a: Config, b: Config, n: nat, k: nat)
    requires n <= k && Known(op, a, n) && b.Running? && Agree(a.regs, b.regs, n) && forall r <- ops :: Known(r, b, k)
    ensures Gets([op] + ops, b.regs) == [Get(op, a.regs)] + Gets(ops, b.regs)
    ensures forall r <- [op] + ops :: Known(r, b, k)
  {
    GetsCons(op, ops, b.regs);
  }

  lemma GetsAppend(ops: seq<Operand>, op: Operand, regs: map<nat, int>)
    ensures Gets(ops + [op], regs) == Gets(ops, regs) + [Get(op, regs)]
  {}

  lemma {:induction false} TargetSim<S>(act: Act<S>, p: Code, ps: seq<(Expr, Mode)>, st: Em, pc: nat, m: Config<S>) returns (k: nat, m': Config<S>)
    requires Starts(p, EmitTarget(ps, st).0, pc, st, m)
    ensures
      var (c, rs, s1) := EmitTarget(ps, st);
      var (vs, x) := EvalTarget(act, ps, m.s);
      Steps(act, p, m, k) == m' && Arrived(m, m', pc + |c|, s1.cur, x, st.regs)
      && (forall r <- rs :: Known(r, m', s1.regs)) && Gets(rs, m'.regs) == vs
    decreases |ps|
  {
    if ps == [] {
      k, m' := 0, m;
    } else {
      var (c1, r1, s1) := EmitExpr(ps[0].0, ps[0].1, st);
      var (c2, rs, s2) := EmitTarget(ps[1..], s1);
      CodeSplit(p, pc, c1, c2);
      var k1, m1 := ExprSim(act, p, ps[0].0, ps[0].1, st, pc, m);
      var k2, m2 := TargetSim(act, p, ps[1..], s1, pc + |c1|, m1);
      StepsAdd(act, p, m, k1, k2);
      AgreeTrans(m.regs, m1.regs, m2.regs, st.regs, s1.regs);
      k, m' := k1 + k2, m2;
      ConsKept(r1, rs, m1, m2, s1.regs, s2.regs);
    }
  }

  // Where the lines of a value-position `&&` or `||` sit.
  ghost predicate LogicalAt(p: Code, e: Expr, st: Em, pc: nat) {
    Logical(e) &&
    var (c1, r1, s1) := EmitExpr(e.left, Val, st);
    var (rhs, end) := (Lab(s1.labels), Lab(s1.labels + 1));
    var a := pc + |c1|;
    && CodeAt(p, pc, c1) && a + 2 <= |p|
    && p[a] == (if e.bop == And then CondBr(r1, rhs, end) else CondBr(r1, end, rhs)) && p[a + 1] == Mark(rhs)
    && RightAt(p, e.right, Em(s1.regs, s1.labels + 2, rhs), a + 2, s1.cur, if e.bop == And then 0 else 1, end)
  }

  // An operand, the branch to the end block, and its phi.
  ghost predicate RightAt(p: Code, x: Expr, st: Em, pc: nat, other: Label, short: int, end: Label) {
    var (c, r, s1) := EmitExpr(x, Val, st);
    var b := pc + |c|;
    && CodeAt(p, pc, c) && b + 3 <= |p|
    && p[b] == Br(end) && p[b + 1] == Mark(end) && p[b + 2] == Phi(s1.regs, Imm(short), other, r, s1.cur)
  }

  lemma LogicalLayout(p: Code, e: Expr, st: Em, pc: nat)
    requires Logical(e) && CodeAt(p, pc, EmitLogical(e, st).0)
    ensures LogicalAt(p, e, st, pc)
  {
    var (c1, r1, s1) := EmitExpr(e.left, Val, st);
    var (rhs, end) := (Lab(s1.labels), Lab(s1.labels + 1));
    var (c2, r2, s2) := EmitExpr(e.right, Val, Em(s1.regs, s1.labels + 2, rhs));
    var head := [if e.bop == And then CondBr(r1, rhs, end) else CondBr(r1, end, rhs), Mark(rhs)];
    var tail := [Br(end), Mark(end), Phi(s2.regs, Imm(if e.bop == And then 0 else 1), s1.cur, r2, s2.cur)];
    FourPieces(p, pc, EmitLogical(e, st).0, c1, head, c2, tail);
    var a, b := pc + |c1|, pc + |c1| + 2 + |c2|;
    Lines(p, a, head);
    Lines(p, b, tail);
  }

  // Value-position `&&` and `||`: the right operand runs only when the left
  // one does not decide, and the phi is reached from exactly the two blocks it
  // names, which are different.
  lemma {:induction false} LogicalSim<S>(act: Act<S>, p: Code, e: Expr, st: Em, pc: nat, m: Config<S>) returns (k: nat, m': Config<S>)
    requires Logical(e) && Starts(p, EmitLogical(e, st).0, pc, st, m)
    ensures
      var (c, r, s1) := EmitLogical(e, st);
      var (v, x) := Eval(act, e, Val, m.s);
      Steps(act, p, m, k) == m' && Arrived(m, m', pc + |c|, s1.cur, x, st.regs) && Known(r, m', s1.regs) && Get(r, m'.regs) == v
    decreases e, 0, 3
  {
    LogicalLayout(p, e, st, pc);
    var k1, m1 := ExprSim(act, p, e.left, Val, st, pc, m);
    var k2;
    k2, m' := RestSim(act, p, e, st, pc, m1);
    StepsAdd(act, p, m, k1, k2);
    AgreeTrans(m.regs, m1.regs, m'.regs, st.regs, EmitExpr(e.left, Val, st).2.regs);
    k := k1 + k2;
  }

  // From the end of the left operand: around the right one, or through it.
  lemma {:induction false} RestSim<S>(act: Act<S>, p: Code, e: Expr, st: Em, pc: nat, m: Config<S>) returns (k: nat, m': Config<S>)
    requires LogicalAt(p, e, st, pc) && Unique(p) && (st.cur.Lab? ==> st.cur.n < st.labels)
    requires var (c1, r1, s1) := EmitExpr(e.left, Val, st); m.Running? && m.pc == pc + |c1| && m.cur == s1.cur
    ensures
      var (c1, r1, s1) := EmitExpr(e.left, Val, st);
      var (c, r, s2) := EmitLogical(e, st);
      var (v, x) := if (Get(r1, m.regs) != 0) == (e.bop == And) then Eval(act, e.right, Val, m.s) else (if e.bop == And then 0 else 1, m.s);
      Steps(act, p, m, k) == m' && Arrived(m, m', pc + |c|, s2.cur, x, s1.regs) && Known(r, m', s2.regs) && Get(r, m'.regs) == v
    decreases e, 0, 2
  {
    var r1 := EmitExpr(e.left, Val, st).1;
    if (Get(r1, m.regs) != 0) == (e.bop == And) {
      k, m' := ThroughSim(act, p, e, st, pc, m);
    } else {
      k, m' := SkippedSim(act, p, e, st, pc, m);
    }
  }

  // Through the right operand.
  lemma {:induction false} ThroughSim<S>(act: Act<S>, p: Code, e: Expr, st: Em, pc: nat, m: Config<S>) returns (k: nat, m': Config<S>)
    requires LogicalAt(p, e, st, pc) && Unique(p) && (st.cur.Lab? ==> st.cur.n < st.labels)
    requires var (c1, r1, s1) := EmitExpr(e.left, Val, st);
      m.Running? && m.pc == pc + |c1| && m.cur == s1.cur && (Get(r1, m.regs) != 0) == (e.bop == And)
    ensures var (c, r, s2) := EmitLogical(e, st);
      var (v, x) := Eval(act, e.right, Val, m.s);
      Steps(act, p, m, k) == m' && Arrived(m, m', pc + |c|, s2.cur, x, EmitExpr(e.left, Val, st).2.regs)
      && Known(r, m', s2.regs) && Get(r, m'.regs) == v
    decreases e, 0, 1
  {
    var m2 := EnterRight(act, p, e, st, pc, m);
    LogicalEnds(e, st);
    k, m' := TakenSim(act, p, e, st, pc, m2);
    assert Steps(act, p, m, k + 1) == m';
    k := k + 1;
  }

  lemma {:induction false} SkippedSim<S>(act: Act<S>, p: Code, e: Expr, st: Em, pc: nat, m: Config<S>) returns (k: nat, m': Config<S>)
    requires LogicalAt(p, e, st, pc) && Unique(p)
    requires var (c1, r1, s1) := EmitExpr(e.left, Val, st);
      m.Running? && m.pc == pc + |c1| && m.cur == s1.cur && (Get(r1, m.regs) != 0) != (e.bop == And)
    ensures var (c, r, s2) := EmitLogical(e, st);
      Steps(act, p, m, k) == m' && Arrived(m, m', pc + |c|, s2.cur, m.s, EmitExpr(e.left, Val, st).2.regs)
      && Known(r, m', s2.regs) && Get(r, m'.regs) == if e.bop == And then 0 else 1
  {
    var (c1, r1, s1) := EmitExpr(e.left, Val, st);
    var (c2, r2, s2) := EmitExpr(e.right, Val, Em(s1.regs, s1.labels + 2, Lab(s1.labels)));
    JumpLands(p, Lab(s1.labels + 1), pc + |c1| + 2 + |c2| + 1, m);
    var m2 := Step(act, p, m);
    assert Steps(act, p, m, 1) == m2;
    OneStep(act, p, m, 1, m2);
    k, m' := 2, Step(act, p, m2);
  }

  lemma LogicalEnds(e: Expr, st: Em)
    requires Logical(e)
    ensures
      var (c1, r1, s1) := EmitExpr(e.left, Val, st);
      var (c2, r2, s2) := EmitExpr(e.right, Val, Em(s1.regs, s1.labels + 2, Lab(s1.labels)));
      var (c, r, s3) := EmitLogical(e, st);
      |c| == |c1| + |c2| + 5 && r == Reg(s2.regs) && s3.cur == Lab(s1.labels + 1) && s3.regs == s2.regs + 1
  {}

  // Into the block of the right operand.
  lemma EnterRight<S>(act: Act<S>, p: Code, e: Expr, st: Em, pc: nat, m: Config<S>) returns (m': Config<S>)
    requires LogicalAt(p, e, st, pc) && Unique(p)
    requires var (c1, r1, s1) := EmitExpr(e.left, Val, st);
      m.Running? && m.pc == pc + |c1| && (Get(r1, m.regs) != 0) == (e.bop == And)
    ensures var (c1, r1, s1) := EmitExpr(e.left, Val, st);
      Step(act, p, m) == m' && m' == Running(pc + |c1| + 2, m.regs, Lab(s1.labels), m.cur, m.s)
  {
    var (c1, r1, s1) := EmitExpr(e.left, Val, st);
    JumpLands(p, Lab(s1.labels), pc + |c1| + 1, m);
    m' := Step(act, p, m);
  }

  lemma {:induction false} TakenSim<S>(act: Act<S>, p: Code, e: Expr, st: Em, pc: nat, m: Config<S>) returns (k: nat, m': Config<S>)
    requires LogicalAt(p, e, st, pc) && Unique(p) && (st.cur.Lab? ==> st.cur.n < st.labels)
    requires var (c1, r1, s1) := EmitExpr(e.left, Val, st);
      m.Running? && m.pc == pc + |c1| + 2 && m.cur == Lab(s1.labels)
    ensures
      var (c1, r1, s1) := EmitExpr(e.left, Val, st);
      var (c2, r2, s2) := EmitExpr(e.right, Val, Em(s1.regs, s1.labels + 2, Lab(s1.labels)));
      var (v, x) := Eval(act, e.right, Val, m.s);
      Steps(act, p, m, k) == m' && Arrived(m, m', pc + |c1| + |c2| + 5, Lab(s1.labels + 1), x, s1.regs)
      && Known(Reg(s2.regs), m', s2.regs + 1) && Get(Reg(s2.regs), m'.regs) == v
    decreases e, 0, 0
  {
    var (c1, r1, s1) := EmitExpr(e.left, Val, st);
    k, m' := RightSim(act, p, e.right, Em(s1.regs, s1.labels + 2, Lab(s1.labels)), s1.cur, if e.bop == And then 0 else 1, Lab(s1.labels + 1), m);
  }

  // An operand in a block of its own, then the end block and its phi.
  lemma {:induction false} RightSim<S>(act: Act<S>, p: Code, x: Expr, st: Em, other: Label, short: int, end: Label, m: Config<S>) returns (k: nat, m': Config<S>)
    requires m.Running? && m.cur == st.cur && Unique(p) && (st.cur.Lab? ==> st.cur.n < st.labels)
    requires RightAt(p, x, st, m.pc, other, short, end) && other != EmitExpr(x, Val, st).2.cur
    ensures
      var (c, r, s1) := EmitExpr(x, Val, st);
      var (v, y) := Eval(act, x, Val, m.s);
      Steps(act, p, m, k) == m' && Arrived(m, m', m.pc + |c| + 3, end, y, st.regs)
      && Known(Reg(s1.regs), m', s1.regs + 1) && Get(Reg(s1.regs), m'.regs) == v
    decreases x, 3
  {
    var (c, r, s1) := EmitExpr(x, Val, st);
    var k1, m1 := ExprSim(act, p, x, Val, st, m.pc, m);
    m' := MergeSim(act, p, m1.pc, end, Phi(s1.regs, Imm(short), other, r, s1.cur), m1);
    StepsAdd(act, p, m, k1, 2);
    k := k1 + 2;
    PhiArrives(m, m1, m', m1.pc, end, r, st.regs, s1.regs);
  }

  // After a phi that copies `r` into a new register.
  lemma PhiArrives<S>(m: Config<S>, m1: Config<S>, m': Config<S>, b: nat, end: Label, r: Operand, n: nat, dst: nat)
    requires m.Running? && m1.Running? && Agree(m.regs, m1.regs, n) && Known(r, m1, dst) && n <= dst
    requires m' == Running(b + 3, m1.regs[dst := Get(r, m1.regs)], end, m1.cur, m1.s)
    ensures Agree(m.regs, m'.regs, n) && Known(Reg(dst), m', dst + 1) && Get(Reg(dst), m'.regs) == Get(r, m1.regs)
  {}

  // The branch to the end block and its phi, reached from the second of its two
  // different predecessors.
  lemma MergeSim<S>(act: Act<S>, p: Code, b: nat, end: Label, phi: Line, m: Config<S>) returns (m': Config<S>)
    requires Unique(p) && b + 2 < |p| && p[b] == Br(end) && p[b + 1] == Mark(end) && p[b + 2] == phi
    requires phi.Phi? && m.Running? && m.pc == b && m.cur == phi.from1 && phi.from0 != phi.from1
    ensures Steps(act, p, m, 2) == m' && m' == Running(b + 3, m.regs[phi.dst := Get(phi.v1, m.regs)], end, m.cur, m.s)
  {
    JumpLands(p, end, b + 1, m);
    var m1 := Step(act, p, m);
    assert Steps(act, p, m, 1) == m1;
    OneStep(act, p, m, 1, m1);
    m' := Step(act, p, m1);
  }

  // --- conditions ---

  // `!` is negation. Branch-position lowering swaps the targets instead of
  // performing it.
  ghost predicate NegatesNot<S(!new)>(act: Act<S>) {
    forall e, v, s :: act(Node(Unary(Not, e)), [v], s) == (if v == 0 then 1 else 0, s)
  }

  ghost predicate HasLabel(p: Code, l: Label) { PosFrom(p, l, 0) < |p| }

  lemma HasLabelAt(p: Code, l: Label, i: nat)
    requires Unique(p) && i < |p| && p[i] == Mark(l)
    ensures HasLabel(p, l) && PosFrom(p, l, 0) == i
  {
    PosFinds(p, l, 0, i);
  }

  // Short-circuit branch tree: it reaches the true label exactly when
  // short-circuit evaluation is true, having performed the same actions in the
  // same order.
  lemma {:induction false} CondSim<S(!new)>(act: Act<S>, p: Code, e: Expr, yes: Label, no: Label, st: Em, pc: nat, m: Config<S>) returns (k: nat, m': Config<S>)
    requires Starts(p, EmitCond(e, yes, no, st).0, pc, st, m) && NegatesNot(act) && HasLabel(p, yes) && HasLabel(p, no)
    ensures
      var (v, x) := Eval(act, e, Val, m.s);
      k > 0 && Steps(act, p, m, k) == m' && InBlock(p, m, m', if v != 0 then yes else no, x, st.regs)
    decreases e, 1
  {
    if e.Group? {
      k, m' := CondSim(act, p, e.inner, yes, no, st, pc, m);
    } else if e.Unary? && e.uop == Not {
      k, m' := CondSim(act, p, e.operand, no, yes, st, pc, m);
      NotEval(act, e, m.s);
    } else if Logical(e) {
      k, m' := LogicalCondSim(act, p, e, yes, no, st, pc, m);
    } else {
      k, m' := LeafCondSim(act, p, e, yes, no, st, pc, m);
    }
  }

  // A leaf: its value, then one branch.
  lemma {:induction false} LeafCondSim<S(!new)>(act: Act<S>, p: Code, e: Expr, yes: Label, no: Label, st: Em, pc: nat, m: Config<S>) returns (k: nat, m': Config<S>)
    requires var (c, r, s1) := EmitExpr(e, Val, st); Starts(p, c + [CondBr(r, yes, no)], pc, st, m)
    requires HasLabel(p, yes) && HasLabel(p, no)
    ensures
      var (v, x) := Eval(act, e, Val, m.s);
      k > 0 && Steps(act, p, m, k) == m' && InBlock(p, m, m', if v != 0 then yes else no, x, st.regs)
  {
    var (c, r, s1) := EmitExpr(e, Val, st);
    LastLine(p, pc, c, CondBr(r, yes, no));
    var k1, m1 := ExprSim(act, p, e, Val, st, pc, m);
    m' := BranchStep(act, p, r, yes, no, m1);
    StepsAdd(act, p, m, k1, 1);
    k := k1 + 1;
  }

  lemma LastLine(p: Code, pc: nat, code: Code, line: Line)
    requires CodeAt(p, pc, code + [line])
    ensures CodeAt(p, pc, code) && pc + |code| < |p| && p[pc + |code|] == line
  {
    CodeSplit(p, pc, code, [line]);
    LineAt(p, pc + |code|, [line], 0);
  }

  lemma BranchStep<S>(act: Act<S>, p: Code, op: Operand, yes: Label, no: Label, m: Config<S>) returns (m': Config<S>)
    requires m.Running? && m.pc < |p| && p[m.pc] == CondBr(op, yes, no) && HasLabel(p, yes) && HasLabel(p, no)
    ensures Steps(act, p, m, 1) == m'
    ensures var l := if Get(op, m.regs) != 0 then yes else no; m' == Running(PosFrom(p, l, 0) + 1, m.regs, l, m.cur, m.s)
  {
    m' := Step(act, p, m);
  }

  lemma NotEval<S(!new)>(act: Act<S>, e: Expr, s: S)
    requires NegatesNot(act) && e.Unary? && e.uop == Not
    ensures var (v, x) := Eval(act, e.operand, Val, s); Eval(act, e, Val, s) == (if v == 0 then 1 else 0, x)
  {
    var ps := Parts(e, Val);
    var (v, x) := Eval(act, e.operand, Val, s);
    assert ps[0] == (e.operand, Val) && ps[1..] == [];
    var (vs, y) := EvalParts(act, e, ps, s);
    assert EvalParts(act, e, ps[1..], x) == ([], x);
    assert vs == [v] && y == x;
    assert e == Unary(Not, e.operand);
  }

  // Two pieces of code with a label between them.
  lemma MiddleLabel(p: Code, pc: nat, a: Code, l: Label, b: Code)
    requires Unique(p) && CodeAt(p, pc, a + [Mark(l)] + b)
    ensures CodeAt(p, pc, a) && CodeAt(p, pc + |a| + 1, b) && HasLabel(p, l) && PosFrom(p, l, 0) == pc + |a|
  {
    CodeSplit(p, pc, a + [Mark(l)], b);
    LastLine(p, pc, a, Mark(l));
    HasLabelAt(p, l, pc + |a|);
  }

  lemma {:induction false} LogicalCondSim<S(!new)>(act: Act<S>, p: Code, e: Expr, yes: Label, no: Label, st: Em, pc: nat, m: Config<S>) returns (k: nat, m': Config<S>)
    requires Logical(e) && Starts(p, EmitCond(e, yes, no, st).0, pc, st, m) && NegatesNot(act) && HasLabel(p, yes) && HasLabel(p, no)
    ensures
      var (v, x) := Eval(act, e, Val, m.s);
      k > 0 && Steps(act, p, m, k) == m' && InBlock(p, m, m', if v != 0 then yes else no, x, st.regs)
    decreases e, 0
  {
    var mid := Lab(st.labels);
    var st1 := st.(labels := st.labels + 1);
    var (ya, na) := if e.bop == And then (mid, no) else (yes, mid);
    var (c1, s1) := EmitCond(e.left, ya, na, st1);
    var st2 := s1.(cur := mid);
    var (c2, s2) := EmitCond(e.right, yes, no, st2);
    assert EmitCond(e, yes, no, st).0 == c1 + [Mark(mid)] + c2;
    MiddleLabel(p, pc, c1, mid, c2);
    var k1, m1 := CondSim(act, p, e.left, ya, na, st1, pc, m);
    if (Eval(act, e.left, Val, m.s).0 != 0) == (e.bop == And) {
      var k2, m2 := CondSim(act, p, e.right, yes, no, st2, pc + |c1| + 1, m1);
      StepsAdd(act, p, m, k1, k2);
      AgreeTrans(m.regs, m1.regs, m2.regs, st.regs, s1.regs);
      k, m' := k1 + k2, m2;
    } else {
      k, m' := k1, m1;
    }
  }
}
