// Lowering preserves meaning: statements, loops, matches and whole functions.
module LowerStmt {
  import opened Ast
  import opened ControlFlow
  import opened Semantics
  import opened Ir
  import opened Emit
  import opened EmitShape
  import opened LowerSim

  // No statement block carries a trailing expression. (The emitter drops one.)
  predicate NoTrailing(b: Block) {
    b.trailing == None && forall st <- b.stmts :: NoTrailingStmt(st)
  }

  predicate NoTrailingStmt(st: Stmt) {
    match st
    case If(_, t, e) => NoTrailing(t) && NoTrailing(e)
    case Loop(b) => NoTrailing(b)
    case While(_, b) => NoTrailing(b)
    case For(_, _, _, _, _, b) => NoTrailing(b)
    case Match(_, arms) => forall arm <- arms :: NoTrailing(arm.body)
    case BlockStmt(b) => NoTrailing(b)
    case Claim(_, b) => NoTrailing(b)
    case _ => true
  }

  // Where the machine is after code for a statement, outcome by outcome: at the
  // end of the code, at the jump target, halted, or, when the source run was
  // cut off, still running after at least as many steps as iterations.
  ghost predicate Lands<S>(p: Code, m0: Config<S>, m: Config<S>, k: nat, o: Outcome, x: S, pc: nat, cur: Label,
                           brk: Option<Label>, cont: Option<Label>, n: nat, fuel: nat) {
    match o
    case Normal => Arrived(m0, m, pc, cur, x, n)
    case Broke => brk.Some? && InBlock(p, m0, m, brk.value, x, n)
    case Continued => cont.Some? && InBlock(p, m0, m, cont.value, x, n)
    case Returned => m == Halted(x)
    case Timeout => m.Running? && m.s == x && k >= fuel
  }

  ghost predicate Targets(p: Code, brk: Option<Label>, cont: Option<Label>) {
    brk.Some? == cont.Some? && (brk.Some? ==> HasLabel(p, brk.value) && HasLabel(p, cont.value))
  }

  predicate Simulable(b: Block, inLoop: bool) { Lowerable(b, inLoop) && NoTrailing(b) && SwitchesOrdered(b) }
  predicate SimulableStmt(s: Stmt, inLoop: bool) { LowerableStmt(s, inLoop) && NoTrailingStmt(s) && SwitchesOrderedStmt(s) }

  // Steps before a landing keep it a landing.
  lemma LandsAfter<S>(act: Act<S>, p: Code, m0: Config<S>, m1: Config<S>, m: Config<S>, j: nat, k: nat, o: Outcome, x: S, pc: nat, cur: Label,
                      brk: Option<Label>, cont: Option<Label>, n: nat, n1: nat, fuel1: nat, fuel: nat)
    requires m0.Running? && m1.Running? && Steps(act, p, m0, j) == m1 && Steps(act, p, m1, k) == m
    requires Agree(m0.regs, m1.regs, n) && n <= n1 && fuel <= fuel1 + j
    requires Lands(p, m1, m, k, o, x, pc, cur, brk, cont, n1, fuel1)
    ensures Steps(act, p, m0, j + k) == m && Lands(p, m0, m, j + k, o, x, pc, cur, brk, cont, n, fuel)
  {
    StepsAdd(act, p, m0, j, k);
    if m.Running? && o != Timeout { AgreeTrans(m0.regs, m1.regs, m.regs, n, n1); }
  }

  lemma {:induction false} BlockSim<S(!new)>(act: Act<S>, p: Code, b: Block, brk: Option<Label>, cont: Option<Label>, st: Em, pc: nat, m: Config<S>, fuel: nat) returns (k: nat, m': Config<S>)
    requires Starts(p, EmitBlock(b, brk, cont, st).0, pc, st, m) && NegatesNot(act) && Targets(p, brk, cont) && Simulable(b, brk.Some?)
    ensures
      var (c, s1, t) := EmitBlock(b, brk, cont, st);
      var (o, x) := ExecBlock(act, b, m.s, fuel);
      Steps(act, p, m, k) == m' && Lands(p, m, m', k, o, x, pc + |c|, s1.cur, brk, cont, st.regs, fuel) && (t ==> o != Normal)
    decreases fuel, b, |b.stmts| + 1
  {
    k, m' := FromSim(act, p, b, 0, brk, cont, st, pc, m, fuel);
  }

  lemma {:induction false} FromSim<S(!new)>(act: Act<S>, p: Code, b: Block, i: nat, brk: Option<Label>, cont: Option<Label>, st: Em, pc: nat, m: Config<S>, fuel: nat) returns (k: nat, m': Config<S>)
    requires i <= |b.stmts| && Starts(p, EmitFrom(b, i, brk, cont, st).0, pc, st, m) && NegatesNot(act) && Targets(p, brk, cont) && Simulable(b, brk.Some?)
    ensures
      var (c, s1, t) := EmitFrom(b, i, brk, cont, st);
      var (o, x) := ExecFrom(act, b, i, m.s, fuel);
      Steps(act, p, m, k) == m' && Lands(p, m, m', k, o, x, pc + |c|, s1.cur, brk, cont, st.regs, fuel) && (t ==> o != Normal)
    decreases fuel, b, |b.stmts| - i
  {
    if i == |b.stmts| {
      k, m' := 0, m;
    } else {
      var (c1, s1, t1) := EmitStmt(b.stmts[i], brk, cont, st);
      var (c2, s2, t2) := EmitFrom(b, i + 1, brk, cont, s1);
      if !t1 { CodeSplit(p, pc, c1, c2); }
      k, m' := StmtSim(act, p, b.stmts[i], brk, cont, st, pc, m, fuel);
      if ExecStmt(act, b.stmts[i], m.s, fuel).0 == Normal {
        var k1, m1 := k, m';
        k, m' := FromSim(act, p, b, i + 1, brk, cont, s1, pc + |c1|, m1, fuel);
        var (o, x) := ExecFrom(act, b, i + 1, m1.s, fuel);
        LandsAfter(act, p, m, m1, m', k1, k, o, x, pc + |c1| + |c2|, s2.cur, brk, cont, st.regs, s1.regs, fuel, fuel);
        k := k1 + k;
      }
    }
  }

  lemma {:induction false} StmtSim<S(!new)>(act: Act<S>, p: Code, s: Stmt, brk: Option<Label>, cont: Option<Label>, st: Em, pc: nat, m: Config<S>, fuel: nat) returns (k: nat, m': Config<S>)
    requires Starts(p, EmitStmt(s, brk, cont, st).0, pc, st, m) && NegatesNot(act) && Targets(p, brk, cont) && SimulableStmt(s, brk.Some?)
    ensures
      var (c, s1, t) := EmitStmt(s, brk, cont, st);
      var (o, x) := ExecStmt(act, s, m.s, fuel);
      Steps(act, p, m, k) == m' && Lands(p, m, m', k, o, x, pc + |c|, s1.cur, brk, cont, st.regs, fuel) && (t ==> o != Normal)
    decreases fuel, s, 3
  {
    match s
    case If(_, _, _) => k, m' := IfSim(act, p, s, brk, cont, st, pc, m, fuel);
    case Loop(_) => k, m' := LoopStart(act, p, s, st, pc, m, fuel);
    case While(_, _) => k, m' := LoopStart(act, p, s, st, pc, m, fuel);
    case For(_, _, _, _, _, _) => k, m' := ForStart(act, p, s, st, pc, m, fuel);
    case Match(_, _) => k, m' := MatchSim(act, p, s, brk, cont, st, pc, m, fuel);
    case BlockStmt(b) => k, m' := BlockSim(act, p, b, brk, cont, st, pc, m, fuel);
    case Claim(_, _) => k, m' := ClaimSim(act, p, s, brk, cont, st, pc, m, fuel);
    case _ => k, m' := SimpleSim(act, p, s, brk, cont, st, pc, m, fuel);
  }

  lemma {:induction false} SimpleSim<S(!new)>(act: Act<S>, p: Code, s: Stmt, brk: Option<Label>, cont: Option<Label>, st: Em, pc: nat, m: Config<S>, fuel: nat) returns (k: nat, m': Config<S>)
    requires s.VarDecl? || s.Assign? || s.CompoundAssign? || s.ExprStmt? || s.Return? || s.Break? || s.Continue?
    requires Starts(p, EmitStmt(s, brk, cont, st).0, pc, st, m) && Targets(p, brk, cont) && SimulableStmt(s, brk.Some?)
    ensures
      var (c, s1, t) := EmitStmt(s, brk, cont, st);
      var (o, x) := ExecStmt(act, s, m.s, fuel);
      Steps(act, p, m, k) == m' && Lands(p, m, m', k, o, x, pc + |c|, s1.cur, brk, cont, st.regs, fuel) && (t ==> o != Normal)
  {
    match s
    case VarDecl(x, moves, init) =>
      var (c, r, s1) := EmitExpr(init, Val, st);
      var line := Do(s1.regs, Declare(x, moves), [r]);
      CodeSplit(p, pc, c, [line]);
      var k1, m1 := ExprSim(act, p, init, Val, st, pc, m);
      k, m' := DoSim(act, p, m, k1, m1, line);
      assert Gets([r], m1.regs) == [Get(r, m1.regs)];
    case Assign(lv, value) => k, m' := AssignSim(act, p, lv, value, st, pc, m);
    case CompoundAssign(lv, op, value) => k, m' := AssignSim(act, p, lv, Binary(lv.ToExpr(), op, value), st, pc, m);
    case ExprStmt(e) => k, m' := ExprSim(act, p, e, Val, st, pc, m);
    case Return(e) => k, m' := ReturnSim(act, p, e, st, pc, m);
    case Break => k, m' := JumpSim(act, p, brk.value, pc, m);
    case Continue => k, m' := JumpSim(act, p, cont.value, pc, m);
  }

  lemma JumpSim<S>(act: Act<S>, p: Code, l: Label, pc: nat, m: Config<S>) returns (k: nat, m': Config<S>)
    requires m.Running? && m.pc == pc && CodeAt(p, pc, [Br(l)]) && HasLabel(p, l)
    ensures k == 1 && Steps(act, p, m, k) == m' && InBlock(p, m, m', l, m.s, 0) && m'.regs == m.regs
  {
    Lines(p, pc, [Br(l)]);
    k, m' := 1, Step(act, p, m);
    assert Steps(act, p, m', 0) == m';
  }

  lemma {:induction false} ReturnSim<S>(act: Act<S>, p: Code, e: Option<Expr>, st: Em, pc: nat, m: Config<S>) returns (k: nat, m': Config<S>)
    requires Starts(p, EmitStmt(Return(e), None, None, st).0, pc, st, m)
    ensures Steps(act, p, m, k) == m' && m' == Halted(ExecStmt(act, Return(e), m.s, 0).1)
  {
    if e == None {
      LineAt(p, pc, [Ret(None)], 0);
      k, m' := 1, Step(act, p, m);
      assert Steps(act, p, m', 0) == m';
    } else {
      var (c, r, s1) := EmitExpr(e.value, Val, st);
      CodeSplit(p, pc, c, [Ret(Some(r))]);
      var k1, m1 := ExprSim(act, p, e.value, Val, st, pc, m);
      LineAt(p, pc + |c|, [Ret(Some(r))], 0);
      OneStep(act, p, m, k1, m1);
      k, m' := k1 + 1, Step(act, p, m1);
    }
  }

  lemma {:induction false} AssignSim<S>(act: Act<S>, p: Code, lv: LValue, value: Expr, st: Em, pc: nat, m: Config<S>) returns (k: nat, m': Config<S>)
    requires Starts(p, EmitAssign(lv, value, st).0, pc, st, m)
    ensures
      var (c, s1, t) := EmitAssign(lv, value, st);
      var (o, x) := ExecAssign(act, lv, value, m.s);
      !t && o == Normal && Steps(act, p, m, k) == m' && Arrived(m, m', pc + |c|, s1.cur, x, st.regs)
  {
    var (c1, v, s1) := EmitExpr(value, Val, st);
    var (c2, ops, s2) := EmitTarget(TargetParts(lv), s1);
    var line := Do(s2.regs, Store(lv), ops + [v]);
    assert EmitAssign(lv, value, st).0 == c1 + c2 + [line];
    CodeSplit(p, pc, c1 + c2, [line]);
    var k2, m2 := OperandsSim(act, p, value, TargetParts(lv), st, pc, m);
    k, m' := DoSim(act, p, m, k2, m2, line);
    assert ExecAssign(act, lv, value, m.s) == (Normal, m'.s);
  }

  // The value, then the parts of the target: in that order.
  lemma {:induction false} OperandsSim<S>(act: Act<S>, p: Code, value: Expr, ps: seq<(Expr, Mode)>, st: Em, pc: nat, m: Config<S>) returns (k: nat, m': Config<S>)
    requires var (c1, r, s1) := EmitExpr(value, Val, st); Starts(p, c1 + EmitTarget(ps, s1).0, pc, st, m)
    ensures
      var (c1, r, s1) := EmitExpr(value, Val, st);
      var (c2, ops, s2) := EmitTarget(ps, s1);
      var (v, x1) := Eval(act, value, Val, m.s);
      var (vs, x2) := EvalTarget(act, ps, x1);
      Steps(act, p, m, k) == m' && Arrived(m, m', pc + |c1| + |c2|, s2.cur, x2, st.regs) && Gets(ops + [r], m'.regs) == vs + [v]
  {
    var (c1, r, s1) := EmitExpr(value, Val, st);
    var (c2, ops, s2) := EmitTarget(ps, s1);
    CodeSplit(p, pc, c1, c2);
    var k1, m1 := ExprSim(act, p, value, Val, st, pc, m);
    var k2, m2 := TargetSim(act, p, ps, s1, pc + |c1|, m1);
    StepsAdd(act, p, m, k1, k2);
    AgreeTrans(m.regs, m1.regs, m2.regs, st.regs, s1.regs);
    k, m' := k1 + k2, m2;
    GetsAppend(ops, r, m2.regs);
  }

  lemma {:induction false} ClaimSim<S(!new)>(act: Act<S>, p: Code, s: Stmt, brk: Option<Label>, cont: Option<Label>, st: Em, pc: nat, m: Config<S>, fuel: nat) returns (k: nat, m': Config<S>)
    requires s.Claim? && Starts(p, EmitStmt(s, brk, cont, st).0, pc, st, m) && NegatesNot(act) && Targets(p, brk, cont) && SimulableStmt(s, brk.Some?)
    ensures
      var (c, s1, t) := EmitStmt(s, brk, cont, st);
      var (o, x) := ExecStmt(act, s, m.s, fuel);
      Steps(act, p, m, k) == m' && Lands(p, m, m', k, o, x, pc + |c|, s1.cur, brk, cont, st.regs, fuel) && (t ==> o != Normal)
    decreases fuel, s, 2
  {
    var st1 := st.(regs := st.regs + 1);
    var (c, s1, t) := EmitBlock(s.body, brk, cont, st1);
    var enter, leave := Do(st.regs, Enter(s.name), []), Do(s1.regs, Leave(s.name), []);
    assert EmitStmt(s, brk, cont, st).0 == [enter] + c + [leave];
    CodeSplit(p, pc, [enter] + c, [leave]);
    CodeSplit(p, pc, [enter], c);
    assert Gets([], m.regs) == [];
    var k0, m0 := DoSim(act, p, m, 0, m, enter);
    var k1, m1 := BlockSim(act, p, s.body, brk, cont, st1, pc + 1, m0, fuel);
    var (o, x) := ExecBlock(act, s.body, m0.s, fuel);
    LandsAfter(act, p, m, m0, m1, k0, k1, o, x, pc + 1 + |c|, s1.cur, brk, cont, st.regs, st1.regs, fuel, fuel);
    if o == Normal {
      assert Gets([], m1.regs) == [];
      k, m' := DoSim(act, p, m, k0 + k1, m1, leave);
    } else {
      k, m' := k0 + k1, m1;
    }
  }

  // A labelled block: its body, and the branch that closes it.
  lemma {:induction false} LabelledSim<S(!new)>(act: Act<S>, p: Code, b: Block, brk: Option<Label>, cont: Option<Label>, st: Em, next: Label, pc: nat, m: Config<S>, fuel: nat) returns (k: nat, m': Config<S>)
    requires var (c, s1, t) := EmitBlock(b, brk, cont, st); CodeAt(p, pc, c + Close(t, next))
    requires Unique(p) && m.Running? && m.pc == pc && m.cur == st.cur && (st.cur.Lab? ==> st.cur.n < st.labels)
    requires NegatesNot(act) && Targets(p, brk, cont) && Simulable(b, brk.Some?) && HasLabel(p, next)
    ensures
      var (o, x) := ExecBlock(act, b, m.s, fuel);
      Steps(act, p, m, k) == m' && Lands(p, m, m', k, o, x, PosFrom(p, next, 0) + 1, next, brk, cont, st.regs, fuel)
    decreases fuel, b, |b.stmts| + 2
  {
    var (c, s1, t) := EmitBlock(b, brk, cont, st);
    CodeSplit(p, pc, c, Close(t, next));
    k, m' := BlockSim(act, p, b, brk, cont, st, pc, m, fuel);
    if ExecBlock(act, b, m.s, fuel).0 == Normal {
      var k1, m1 := k, m';
      var k2, m2 := JumpSim(act, p, next, pc + |c|, m1);
      StepsAdd(act, p, m, k1, k2);
      k, m' := k1 + k2, m2;
    }
  }

  // A block labelled `l` holds `code`.
  ghost predicate MarkedAt(p: Code, l: Label, code: Code) {
    HasLabel(p, l) && CodeAt(p, PosFrom(p, l, 0) + 1, code)
  }

  ghost predicate BranchAt(p: Code, pc: nat, l: Label) { pc < |p| && p[pc] == Br(l) }

  // Where the blocks of an `if` are.
  ghost predicate IfAt(p: Code, s: Stmt, brk: Option<Label>, cont: Option<Label>, st: Em)
    requires s.If?
  {
    var (thn, els, end) := (Lab(st.labels), Lab(st.labels + 1), Lab(st.labels + 2));
    var s0 := EmitCond(s.cond, thn, els, st.(labels := st.labels + 3)).1;
    var (c1, s1, t1) := EmitBlock(s.thn, brk, cont, s0.(cur := thn));
    var (c2, s2, t2) := EmitBlock(s.els, brk, cont, s1.(cur := els));
    Unique(p) && MarkedAt(p, thn, c1 + Close(t1, end)) && MarkedAt(p, els, c2 + Close(t2, end)) && MarkedAt(p, end, [])
  }

  lemma IfLayout(p: Code, s: Stmt, brk: Option<Label>, cont: Option<Label>, st: Em, pc: nat)
    requires s.If? && Unique(p) && CodeAt(p, pc, EmitIf(s, brk, cont, st).0)
    ensures IfAt(p, s, brk, cont, st)
    ensures CodeAt(p, pc, EmitCond(s.cond, Lab(st.labels), Lab(st.labels + 1), st.(labels := st.labels + 3)).0)
    ensures PosFrom(p, Lab(st.labels + 2), 0) + 1 == pc + |EmitIf(s, brk, cont, st).0|
  {
    var (thn, els, end) := (Lab(st.labels), Lab(st.labels + 1), Lab(st.labels + 2));
    var (c0, s0) := EmitCond(s.cond, thn, els, st.(labels := st.labels + 3));
    var (c1, s1, t1) := EmitBlock(s.thn, brk, cont, s0.(cur := thn));
    var (c2, s2, t2) := EmitBlock(s.els, brk, cont, s1.(cur := els));
    var b1, b2 := [Mark(thn)] + c1 + Close(t1, end), [Mark(els)] + c2 + Close(t2, end);
    TwoBlocks(p, pc, EmitIf(s, brk, cont, st).0, c0, thn, c1, Close(t1, end), b1, els, c2, Close(t2, end), b2, end);
  }

  // A straight piece, two labelled blocks, and a last label.
  lemma TwoBlocks(p: Code, pc: nat, code: Code, a: Code, l1: Label, c1: Code, e1: Code, b1: Code, l2: Label, c2: Code, e2: Code, b2: Code, end: Label)
    requires Unique(p) && CodeAt(p, pc, code) && code == a + b1 + b2 + [Mark(end)]
    requires b1 == [Mark(l1)] + c1 + e1 && b2 == [Mark(l2)] + c2 + e2
    ensures CodeAt(p, pc, a) && MarkedAt(p, l1, c1 + e1) && MarkedAt(p, l2, c2 + e2) && MarkedAt(p, end, [])
    ensures PosFrom(p, end, 0) + 1 == pc + |code|
  {
    FourPieces(p, pc, code, a, b1, b2, [Mark(end)]);
    MarkedBlock(p, pc + |a|, b1, l1, c1, e1);
    MarkedBlock(p, pc + |a| + |b1|, b2, l2, c2, e2);
    EndLabel(p, pc + |a| + |b1| + |b2|, end);
  }

  lemma {:induction false} IfSim<S(!new)>(act: Act<S>, p: Code, s: Stmt, brk: Option<Label>, cont: Option<Label>, st: Em, pc: nat, m: Config<S>, fuel: nat) returns (k: nat, m': Config<S>)
    requires s.If? && Starts(p, EmitIf(s, brk, cont, st).0, pc, st, m) && NegatesNot(act) && Targets(p, brk, cont) && SimulableStmt(s, brk.Some?)
    ensures
      var (c, s1, t) := EmitIf(s, brk, cont, st);
      var (o, x) := ExecStmt(act, s, m.s, fuel);
      Steps(act, p, m, k) == m' && Lands(p, m, m', k, o, x, pc + |c|, s1.cur, brk, cont, st.regs, fuel) && !t
    decreases fuel, s, 2
  {
    IfLayout(p, s, brk, cont, st, pc);
    var (thn, els, end) := (Lab(st.labels), Lab(st.labels + 1), Lab(st.labels + 2));
    var st0 := st.(labels := st.labels + 3);
    var k1, m1 := CondSim(act, p, s.cond, thn, els, st0, pc, m);
    var (v, y) := Eval(act, s.cond, Val, m.s);
    var k2, m2, n := BranchSim(act, p, s, v != 0, brk, cont, st, m1, fuel);
    var (o, x) := ExecBlock(act, if v != 0 then s.thn else s.els, y, fuel);
    LandsAfter(act, p, m, m1, m2, k1, k2, o, x, PosFrom(p, end, 0) + 1, end, brk, cont, st.regs, n, fuel, fuel);
    k, m' := k1 + k2, m2;
  }

  // One of the two branches, from its label to the end label.
  lemma {:induction false} BranchSim<S(!new)>(act: Act<S>, p: Code, s: Stmt, first: bool, brk: Option<Label>, cont: Option<Label>, st: Em, m: Config<S>, fuel: nat) returns (k: nat, m': Config<S>, n: nat)
    requires s.If? && IfAt(p, s, brk, cont, st) && NegatesNot(act) && Targets(p, brk, cont) && SimulableStmt(s, brk.Some?)
    requires var l := if first then Lab(st.labels) else Lab(st.labels + 1); m.Running? && m.pc == PosFrom(p, l, 0) + 1 && m.cur == l
    ensures
      var (o, x) := ExecBlock(act, if first then s.thn else s.els, m.s, fuel);
      var end := Lab(st.labels + 2);
      st.regs <= n && Steps(act, p, m, k) == m' && Lands(p, m, m', k, o, x, PosFrom(p, end, 0) + 1, end, brk, cont, n, fuel)
    decreases fuel, s, 1
  {
    var (thn, els, end) := (Lab(st.labels), Lab(st.labels + 1), Lab(st.labels + 2));
    var s0 := EmitCond(s.cond, thn, els, st.(labels := st.labels + 3)).1;
    if first {
      k, m' := LabelledSim(act, p, s.thn, brk, cont, s0.(cur := thn), end, m.pc, m, fuel);
      n := s0.regs;
    } else {
      var s1 := EmitBlock(s.thn, brk, cont, s0.(cur := thn)).1;
      k, m' := LabelledSim(act, p, s.els, brk, cont, s1.(cur := els), end, m.pc, m, fuel);
      n := s1.regs;
    }
  }

  lemma MarkedBlock(p: Code, pc: nat, blk: Code, l: Label, c: Code, close: Code)
    requires Unique(p) && blk == [Mark(l)] + c + close && CodeAt(p, pc, blk)
    ensures MarkedAt(p, l, c + close) && PosFrom(p, l, 0) == pc
  {
    assert blk == [Mark(l)] + (c + close);
    CodeSplit(p, pc, [Mark(l)], c + close);
    LineAt(p, pc, [Mark(l)], 0);
    HasLabelAt(p, l, pc);
  }

  lemma EndLabel(p: Code, pc: nat, l: Label)
    requires Unique(p) && CodeAt(p, pc, [Mark(l)])
    ensures MarkedAt(p, l, []) && PosFrom(p, l, 0) == pc
  {
    Lines(p, pc, [Mark(l)]);
    HasLabelAt(p, l, pc);
  }

  // --- loops ---

  // What stands between a loop's head label and its body.
  function LoopHead(s: Stmt, st: Em): (Code, Em)
    requires s.Loop? || s.While?
  {
    var (head, body, end) := (Lab(st.labels), Lab(st.labels + 1), Lab(st.labels + 2));
    var st0 := Em(st.regs, st.labels + 3, head);
    if s.Loop? then ([Br(body)], st0) else EmitCond(s.cond, body, end, st0)
  }

  ghost predicate LoopAt(p: Code, s: Stmt, st: Em)
    requires s.Loop? || s.While?
  {
    var (head, body, end) := (Lab(st.labels), Lab(st.labels + 1), Lab(st.labels + 2));
    var (c0, s0) := LoopHead(s, st);
    var (c, s1, t) := EmitBlock(s.body, Some(end), Some(head), s0.(cur := body));
    Unique(p) && MarkedAt(p, head, c0) && MarkedAt(p, body, c + Close(t, head)) && MarkedAt(p, end, [])
  }

  lemma LoopLayout(p: Code, s: Stmt, st: Em, pc: nat)
    requires (s.Loop? || s.While?) && Unique(p) && CodeAt(p, pc, EmitStmt(s, None, None, st).0)
    ensures LoopAt(p, s, st) && BranchAt(p, pc, Lab(st.labels))
    ensures PosFrom(p, Lab(st.labels + 2), 0) + 1 == pc + |EmitStmt(s, None, None, st).0|
  {
    var (head, body, end) := (Lab(st.labels), Lab(st.labels + 1), Lab(st.labels + 2));
    var (c0, s0) := LoopHead(s, st);
    var (c, s1, t) := EmitBlock(s.body, Some(end), Some(head), s0.(cur := body));
    var pre, blk := [Br(head), Mark(head)], [Mark(body)] + c + Close(t, head);
    assert EmitStmt(s, None, None, st).0 == pre + c0 + blk + [Mark(end)];
    HeadAndBody(p, pc, EmitStmt(s, None, None, st).0, pre, head, c0, body, c, Close(t, head), blk, end);
  }

  // A branch to a head block, the head, a labelled block, and a last label.
  lemma HeadAndBody(p: Code, pc: nat, code: Code, pre: Code, head: Label, c0: Code, body: Label, c: Code, e: Code, blk: Code, end: Label)
    requires Unique(p) && CodeAt(p, pc, code) && code == pre + c0 + blk + [Mark(end)]
    requires pre == [Br(head), Mark(head)] && blk == [Mark(body)] + c + e
    ensures BranchAt(p, pc, head) && MarkedAt(p, head, c0) && MarkedAt(p, body, c + e) && MarkedAt(p, end, [])
    ensures PosFrom(p, end, 0) + 1 == pc + |code|
  {
    FourPieces(p, pc, code, pre, c0, blk, [Mark(end)]);
    Lines(p, pc, pre);
    HasLabelAt(p, head, pc + 1);
    MarkedBlock(p, pc + 2 + |c0|, blk, body, c, e);
    EndLabel(p, pc + 2 + |c0| + |blk|, end);
  }

  lemma {:induction false} LoopStart<S(!new)>(act: Act<S>, p: Code, s: Stmt, st: Em, pc: nat, m: Config<S>, fuel: nat) returns (k: nat, m': Config<S>)
    requires (s.Loop? || s.While?) && Starts(p, EmitStmt(s, None, None, st).0, pc, st, m) && NegatesNot(act) && SimulableStmt(s, true)
    ensures
      var (c, s1, t) := EmitStmt(s, None, None, st);
      var (o, x) := ExecStmt(act, s, m.s, fuel);
      Steps(act, p, m, k) == m' && Lands(p, m, m', k, o, x, pc + |c|, s1.cur, None, None, st.regs, fuel) && !t
    decreases fuel, s, 2
  {
    LoopLayout(p, s, st, pc);
    var m1 := Step(act, p, m);
    assert Steps(act, p, m1, 0) == m1;
    var k2, m2 := LoopSim(act, p, s, st, m1, fuel);
    var (o, x) := ExecLoop(act, s, m.s, fuel);
    LandsAfter(act, p, m, m1, m2, 1, k2, o, x, PosFrom(p, Lab(st.labels + 2), 0) + 1, Lab(st.labels + 2), None, None, st.regs, st.regs, fuel, fuel);
    k, m' := 1 + k2, m2;
  }

  // From the head label: into the body, or out of the loop.
  lemma {:induction false} TestSim<S(!new)>(act: Act<S>, p: Code, s: Stmt, st: Em, m: Config<S>) returns (k: nat, m': Config<S>)
    requires (s.Loop? || s.While?) && LoopAt(p, s, st) && NegatesNot(act)
    requires m.Running? && m.pc == PosFrom(p, Lab(st.labels), 0) + 1 && m.cur == Lab(st.labels)
    ensures
      var (v, x) := if s.While? then Eval(act, s.cond, Val, m.s) else (1, m.s);
      k > 0 && Steps(act, p, m, k) == m' && InBlock(p, m, m', if v != 0 then Lab(st.labels + 1) else Lab(st.labels + 2), x, st.regs)
  {
    if s.While? {
      k, m' := CondSim(act, p, s.cond, Lab(st.labels + 1), Lab(st.labels + 2), Em(st.regs, st.labels + 3, Lab(st.labels)), m.pc, m);
    } else {
      k, m' := JumpSim(act, p, Lab(st.labels + 1), m.pc, m);
    }
  }

  lemma {:induction false} RoundSim<S(!new)>(act: Act<S>, p: Code, s: Stmt, st: Em, m: Config<S>, fuel: nat) returns (k: nat, m': Config<S>)
    requires (s.Loop? || s.While?) && LoopAt(p, s, st) && NegatesNot(act) && SimulableStmt(s, true) && fuel > 0
    requires m.Running? && m.pc == PosFrom(p, Lab(st.labels), 0) + 1 && m.cur == Lab(st.labels)
    ensures
      var (o, x) := LoopRound(act, s, m.s, fuel);
      var (head, end) := (Lab(st.labels), Lab(st.labels + 2));
      k > 0 && Steps(act, p, m, k) == m' && Lands(p, m, m', k, o, x, PosFrom(p, head, 0) + 1, head, Some(end), None, st.regs, fuel)
    decreases fuel, s, 0
  {
    var (head, body, end) := (Lab(st.labels), Lab(st.labels + 1), Lab(st.labels + 2));
    k, m' := TestSim(act, p, s, st, m);
    var (v, y) := if s.While? then Eval(act, s.cond, Val, m.s) else (1, m.s);
    if v != 0 {
      var k1, m1 := k, m';
      var st1 := LoopHead(s, st).1.(cur := body);
      var k2, m2 := LabelledSim(act, p, s.body, Some(end), Some(head), st1, head, m1.pc, m1, fuel - 1);
      var (o, z) := ExecBlock(act, s.body, y, fuel - 1);
      LandsAfter(act, p, m, m1, m2, k1, k2, o, z, PosFrom(p, head, 0) + 1, head, Some(end), Some(head), st.regs, st1.regs, fuel - 1, fuel);
      k, m' := k1 + k2, m2;
    }
  }

  lemma {:induction false} LoopSim<S(!new)>(act: Act<S>, p: Code, s: Stmt, st: Em, m: Config<S>, fuel: nat) returns (k: nat, m': Config<S>)
    requires (s.Loop? || s.While?) && LoopAt(p, s, st) && NegatesNot(act) && SimulableStmt(s, true)
    requires m.Running? && m.pc == PosFrom(p, Lab(st.labels), 0) + 1 && m.cur == Lab(st.labels)
    ensures
      var (o, x) := ExecLoop(act, s, m.s, fuel);
      var end := Lab(st.labels + 2);
      Steps(act, p, m, k) == m' && Lands(p, m, m', k, o, x, PosFrom(p, end, 0) + 1, end, None, None, st.regs, fuel)
    decreases fuel, s, 1
  {
    if fuel == 0 {
      k, m' := 0, m;
    } else {
      k, m' := RoundSim(act, p, s, st, m, fuel);
      var (o, x) := LoopRound(act, s, m.s, fuel);
      if o == Normal {
        var k1, m1 := k, m';
        var k2, m2 := LoopSim(act, p, s, st, m1, fuel - 1);
        var (o2, x2) := ExecLoop(act, s, x, fuel - 1);
        var end := Lab(st.labels + 2);
        LandsAfter(act, p, m, m1, m2, k1, k2, o2, x2, PosFrom(p, end, 0) + 1, end, None, None, st.regs, st.regs, fuel - 1, fuel);
        k, m' := k1 + k2, m2;
      }
    }
  }

  // --- counted loops ---

  // Where the blocks of a counted loop are. `z` and `inc` hold the end bound
  // and the step.
  ghost predicate ForAt(p: Code, s: Stmt, st: Em, z: Operand, inc: Operand)
    requires s.For?
  {
    var (head, body, step, end) := (Lab(st.labels), Lab(st.labels + 1), Lab(st.labels + 2), Lab(st.labels + 3));
    var (c, s1, t) := EmitBlock(s.body, Some(end), Some(step), Em(st.regs + 1, st.labels + 4, body));
    && Unique(p) && MarkedAt(p, body, c + Close(t, step)) && MarkedAt(p, end, [])
    && MarkedAt(p, head, RoundTest(s, z, st.regs, body, end))
    && MarkedAt(p, step, RoundStep(s, inc, s1.regs, head))
  }

  lemma ForLayout(p: Code, s: Stmt, st: Em, z: Operand, inc: Operand, pc: nat)
    requires s.For? && Unique(p) && CodeAt(p, pc, EmitRounds(s, z, inc, st).0)
    ensures ForAt(p, s, st, z, inc) && BranchAt(p, pc, Lab(st.labels))
    ensures PosFrom(p, Lab(st.labels + 3), 0) + 1 == pc + |EmitRounds(s, z, inc, st).0|
  {
    var (head, body, step, end) := (Lab(st.labels), Lab(st.labels + 1), Lab(st.labels + 2), Lab(st.labels + 3));
    var (c, s1, t) := EmitBlock(s.body, Some(end), Some(step), Em(st.regs + 1, st.labels + 4, body));
    var test, next := RoundTest(s, z, st.regs, body, end), RoundStep(s, inc, s1.regs, head);
    var pre, blk, post := [Br(head), Mark(head)] + test, [Mark(body)] + c + Close(t, step), [Mark(step)] + next;
    ForPieces(p, pc, EmitRounds(s, z, inc, st).0, pre, head, test, blk, body, c, Close(t, step), post, step, next, end);
  }

  lemma ForPieces(p: Code, pc: nat, code: Code, pre: Code, head: Label, test: Code, blk: Code, body: Label, c: Code, e: Code,
                  post: Code, step: Label, next: Code, end: Label)
    requires Unique(p) && CodeAt(p, pc, code) && code == pre + blk + post + [Mark(end)]
    requires pre == [Br(head), Mark(head)] + test && blk == [Mark(body)] + c + e && post == [Mark(step)] + next
    ensures BranchAt(p, pc, head) && MarkedAt(p, head, test) && MarkedAt(p, body, c + e)
    ensures MarkedAt(p, step, next) && MarkedAt(p, end, []) && PosFrom(p, end, 0) + 1 == pc + |code|
  {
    assert post == [Mark(step)] + next + [] && next + [] == next;
    TwoBlocks(p, pc, code, pre, body, c, e, blk, step, next, [], post, end);
    CodeSplit(p, pc, [Br(head), Mark(head)], test);
    Lines(p, pc, [Br(head), Mark(head)]);
    HasLabelAt(p, head, pc + 1);
  }

  // A loop operand keeps its value as long as the registers below `n` do.
  ghost predicate Holds(op: Operand, v: int, m: Config, n: nat) {
    Known(op, m, n) && Get(op, m.regs) == v
  }

  // The bounds and the step, each evaluated once and in order, then the loop
  // variable.
  lemma {:induction false} ForHeadSim<S(!new)>(act: Act<S>, p: Code, s: Stmt, st: Em, pc: nat, m: Config<S>) returns (k: nat, m': Config<S>)
    requires s.For? && Starts(p, EmitForHead(s, st).0, pc, st, m)
    ensures
      var (c, z, inc, s1) := EmitForHead(s, st);
      var (v0, x1) := Eval(act, s.start, Val, m.s);
      var (v1, x2) := Eval(act, s.end, Val, x1);
      var (v2, x3) := EvalStep(act, s.step, x2);
      && Steps(act, p, m, k) == m' && Arrived(m, m', pc + |c|, s1.cur, act(ForInit(s.v), [v0], x3).1, st.regs)
      && Holds(z, v1, m', s1.regs) && Holds(inc, v2, m', s1.regs)
  {
    var (c1, a, s1) := EmitExpr(s.start, Val, st);
    var (c2, z, s2) := EmitExpr(s.end, Val, s1);
    var (c3, inc, s3) := EmitStep(s.step, s2);
    var line := Do(s3.regs, ForInit(s.v), [a]);
    FourPieces(p, pc, EmitForHead(s, st).0, c1, c2, c3, [line]);
    var k1, m1 := BoundsSim(act, p, s.start, s.end, s.step, st, pc, m);
    k, m' := DoSim(act, p, m, k1, m1, line);
    assert Gets([a], m1.regs) == [Get(a, m1.regs)];
  }

  // Two expressions and an optional one; all three values stand at the end.
  lemma {:induction false} BoundsSim<S>(act: Act<S>, p: Code, x: Expr, y: Expr, w: Option<Expr>, st: Em, pc: nat, m: Config<S>) returns (k: nat, m': Config<S>)
    requires
      var (c1, a, s1) := EmitExpr(x, Val, st);
      var (c2, b, s2) := EmitExpr(y, Val, s1);
      Starts(p, c1, pc, st, m) && CodeAt(p, pc + |c1|, c2) && CodeAt(p, pc + |c1| + |c2|, EmitStep(w, s2).0)
    ensures
      var (c1, a, s1) := EmitExpr(x, Val, st);
      var (c2, b, s2) := EmitExpr(y, Val, s1);
      var (c3, d, s3) := EmitStep(w, s2);
      var (v1, x1) := Eval(act, x, Val, m.s);
      var (v2, x2) := Eval(act, y, Val, x1);
      var (v3, x3) := EvalStep(act, w, x2);
      && Steps(act, p, m, k) == m' && Arrived(m, m', pc + |c1| + |c2| + |c3|, s3.cur, x3, st.regs)
      && Holds(a, v1, m', s3.regs) && Holds(b, v2, m', s3.regs) && Holds(d, v3, m', s3.regs)
  {
    var (c1, a, s1) := EmitExpr(x, Val, st);
    var (c2, b, s2) := EmitExpr(y, Val, s1);
    var k2, m2 := TwoSim(act, p, x, y, st, pc, m);
    var k3, m3 := StepSim(act, p, w, s2, pc + |c1| + |c2|, m2);
    StepsAdd(act, p, m, k2, k3);
    KeptTwo(m, m2, m3, a, b, st.regs, s2.regs, EmitStep(w, s2).2.regs);
    k, m' := k2 + k3, m3;
  }

  lemma KeptTwo(m: Config, m2: Config, m3: Config, a: Operand, b: Operand, n: nat, n2: nat, n3: nat)
    requires m.Running? && m2.Running? && m3.Running? && n <= n2 <= n3
    requires Agree(m.regs, m2.regs, n) && Agree(m2.regs, m3.regs, n2) && Known(a, m2, n2) && Known(b, m2, n2)
    ensures Agree(m.regs, m3.regs, n) && Holds(a, Get(a, m2.regs), m3, n3) && Holds(b, Get(b, m2.regs), m3, n3)
  {}

  // Two expressions, one after the other; both values stand at the end.
  lemma {:induction false} TwoSim<S>(act: Act<S>, p: Code, x: Expr, y: Expr, st: Em, pc: nat, m: Config<S>) returns (k: nat, m': Config<S>)
    requires var (c1, a, s1) := EmitExpr(x, Val, st);
      Starts(p, c1, pc, st, m) && CodeAt(p, pc + |c1|, EmitExpr(y, Val, s1).0)
    ensures
      var (c1, a, s1) := EmitExpr(x, Val, st);
      var (c2, b, s2) := EmitExpr(y, Val, s1);
      var (v1, x1) := Eval(act, x, Val, m.s);
      var (v2, x2) := Eval(act, y, Val, x1);
      && Steps(act, p, m, k) == m' && Arrived(m, m', pc + |c1| + |c2|, s2.cur, x2, st.regs)
      && Known(a, m', s2.regs) && Get(a, m'.regs) == v1 && Known(b, m', s2.regs) && Get(b, m'.regs) == v2
  {
    var (c1, a, s1) := EmitExpr(x, Val, st);
    var k1, m1 := ExprSim(act, p, x, Val, st, pc, m);
    var k2, m2 := ExprSim(act, p, y, Val, s1, pc + |c1|, m1);
    StepsAdd(act, p, m, k1, k2);
    AgreeTrans(m.regs, m1.regs, m2.regs, st.regs, s1.regs);
    k, m' := k1 + k2, m2;
  }

  lemma {:induction false} StepSim<S>(act: Act<S>, p: Code, e: Option<Expr>, st: Em, pc: nat, m: Config<S>) returns (k: nat, m': Config<S>)
    requires Starts(p, EmitStep(e, st).0, pc, st, m)
    ensures
      var (c, r, s1) := EmitStep(e, st);
      var (v, x) := EvalStep(act, e, m.s);
      Steps(act, p, m, k) == m' && Arrived(m, m', pc + |c|, s1.cur, x, st.regs) && Known(r, m', s1.regs) && Get(r, m'.regs) == v
  {
    if e.Some? {
      k, m' := ExprSim(act, p, e.value, Val, st, pc, m);
    } else {
      k, m' := 0, m;
    }
  }

  lemma {:induction false} ForStart<S(!new)>(act: Act<S>, p: Code, s: Stmt, st: Em, pc: nat, m: Config<S>, fuel: nat) returns (k: nat, m': Config<S>)
    requires s.For? && Starts(p, EmitFor(s, st).0, pc, st, m) && NegatesNot(act) && SimulableStmt(s, true)
    ensures
      var (c, s1, t) := EmitFor(s, st);
      var (o, x) := ExecStmt(act, s, m.s, fuel);
      Steps(act, p, m, k) == m' && Lands(p, m, m', k, o, x, pc + |c|, s1.cur, None, None, st.regs, fuel) && !t
    decreases fuel, s, 2
  {
    var (c0, z, inc, s0) := EmitForHead(s, st);
    var (c1, s1) := EmitRounds(s, z, inc, s0);
    CodeSplit(p, pc, c0, c1);
    var k1, m1 := ForHeadSim(act, p, s, st, pc, m);
    var k2, m2 := RoundsSim(act, p, s, s0, z, inc, Get(z, m1.regs), Get(inc, m1.regs), pc + |c0|, m1, fuel);
    var (o, x) := ExecFor(act, s, Get(z, m1.regs), Get(inc, m1.regs), m1.s, fuel);
    LandsAfter(act, p, m, m1, m2, k1, k2, o, x, pc + |c0| + |c1|, s1.cur, None, None, st.regs, s0.regs, fuel, fuel);
    k, m' := k1 + k2, m2;
  }

  // From the branch to the head to the end of the rounds.
  lemma {:induction false} RoundsSim<S(!new)>(act: Act<S>, p: Code, s: Stmt, s0: Em, z: Operand, inc: Operand, bound: int, delta: int, pc: nat, m: Config<S>, fuel: nat) returns (k: nat, m': Config<S>)
    requires s.For? && Starts(p, EmitRounds(s, z, inc, s0).0, pc, s0, m) && NegatesNot(act) && SimulableStmt(s, true)
    requires Holds(z, bound, m, s0.regs) && Holds(inc, delta, m, s0.regs)
    ensures
      var (c, s1) := EmitRounds(s, z, inc, s0);
      var (o, x) := ExecFor(act, s, bound, delta, m.s, fuel);
      Steps(act, p, m, k) == m' && Lands(p, m, m', k, o, x, pc + |c|, s1.cur, None, None, s0.regs, fuel)
    decreases fuel, s, 1, 1
  {
    ForLayout(p, s, s0, z, inc, pc);
    var end := Lab(s0.labels + 3);
    var m1 := Step(act, p, m);
    assert Steps(act, p, m1, 0) == m1;
    var k2, m2 := ForSim(act, p, s, s0, z, inc, bound, delta, m1, fuel);
    var (o, x) := ExecFor(act, s, bound, delta, m.s, fuel);
    LandsAfter(act, p, m, m1, m2, 1, k2, o, x, PosFrom(p, end, 0) + 1, end, None, None, s0.regs, s0.regs, fuel, fuel);
    k, m' := 1 + k2, m2;
  }

  lemma {:induction false} ForRoundSim<S(!new)>(act: Act<S>, p: Code, s: Stmt, s0: Em, z: Operand, inc: Operand, bound: int, delta: int, m: Config<S>, fuel: nat) returns (k: nat, m': Config<S>)
    requires s.For? && ForAt(p, s, s0, z, inc) && NegatesNot(act) && SimulableStmt(s, true) && fuel > 0
    requires m.Running? && m.pc == PosFrom(p, Lab(s0.labels), 0) + 1 && m.cur == Lab(s0.labels)
    requires Holds(z, bound, m, s0.regs) && Holds(inc, delta, m, s0.regs)
    ensures
      var (o, x) := ForRound(act, s, bound, delta, m.s, fuel);
      var (head, end) := (Lab(s0.labels), Lab(s0.labels + 3));
      k > 0 && Steps(act, p, m, k) == m' && Lands(p, m, m', k, o, x, PosFrom(p, head, 0) + 1, head, Some(end), None, s0.regs, fuel)
    decreases fuel, s, 0
  {
    var (head, end) := (Lab(s0.labels), Lab(s0.labels + 3));
    k, m' := ForTestSim(act, p, s, s0, z, inc, bound, m);
    var (v, y) := act(ForMore(s.v, s.dir), [bound], m.s);
    if v != 0 {
      var k1, m1 := k, m';
      var k2, m2 := ForTurnSim(act, p, s, s0, z, inc, bound, delta, m1, fuel);
      var (o, w) := ForTurn(act, s, delta, y, fuel);
      LandsAfter(act, p, m, m1, m2, k1, k2, o, w, PosFrom(p, head, 0) + 1, head, Some(end), None, s0.regs, s0.regs, fuel - 1, fuel);
      k, m' := k1 + k2, m2;
    }
  }

  // From the body of a round to its end: the body, then the step.
  lemma {:induction false} ForTurnSim<S(!new)>(act: Act<S>, p: Code, s: Stmt, s0: Em, z: Operand, inc: Operand, bound: int, delta: int, m: Config<S>, fuel: nat) returns (k: nat, m': Config<S>)
    requires s.For? && ForAt(p, s, s0, z, inc) && NegatesNot(act) && SimulableStmt(s, true) && fuel > 0
    requires m.Running? && m.pc == PosFrom(p, Lab(s0.labels + 1), 0) + 1 && m.cur == Lab(s0.labels + 1)
    requires Holds(z, bound, m, s0.regs) && Holds(inc, delta, m, s0.regs)
    ensures
      var (o, x) := ForTurn(act, s, delta, m.s, fuel);
      var (head, end) := (Lab(s0.labels), Lab(s0.labels + 3));
      Steps(act, p, m, k) == m' && Lands(p, m, m', k, o, x, PosFrom(p, head, 0) + 1, head, Some(end), None, s0.regs, fuel - 1)
    decreases fuel, s, 0, 1
  {
    k, m' := ForBodySim(act, p, s, s0, z, inc, m, fuel);
    var o := ExecBlock(act, s.body, m.s, fuel - 1).0;
    if o == Normal || o == Continued {
      var k3, m3 := ForStepSim(act, p, s, s0, z, inc, bound, delta, m, m');
      StepsAdd(act, p, m, k, k3);
      k, m' := k + k3, m3;
    }
  }

  lemma {:induction false} ForSim<S(!new)>(act: Act<S>, p: Code, s: Stmt, s0: Em, z: Operand, inc: Operand, bound: int, delta: int, m: Config<S>, fuel: nat) returns (k: nat, m': Config<S>)
    requires s.For? && ForAt(p, s, s0, z, inc) && NegatesNot(act) && SimulableStmt(s, true)
    requires m.Running? && m.pc == PosFrom(p, Lab(s0.labels), 0) + 1 && m.cur == Lab(s0.labels)
    requires Holds(z, bound, m, s0.regs) && Holds(inc, delta, m, s0.regs)
    ensures
      var (o, x) := ExecFor(act, s, bound, delta, m.s, fuel);
      var end := Lab(s0.labels + 3);
      Steps(act, p, m, k) == m' && Lands(p, m, m', k, o, x, PosFrom(p, end, 0) + 1, end, None, None, s0.regs, fuel)
    decreases fuel, s, 1, 0
  {
    if fuel == 0 {
      k, m' := 0, m;
    } else {
      k, m' := ForRoundSim(act, p, s, s0, z, inc, bound, delta, m, fuel);
      var (o, x) := ForRound(act, s, bound, delta, m.s, fuel);
      if o == Normal {
        var k1, m1 := k, m';
        var k2, m2 := ForSim(act, p, s, s0, z, inc, bound, delta, m1, fuel - 1);
        var (o2, x2) := ExecFor(act, s, bound, delta, x, fuel - 1);
        var end := Lab(s0.labels + 3);
        LandsAfter(act, p, m, m1, m2, k1, k2, o2, x2, PosFrom(p, end, 0) + 1, end, None, None, s0.regs, s0.regs, fuel - 1, fuel);
        k, m' := k1 + k2, m2;
      }
    }
  }

  lemma {:induction false} ForBodySim<S(!new)>(act: Act<S>, p: Code, s: Stmt, s0: Em, z: Operand, inc: Operand, m: Config<S>, fuel: nat) returns (k: nat, m': Config<S>)
    requires s.For? && ForAt(p, s, s0, z, inc) && NegatesNot(act) && SimulableStmt(s, true) && fuel > 0
    requires m.Running? && m.pc == PosFrom(p, Lab(s0.labels + 1), 0) + 1 && m.cur == Lab(s0.labels + 1)
    ensures
      var (o, x) := ExecBlock(act, s.body, m.s, fuel - 1);
      var (step, end) := (Lab(s0.labels + 2), Lab(s0.labels + 3));
      Steps(act, p, m, k) == m' && Lands(p, m, m', k, o, x, PosFrom(p, step, 0) + 1, step, Some(end), Some(step), s0.regs + 1, fuel - 1)
    decreases fuel, s, 0, 0
  {
    var (body, step, end) := (Lab(s0.labels + 1), Lab(s0.labels + 2), Lab(s0.labels + 3));
    k, m' := LabelledSim(act, p, s.body, Some(end), Some(step), Em(s0.regs + 1, s0.labels + 4, body), step, m.pc, m, fuel - 1);
  }

  lemma ForTestSim<S(!new)>(act: Act<S>, p: Code, s: Stmt, s0: Em, z: Operand, inc: Operand, bound: int, m: Config<S>) returns (k: nat, m': Config<S>)
    requires s.For? && ForAt(p, s, s0, z, inc) && Holds(z, bound, m, s0.regs)
    requires m.Running? && m.pc == PosFrom(p, Lab(s0.labels), 0) + 1 && m.cur == Lab(s0.labels)
    ensures
      var (v, x) := act(ForMore(s.v, s.dir), [bound], m.s);
      k > 0 && Steps(act, p, m, k) == m' && InBlock(p, m, m', if v != 0 then Lab(s0.labels + 1) else Lab(s0.labels + 3), x, s0.regs)
  {
    var test, br := Do(s0.regs, ForMore(s.v, s.dir), [z]), CondBr(Reg(s0.regs), Lab(s0.labels + 1), Lab(s0.labels + 3));
    assert [test, br] == [test] + [br];
    CodeSplit(p, m.pc, [test], [br]);
    var k1, m1 := DoSim(act, p, m, 0, m, test);
    assert Gets([z], m.regs) == [bound];
    Lines(p, m1.pc, [br]);
    OneStep(act, p, m, k1, m1);
    k, m' := k1 + 1, Step(act, p, m1);
  }

  // `m0` is the start of the iteration, whose operands still stand.
  lemma ForStepSim<S(!new)>(act: Act<S>, p: Code, s: Stmt, s0: Em, z: Operand, inc: Operand, bound: int, delta: int, m0: Config<S>, m: Config<S>) returns (k: nat, m': Config<S>)
    requires s.For? && ForAt(p, s, s0, z, inc) && Holds(z, bound, m0, s0.regs) && Holds(inc, delta, m0, s0.regs)
    requires m.Running? && InBlock(p, m0, m, Lab(s0.labels + 2), m.s, s0.regs)
    ensures Steps(act, p, m, k) == m' && InBlock(p, m0, m', Lab(s0.labels), act(ForStep(s.v, s.dir), [delta], m.s).1, s0.regs)
    ensures Holds(z, bound, m', s0.regs) && Holds(inc, delta, m', s0.regs)
  {
    var s1 := EmitBlock(s.body, Some(Lab(s0.labels + 3)), Some(Lab(s0.labels + 2)), Em(s0.regs + 1, s0.labels + 4, Lab(s0.labels + 1))).1;
    var line, br := Do(s1.regs, ForStep(s.v, s.dir), [inc]), Br(Lab(s0.labels));
    assert [line, br] == [line] + [br];
    CodeSplit(p, m.pc, [line], [br]);
    var k1, m1 := DoSim(act, p, m, 0, m, line);
    assert Gets([inc], m.regs) == [delta];
    Lines(p, m1.pc, [br]);
    OneStep(act, p, m, k1, m1);
    k, m' := k1 + 1, Step(act, p, m1);
  }

  // --- matches ---

  // The arm numbered `j`: where its block is, and the emitter state it was
  // emitted in.
  lemma {:induction false} ArmAt(p: Code, s: Stmt, i: nat, j: nat, arm0: nat, end: Label, brk: Option<Label>, cont: Option<Label>, st: Em, pc: nat) returns (em: Em)
    requires s.Match? && i <= j < |s.arms| && Unique(p) && CodeAt(p, pc, EmitArms(s, i, arm0, end, brk, cont, st).0)
    requires arm0 + |s.arms| <= st.labels
    ensures em.cur == Lab(arm0 + j) && st.regs <= em.regs && arm0 + j < em.labels && ArmFrom(p, s, j, end, brk, cont, em)
    decreases j - i
  {
    em := st.(cur := Lab(arm0 + i));
    var next, rest := ThisArm(p, s, i, arm0, end, brk, cont, st, pc);
    if i < j { em := ArmAt(p, s, i + 1, j, arm0, end, brk, cont, next, rest); }
  }

  // The block of an arm, emitted from state `em`, stands where its label is.
  ghost predicate ArmFrom(p: Code, s: Stmt, j: nat, end: Label, brk: Option<Label>, cont: Option<Label>, em: Em)
    requires s.Match? && j < |s.arms|
  {
    var (c, s1, t) := EmitBlock(s.arms[j].body, brk, cont, em);
    MarkedAt(p, em.cur, c + Close(t, end))
  }

  // The block of one arm, and the others after it.
  lemma ThisArm(p: Code, s: Stmt, i: nat, arm0: nat, end: Label, brk: Option<Label>, cont: Option<Label>, st: Em, pc: nat) returns (next: Em, rest: nat)
    requires s.Match? && i < |s.arms| && Unique(p) && CodeAt(p, pc, EmitArms(s, i, arm0, end, brk, cont, st).0)
    ensures ArmFrom(p, s, i, end, brk, cont, st.(cur := Lab(arm0 + i))) && st.regs <= next.regs && st.labels <= next.labels
    ensures CodeAt(p, rest, EmitArms(s, i + 1, arm0, end, brk, cont, next).0)
  {
    var here := Lab(arm0 + i);
    var (c, s1, t) := EmitBlock(s.arms[i].body, brk, cont, st.(cur := here));
    var cs := EmitArms(s, i + 1, arm0, end, brk, cont, s1).0;
    var blk := [Mark(here)] + c + Close(t, end);
    ArmCode(s, i, arm0, end, brk, cont, st);
    FirstArm(p, pc, blk + cs, blk, here, c, Close(t, end), cs);
    next, rest := s1, pc + |blk|;
  }

  lemma ArmCode(s: Stmt, i: nat, arm0: nat, end: Label, brk: Option<Label>, cont: Option<Label>, st: Em)
    requires s.Match? && i < |s.arms|
    ensures
      var (c, s1, t) := EmitBlock(s.arms[i].body, brk, cont, st.(cur := Lab(arm0 + i)));
      EmitArms(s, i, arm0, end, brk, cont, st).0 == [Mark(Lab(arm0 + i))] + c + Close(t, end) + EmitArms(s, i + 1, arm0, end, brk, cont, s1).0
      && st.regs <= s1.regs && st.labels <= s1.labels
  {}

  // The arms of a match, emitted from state `sa`, stand at `arms`.
  ghost predicate ArmsAt(p: Code, s: Stmt, arm0: nat, end: Label, brk: Option<Label>, cont: Option<Label>, sa: Em, arms: nat)
    requires s.Match?
  {
    && CodeAt(p, arms, EmitArms(s, 0, arm0, end, brk, cont, sa).0) && arm0 + |s.arms| <= sa.labels
    && HasLabel(p, end) && Targets(p, brk, cont) && SimulableStmt(s, brk.Some?)
  }

  lemma FirstArm(p: Code, pc: nat, code: Code, blk: Code, here: Label, c: Code, e: Code, rest: Code)
    requires Unique(p) && CodeAt(p, pc, code) && code == blk + rest && blk == [Mark(here)] + c + e
    ensures MarkedAt(p, here, c + e) && CodeAt(p, pc + |blk|, rest)
  {
    CodeSplit(p, pc, blk, rest);
    MarkedBlock(p, pc, blk, here, c, e);
  }

  // The chain of tests from arm `i` on, then the arm it selects. `arms` is where
  // the arms' code starts.
  lemma {:induction false} ChainSim<S(!new)>(act: Act<S>, p: Code, s: Stmt, i: nat, v: Operand, arm0: nat, end: Label, brk: Option<Label>, cont: Option<Label>,
                                            st: Em, pc: nat, sa: Em, arms: nat, m: Config<S>, fuel: nat) returns (k: nat, m': Config<S>)
    requires s.Match? && i <= |s.arms| && Starts(p, EmitChain(s.arms, i, v, arm0, end, st).0, pc, st, m)
    requires NegatesNot(act) && ArmsAt(p, s, arm0, end, brk, cont, sa, arms) && st.regs <= sa.regs
    requires EmitChain(s.arms, i, v, arm0, end, st).1 == sa && Known(v, m, st.regs)
    ensures
      var (o, x) := ExecArms(act, s, i, Get(v, m.regs), m.s, fuel);
      Steps(act, p, m, k) == m' && Lands(p, m, m', k, o, x, PosFrom(p, end, 0) + 1, end, brk, cont, st.regs, fuel)
    decreases fuel, s, 1, |s.arms| - i
  {
    if i == |s.arms| {
      k, m' := JumpSim(act, p, end, pc, m);
    } else if PWild in s.arms[i].patterns {
      LineAt(p, pc, [Br(Lab(arm0 + i))], 0);
      k, m' := ArmSim(act, p, s, i, arm0, end, brk, cont, pc, sa, arms, m, fuel);
    } else {
      k, m' := TestedSim(act, p, s, i, v, arm0, end, brk, cont, st, pc, sa, arms, m, fuel);
    }
  }

  // An arm with a test: the test, then the arm or the rest of the chain.
  lemma {:induction false} TestedSim<S(!new)>(act: Act<S>, p: Code, s: Stmt, i: nat, v: Operand, arm0: nat, end: Label, brk: Option<Label>, cont: Option<Label>,
                                             st: Em, pc: nat, sa: Em, arms: nat, m: Config<S>, fuel: nat) returns (k: nat, m': Config<S>)
    requires s.Match? && i < |s.arms| && PWild !in s.arms[i].patterns && Starts(p, EmitChain(s.arms, i, v, arm0, end, st).0, pc, st, m)
    requires NegatesNot(act) && ArmsAt(p, s, arm0, end, brk, cont, sa, arms) && st.regs <= sa.regs
    requires EmitChain(s.arms, i, v, arm0, end, st).1 == sa && Known(v, m, st.regs)
    ensures
      var (o, x) := ExecArms(act, s, i, Get(v, m.regs), m.s, fuel);
      Steps(act, p, m, k) == m' && Lands(p, m, m', k, o, x, PosFrom(p, end, 0) + 1, end, brk, cont, st.regs, fuel)
    decreases fuel, s, 1, |s.arms| - i, 1
  {
    var k1, m1 := ArmTestSim(act, p, s.arms, i, v, arm0, end, st, pc, m);
    var (hit, y) := act(Select(s.arms[i].patterns), [Get(v, m.regs)], m.s);
    var k2, m2;
    if hit != 0 {
      k2, m2 := ArmSim(act, p, s, i, arm0, end, brk, cont, pc + 1, sa, arms, m1, fuel);
    } else {
      k2, m2 := MissSim(act, p, s, i, v, arm0, end, brk, cont, st, pc, sa, arms, m1, fuel);
    }
    var (o, x) := ExecArms(act, s, i, Get(v, m.regs), m.s, fuel);
    LandsAfter(act, p, m, m1, m2, k1, k2, o, x, PosFrom(p, end, 0) + 1, end, brk, cont, st.regs, st.regs, fuel, fuel);
    k, m' := k1 + k2, m2;
  }

  // From the branch of a test that failed: the rest of the chain.
  lemma {:induction false} MissSim<S(!new)>(act: Act<S>, p: Code, s: Stmt, i: nat, v: Operand, arm0: nat, end: Label, brk: Option<Label>, cont: Option<Label>,
                                           st: Em, pc: nat, sa: Em, arms: nat, m: Config<S>, fuel: nat) returns (k: nat, m': Config<S>)
    requires s.Match? && i < |s.arms| && Unique(p) && Known(v, m, st.regs)
    requires NegatesNot(act) && ArmsAt(p, s, arm0, end, brk, cont, sa, arms) && st.regs < sa.regs
    requires pc + 2 < |p| && m.pc == pc + 1 && p[pc + 1] == CondBr(Reg(st.regs), Lab(arm0 + i), Lab(st.labels)) && p[pc + 2] == Mark(Lab(st.labels))
    requires Get(Reg(st.regs), m.regs) == 0
    requires
      var (c, s1) := EmitChain(s.arms, i + 1, v, arm0, end, Em(st.regs + 1, st.labels + 1, Lab(st.labels)));
      CodeAt(p, pc + 3, c) && s1 == sa
    ensures
      var (o, x) := ExecArms(act, s, i + 1, Get(v, m.regs), m.s, fuel);
      Steps(act, p, m, k) == m' && Lands(p, m, m', k, o, x, PosFrom(p, end, 0) + 1, end, brk, cont, st.regs, fuel)
    decreases fuel, s, 1, |s.arms| - i, 0
  {
    var next := Lab(st.labels);
    var st1 := Em(st.regs + 1, st.labels + 1, next);
    HasLabelAt(p, next, pc + 2);
    var m1 := Step(act, p, m);
    assert Steps(act, p, m1, 0) == m1;
    var k2, m2 := ChainSim(act, p, s, i + 1, v, arm0, end, brk, cont, st1, pc + 3, sa, arms, m1, fuel);
    var (o, x) := ExecArms(act, s, i + 1, Get(v, m.regs), m.s, fuel);
    LandsAfter(act, p, m, m1, m2, 1, k2, o, x, PosFrom(p, end, 0) + 1, end, brk, cont, st.regs, st1.regs, fuel, fuel);
    k, m' := 1 + k2, m2;
  }

  // The test of one arm, up to its branch.
  lemma ArmTestSim<S>(act: Act<S>, p: Code, arms: seq<Arm>, i: nat, v: Operand, arm0: nat, end: Label, st: Em, pc: nat, m: Config<S>) returns (k: nat, m': Config<S>)
    requires i < |arms| && PWild !in arms[i].patterns && Starts(p, EmitChain(arms, i, v, arm0, end, st).0, pc, st, m)
    ensures
      var (hit, y) := act(Select(arms[i].patterns), [Get(v, m.regs)], m.s);
      var next := Lab(st.labels);
      && k == 1 && Steps(act, p, m, k) == m' && m' == Running(pc + 1, m.regs[st.regs := hit], m.cur, m.prev, y)
      && CodeAt(p, pc + 3, EmitChain(arms, i + 1, v, arm0, end, Em(st.regs + 1, st.labels + 1, next)).0)
      && p[pc + 1] == CondBr(Reg(st.regs), Lab(arm0 + i), next) && p[pc + 2] == Mark(next)
  {
    var next := Lab(st.labels);
    var test, br := Do(st.regs, Select(arms[i].patterns), [v]), CondBr(Reg(st.regs), Lab(arm0 + i), next);
    var (c, s1) := EmitChain(arms, i + 1, v, arm0, end, Em(st.regs + 1, st.labels + 1, next));
    CodeSplit(p, pc, [test, br, Mark(next)], c);
    Lines(p, pc, [test, br, Mark(next)]);
    assert Gets([v], m.regs) == [Get(v, m.regs)];
    k, m' := 1, Step(act, p, m);
    assert Steps(act, p, m', 0) == m';
  }

  // A jump to an arm that is taken, and the arm.
  lemma {:induction false} ArmSim<S(!new)>(act: Act<S>, p: Code, s: Stmt, i: nat, arm0: nat, end: Label, brk: Option<Label>, cont: Option<Label>,
                                          pc: nat, sa: Em, arms: nat, m: Config<S>, fuel: nat) returns (k: nat, m': Config<S>)
    requires s.Match? && i < |s.arms| && Unique(p) && m.Running? && m.pc == pc < |p|
    requires p[pc] == Br(Lab(arm0 + i)) || (p[pc].CondBr? && p[pc].yes == Lab(arm0 + i) && Get(p[pc].c, m.regs) != 0)
    requires NegatesNot(act) && ArmsAt(p, s, arm0, end, brk, cont, sa, arms)
    ensures
      var (o, x) := ExecBlock(act, s.arms[i].body, m.s, fuel);
      Steps(act, p, m, k) == m' && Lands(p, m, m', k, o, x, PosFrom(p, end, 0) + 1, end, brk, cont, sa.regs, fuel)
    decreases fuel, s, 0
  {
    k, m' := EnterArm(act, p, s, i, arm0, end, brk, cont, sa, arms, m, m.s, fuel);
  }

  // The same from any step that jumps to the arm, whatever it does to the state.
  lemma {:induction false} EnterArm<S(!new)>(act: Act<S>, p: Code, s: Stmt, i: nat, arm0: nat, end: Label, brk: Option<Label>, cont: Option<Label>,
                                            sa: Em, arms: nat, m: Config<S>, y: S, fuel: nat) returns (k: nat, m': Config<S>)
    requires s.Match? && i < |s.arms| && Unique(p) && m.Running? && Step(act, p, m) == Jump(p, Lab(arm0 + i), m.(s := y))
    requires NegatesNot(act) && ArmsAt(p, s, arm0, end, brk, cont, sa, arms)
    ensures
      var (o, x) := ExecBlock(act, s.arms[i].body, y, fuel);
      Steps(act, p, m, k) == m' && Lands(p, m, m', k, o, x, PosFrom(p, end, 0) + 1, end, brk, cont, sa.regs, fuel)
    decreases fuel, s, 0, 0
  {
    var em := ArmAt(p, s, 0, i, arm0, end, brk, cont, sa, arms);
    var m1 := Step(act, p, m);
    assert Steps(act, p, m1, 0) == m1;
    assert s.arms[i] in s.arms;
    var k2, m2 := LabelledSim(act, p, s.arms[i].body, brk, cont, em, end, m1.pc, m1, fuel);
    var (o, x) := ExecBlock(act, s.arms[i].body, y, fuel);
    LandsAfter(act, p, m, m1, m2, 1, k2, o, x, PosFrom(p, end, 0) + 1, end, brk, cont, sa.regs, em.regs, fuel, fuel);
    k, m' := 1 + k2, m2;
  }

  // --- switches ---

  // The arm that runs, and the state after the tests.
  function Chosen<S>(act: Act<S>, arms: seq<Arm>, i: nat, v: int, x: S): (Option<nat>, S)
    requires i <= |arms|
    decreases |arms| - i
  {
    if i == |arms| then (None, x)
    else if PWild in arms[i].patterns then (Some(i), x)
    else
      var (hit, x1) := act(Select(arms[i].patterns), [v], x);
      if hit != 0 then (Some(i), x1) else Chosen(act, arms, i + 1, v, x1)
  }

  lemma {:induction false} ChosenRuns<S>(act: Act<S>, s: Stmt, i: nat, v: int, x: S, fuel: nat)
    requires s.Match? && i <= |s.arms|
    ensures var (j, y) := Chosen(act, s.arms, i, v, x);
      && (j.Some? ==> i <= j.value < |s.arms|)
      && ExecArms(act, s, i, v, x, fuel) == if j.Some? then ExecBlock(act, s.arms[j.value].body, y, fuel) else (Normal, y)
    decreases |s.arms| - i
  {
    if i < |s.arms| && PWild !in s.arms[i].patterns {
      ChosenRuns(act, s, i + 1, v, act(Select(s.arms[i].patterns), [v], x).1, fuel);
    }
  }

  // With `_` last the switch takes the arm that runs.
  lemma {:induction false} SwitchTakesChosen<S>(act: Act<S>, arms: seq<Arm>, i: nat, v: int, x: S, arm0: nat, end: Label)
    requires i <= |arms| && WildLast(arms)
    ensures var (j, y) := Chosen(act, arms, i, v, x);
      Pick(act, CasesFrom(arms, i, arm0), OtherFrom(arms, i, arm0, end), v, x) == (if j.Some? then Lab(arm0 + j.value) else end, y)
    decreases |arms| - i
  {
    if i < |arms| {
      if PWild in arms[i].patterns {
        NoCases(arms, i, arm0);
      } else {
        var (hit, x1) := act(Select(arms[i].patterns), [v], x);
        var cases := CasesFrom(arms, i, arm0);
        assert cases[1..] == CasesFrom(arms, i + 1, arm0);
        SwitchTakesChosen(act, arms, i + 1, v, x1, arm0, end);
      }
    }
  }

  lemma {:induction false} NoCases(arms: seq<Arm>, i: nat, arm0: nat)
    requires i < |arms| && WildLast(arms) && PWild in arms[i].patterns
    ensures CasesFrom(arms, i, arm0) == []
    decreases |arms| - i
  {
    if i + 1 < |arms| { NoCases(arms, i + 1, arm0); }
  }

  // The switch, and the arm it takes.
  lemma {:induction false} SwitchSim<S(!new)>(act: Act<S>, p: Code, s: Stmt, v: Operand, arm0: nat, end: Label, brk: Option<Label>, cont: Option<Label>,
                                             pc: nat, sa: Em, arms: nat, m: Config<S>, fuel: nat) returns (k: nat, m': Config<S>)
    requires s.Match? && WildLast(s.arms) && Unique(p) && m.Running? && m.pc == pc && CodeAt(p, pc, [Switch(v, CasesFrom(s.arms, 0, arm0), OtherFrom(s.arms, 0, arm0, end))])
    requires NegatesNot(act) && ArmsAt(p, s, arm0, end, brk, cont, sa, arms)
    ensures
      var (o, x) := ExecArms(act, s, 0, Get(v, m.regs), m.s, fuel);
      Steps(act, p, m, k) == m' && Lands(p, m, m', k, o, x, PosFrom(p, end, 0) + 1, end, brk, cont, sa.regs, fuel)
    decreases fuel, s, 0, 1
  {
    var w := Get(v, m.regs);
    LineAt(p, pc, [Switch(v, CasesFrom(s.arms, 0, arm0), OtherFrom(s.arms, 0, arm0, end))], 0);
    var (j, y) := Chosen(act, s.arms, 0, w, m.s);
    SwitchTakesChosen(act, s.arms, 0, w, m.s, arm0, end);
    ChosenRuns(act, s, 0, w, m.s, fuel);
    if j.Some? {
      k, m' := EnterArm(act, p, s, j.value, arm0, end, brk, cont, sa, arms, m, y, fuel);
    } else {
      k, m' := 1, Step(act, p, m);
      assert Steps(act, p, m', 0) == m';
    }
  }

  lemma MatchPieces(p: Code, pc: nat, code: Code, c0: Code, c1: Code, c2: Code, end: Label)
    requires Unique(p) && CodeAt(p, pc, code) && code == c0 + c1 + c2 + [Mark(end)]
    ensures CodeAt(p, pc, c0) && CodeAt(p, pc + |c0|, c1) && CodeAt(p, pc + |c0| + |c1|, c2)
    ensures HasLabel(p, end) && PosFrom(p, end, 0) == pc + |c0| + |c1| + |c2| && |code| == |c0| + |c1| + |c2| + 1
  {
    FourPieces(p, pc, code, c0, c1, c2, [Mark(end)]);
    EndLabel(p, pc + |c0| + |c1| + |c2|, end);
  }

  // The dispatch of a match stands at `pc`, and its arms behind it; `v` holds the
  // scrutinee's value and `s0` is the emitter state after it.
  ghost predicate DispatchAt(p: Code, s: Stmt, v: Operand, s0: Em, brk: Option<Label>, cont: Option<Label>, pc: nat)
    requires s.Match?
  {
    var (end, arm0) := (Lab(s0.labels), s0.labels + 1);
    var (c1, s1) := EmitDispatch(s.arms, v, arm0, end, s0.(labels := arm0 + |s.arms|));
    CodeAt(p, pc, c1) && ArmsAt(p, s, arm0, end, brk, cont, s1, pc + |c1|)
  }

  lemma MatchLayout(p: Code, s: Stmt, brk: Option<Label>, cont: Option<Label>, st: Em, pc: nat)
    requires s.Match? && Unique(p) && CodeAt(p, pc, EmitMatch(s, brk, cont, st).0) && Targets(p, brk, cont) && SimulableStmt(s, brk.Some?)
    ensures
      var (c0, v, s0) := EmitExpr(s.scrutinee, Val, st);
      && CodeAt(p, pc, c0) && DispatchAt(p, s, v, s0, brk, cont, pc + |c0|)
      && PosFrom(p, Lab(s0.labels), 0) + 1 == pc + |EmitMatch(s, brk, cont, st).0|
  {
    var (c0, v, s0) := EmitExpr(s.scrutinee, Val, st);
    var end, arm0 := Lab(s0.labels), s0.labels + 1;
    var (c1, s1) := EmitDispatch(s.arms, v, arm0, end, s0.(labels := arm0 + |s.arms|));
    var c2 := EmitArms(s, 0, arm0, end, brk, cont, s1).0;
    MatchCode(s, brk, cont, st);
    MatchPieces(p, pc, EmitMatch(s, brk, cont, st).0, c0, c1, c2, end);
  }

  lemma MatchCode(s: Stmt, brk: Option<Label>, cont: Option<Label>, st: Em)
    requires s.Match?
    ensures
      var (c0, v, s0) := EmitExpr(s.scrutinee, Val, st);
      var (end, arm0) := (Lab(s0.labels), s0.labels + 1);
      var (c1, s1) := EmitDispatch(s.arms, v, arm0, end, s0.(labels := arm0 + |s.arms|));
      EmitMatch(s, brk, cont, st).0 == c0 + c1 + EmitArms(s, 0, arm0, end, brk, cont, s1).0 + [Mark(end)] && arm0 + |s.arms| <= s1.labels
  {}

  // From the scrutinee's value: the dispatch and the arm it selects.
  lemma {:induction false} SelectSim<S(!new)>(act: Act<S>, p: Code, s: Stmt, v: Operand, s0: Em, brk: Option<Label>, cont: Option<Label>,
                                             pc: nat, m: Config<S>, fuel: nat) returns (k: nat, m': Config<S>)
    requires s.Match? && DispatchAt(p, s, v, s0, brk, cont, pc) && NegatesNot(act) && Unique(p)
    requires m.Running? && m.pc == pc && m.cur == s0.cur && Known(v, m, s0.regs) && (s0.cur.Lab? ==> s0.cur.n < s0.labels)
    ensures
      var (o, x) := ExecArms(act, s, 0, Get(v, m.regs), m.s, fuel);
      Steps(act, p, m, k) == m' && Lands(p, m, m', k, o, x, PosFrom(p, Lab(s0.labels), 0) + 1, Lab(s0.labels), brk, cont, s0.regs, fuel)
    decreases fuel, s, 1, |s.arms| + 1
  {
    var end, arm0 := Lab(s0.labels), s0.labels + 1;
    var st := s0.(labels := arm0 + |s.arms|);
    var (c1, sa) := EmitDispatch(s.arms, v, arm0, end, st);
    var arms := pc + |c1|;
    if OnEnum(s.arms) {
      k, m' := SwitchSim(act, p, s, v, arm0, end, brk, cont, pc, sa, arms, m, fuel);
    } else {
      k, m' := ChainSim(act, p, s, 0, v, arm0, end, brk, cont, st, pc, sa, arms, m, fuel);
    }
  }

  lemma {:induction false} MatchSim<S(!new)>(act: Act<S>, p: Code, s: Stmt, brk: Option<Label>, cont: Option<Label>, st: Em, pc: nat, m: Config<S>, fuel: nat) returns (k: nat, m': Config<S>)
    requires s.Match? && Starts(p, EmitMatch(s, brk, cont, st).0, pc, st, m) && NegatesNot(act) && Targets(p, brk, cont) && SimulableStmt(s, brk.Some?)
    ensures
      var (c, s1, t) := EmitMatch(s, brk, cont, st);
      var (o, x) := ExecStmt(act, s, m.s, fuel);
      Steps(act, p, m, k) == m' && Lands(p, m, m', k, o, x, pc + |c|, s1.cur, brk, cont, st.regs, fuel) && !t
    decreases fuel, s, 2
  {
    MatchLayout(p, s, brk, cont, st, pc);
    var k1, m1 := ExprSim(act, p, s.scrutinee, Val, st, pc, m);
    var (c0, v, s0) := EmitExpr(s.scrutinee, Val, st);
    var k2, m2 := SelectSim(act, p, s, v, s0, brk, cont, pc + |c0|, m1, fuel);
    MatchLands(act, p, s, brk, cont, st, pc, m, k1, m1, k2, m2, fuel);
    k, m' := k1 + k2, m2;
  }

  lemma MatchLands<S(!new)>(act: Act<S>, p: Code, s: Stmt, brk: Option<Label>, cont: Option<Label>, st: Em, pc: nat, m: Config<S>,
                            k1: nat, m1: Config<S>, k2: nat, m2: Config<S>, fuel: nat)
    requires s.Match? && m.Running? && m1.Running?
    requires var (c0, v, s0) := EmitExpr(s.scrutinee, Val, st);
      var (w, y) := Eval(act, s.scrutinee, Val, m.s);
      && Steps(act, p, m, k1) == m1 && m1.s == y && Agree(m.regs, m1.regs, st.regs) && Get(v, m1.regs) == w
      && var end := Lab(s0.labels);
      var (o, x) := ExecArms(act, s, 0, w, y, fuel);
      && PosFrom(p, end, 0) + 1 == pc + |EmitMatch(s, brk, cont, st).0|
      && Steps(act, p, m1, k2) == m2 && Lands(p, m1, m2, k2, o, x, PosFrom(p, end, 0) + 1, end, brk, cont, s0.regs, fuel)
    ensures
      var (c, s1, t) := EmitMatch(s, brk, cont, st);
      var (o, x) := ExecStmt(act, s, m.s, fuel);
      Steps(act, p, m, k1 + k2) == m2 && Lands(p, m, m2, k1 + k2, o, x, pc + |c|, s1.cur, brk, cont, st.regs, fuel) && !t
  {
    var (c0, v, s0) := EmitExpr(s.scrutinee, Val, st);
    var end := Lab(s0.labels);
    var (o, x) := ExecArms(act, s, 0, Get(v, m1.regs), m1.s, fuel);
    LandsAfter(act, p, m, m1, m2, k1, k2, o, x, PosFrom(p, end, 0) + 1, end, brk, cont, st.regs, s0.regs, fuel, fuel);
  }
}
