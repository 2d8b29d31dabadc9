// The code each construct is lowered to, as a function of the emitter's
// counters and current label.
module Emit {
  import opened Ast
  import opened Semantics
  import opened Ir

  // Next register, next label, label of the block being filled.
  datatype Em = Em(regs: nat, labels: nat, cur: Label)

  // Nothing is handed out twice.
  predicate Counters(a: Em, b: Em) { a.regs <= b.regs && a.labels <= b.labels }

  // The block being filled is still the same one, or one opened since.
  predicate Later(a: Em, b: Em) {
    Counters(a, b) && (b.cur == a.cur || InRange(b.cur, a.labels, b.labels))
  }

  function EmitExpr(e: Expr, mode: Mode, st: Em): (r: (Code, Operand, Em))
    ensures Later(st, r.2) && r.1.Reg? && r.1.r < r.2.regs
    decreases e
  {
    match e
    case Ident(x) =>
      ([Do(st.regs, if mode == Val then Read(x) else Addr(x), [])], Reg(st.regs), st.(regs := st.regs + 1))
    case Group(i) => EmitExpr(i, mode, st)
    case Binary(l, And, rt) => EmitLogical(e, st)
    case Binary(l, Or, rt) => EmitLogical(e, st)
    case _ =>
      var (c, ops, s1) := EmitParts(e, Parts(e, mode), st);
      (c + [Do(s1.regs, Node(e), ops)], Reg(s1.regs), s1.(regs := s1.regs + 1))
  }

  // `&&` and `||` in value position: a branch around the right operand, and a
  // phi that names the two blocks that reach it.
  function EmitLogical(e: Expr, st: Em): (r: (Code, Operand, Em))
    requires e.Binary? && (e.bop == And || e.bop == Or)
    ensures Later(st, r.2) && r.1.Reg? && r.1.r < r.2.regs
    decreases e, 0
  {
    var (c1, r1, s1) := EmitExpr(e.left, Val, st);
    var (rhs, end) := (Lab(s1.labels), Lab(s1.labels + 1));
    var (c2, r2, s2) := EmitExpr(e.right, Val, Em(s1.regs, s1.labels + 2, rhs));
    var short := if e.bop == And then 0 else 1;
    ( c1
      + [if e.bop == And then CondBr(r1, rhs, end) else CondBr(r1, end, rhs), Mark(rhs)]
      + c2
      + [Br(end), Mark(end), Phi(s2.regs, Imm(short), s1.cur, r2, s2.cur)],
      Reg(s2.regs),
      Em(s2.regs + 1, s2.labels, end))
  }

  function EmitParts(whole: Expr, ps: seq<(Expr, Mode)>, st: Em): (r: (Code, seq<Operand>, Em))
    requires forall p <- ps :: p.0 < whole
    ensures Later(st, r.2) && |r.1| == |ps| && forall op <- r.1 :: op.Reg? && op.r < r.2.regs
    decreases whole, 0, |ps|
  {
    if ps == [] then ([], [], st)
    else
      var (c1, r1, s1) := EmitExpr(ps[0].0, ps[0].1, st);
      var (c2, rs, s2) := EmitParts(whole, ps[1..], s1);
      (c1 + c2, [r1] + rs, s2)
  }

  function EmitTarget(ps: seq<(Expr, Mode)>, st: Em): (r: (Code, seq<Operand>, Em))
    ensures Later(st, r.2) && |r.1| == |ps| && forall op <- r.1 :: op.Reg? && op.r < r.2.regs
    decreases |ps|
  {
    if ps == [] then ([], [], st)
    else
      var (c1, r1, s1) := EmitExpr(ps[0].0, ps[0].1, st);
      var (c2, rs, s2) := EmitTarget(ps[1..], s1);
      (c1 + c2, [r1] + rs, s2)
  }

  // A condition in branch position: `&&`, `||` and `!` become control flow
  // with two targets and no phi.
  function EmitCond(e: Expr, yes: Label, no: Label, st: Em): (r: (Code, Em))
    ensures Later(st, r.1)
    decreases e
  {
    match e
    case Group(i) => EmitCond(i, yes, no, st)
    case Binary(l, And, rt) =>
      var mid := Lab(st.labels);
      var (c1, s1) := EmitCond(l, mid, no, st.(labels := st.labels + 1));
      var (c2, s2) := EmitCond(rt, yes, no, s1.(cur := mid));
      (c1 + [Mark(mid)] + c2, s2)
    case Binary(l, Or, rt) =>
      var mid := Lab(st.labels);
      var (c1, s1) := EmitCond(l, yes, mid, st.(labels := st.labels + 1));
      var (c2, s2) := EmitCond(rt, yes, no, s1.(cur := mid));
      (c1 + [Mark(mid)] + c2, s2)
    case Unary(Not, i) => EmitCond(i, no, yes, st)
    case _ =>
      var (c, r, s1) := EmitExpr(e, Val, st);
      (c + [CondBr(r, yes, no)], s1)
  }

  // Statements also say whether they ended the block. Jump targets are absent
  // outside loops.
  function EmitBlock(b: Block, brk: Option<Label>, cont: Option<Label>, st: Em): (r: (Code, Em, bool))
    ensures Later(st, r.1)
    decreases b, |b.stmts| + 1
  {
    EmitFrom(b, 0, brk, cont, st)
  }

  // Nothing is emitted after a statement that ends the block, nor for a
  // trailing expression.
  function EmitFrom(b: Block, i: nat, brk: Option<Label>, cont: Option<Label>, st: Em): (r: (Code, Em, bool))
    requires i <= |b.stmts|
    ensures Later(st, r.1)
    decreases b, |b.stmts| - i
  {
    if i == |b.stmts| then ([], st, false)
    else
      var (c1, s1, t1) := EmitStmt(b.stmts[i], brk, cont, st);
      if t1 then (c1, s1, true)
      else
        var (c2, s2, t2) := EmitFrom(b, i + 1, brk, cont, s1);
        (c1 + c2, s2, t2)
  }

  // A branch to `l` unless the block has already ended.
  function Close(ended: bool, l: Label): Code { if ended then [] else [Br(l)] }

  function EmitStmt(s: Stmt, brk: Option<Label>, cont: Option<Label>, st: Em): (r: (Code, Em, bool))
    ensures Later(st, r.1)
    decreases s, 1
  {
    match s
    case VarDecl(x, moves, init) =>
      var (c, r, s1) := EmitExpr(init, Val, st);
      (c + [Do(s1.regs, Declare(x, moves), [r])], s1.(regs := s1.regs + 1), false)
    case Assign(lv, value) => EmitAssign(lv, value, st)
    case CompoundAssign(lv, op, value) => EmitAssign(lv, Binary(lv.ToExpr(), op, value), st)
    case ExprStmt(e) =>
      var (c, _, s1) := EmitExpr(e, Val, st);
      (c, s1, false)
    case If(_, _, _) => EmitIf(s, brk, cont, st)
    case Loop(_) => EmitLoop(s, st)
    case While(_, _) => EmitWhile(s, st)
    case For(_, _, _, _, _, _) => EmitFor(s, st)
    case Match(_, _) => EmitMatch(s, brk, cont, st)
    case Return(None) => ([Ret(None)], st, true)
    case Return(Some(e)) =>
      var (c, r, s1) := EmitExpr(e, Val, st);
      (c + [Ret(Some(r))], s1, true)
    case Break => (match brk case None => [] case Some(l) => [Br(l)], st, true)
    case Continue => (match cont case None => [] case Some(l) => [Br(l)], st, true)
    case BlockStmt(b) => EmitBlock(b, brk, cont, st)
    case Claim(x, b) =>
      var (c, s1, t) := EmitBlock(b, brk, cont, st.(regs := st.regs + 1));
      ([Do(st.regs, Enter(x), [])] + c + [Do(s1.regs, Leave(x), [])], s1.(regs := s1.regs + 1), t)
  }

  function EmitAssign(lv: LValue, value: Expr, st: Em): (r: (Code, Em, bool))
    ensures Later(st, r.1)
  {
    var (c1, v, s1) := EmitExpr(value, Val, st);
    var (c2, ops, s2) := EmitTarget(TargetParts(lv), s1);
    (c1 + c2 + [Do(s2.regs, Store(lv), ops + [v])], s2.(regs := s2.regs + 1), false)
  }

  function EmitIf(s: Stmt, brk: Option<Label>, cont: Option<Label>, st: Em): (r: (Code, Em, bool))
    requires s.If?
    ensures Later(st, r.1)
    decreases s, 0
  {
    var (thn, els, end) := (Lab(st.labels), Lab(st.labels + 1), Lab(st.labels + 2));
    var (c0, s0) := EmitCond(s.cond, thn, els, st.(labels := st.labels + 3));
    var (c1, s1, t1) := EmitBlock(s.thn, brk, cont, s0.(cur := thn));
    var (c2, s2, t2) := EmitBlock(s.els, brk, cont, s1.(cur := els));
    (c0 + ([Mark(thn)] + c1 + Close(t1, end)) + ([Mark(els)] + c2 + Close(t2, end)) + [Mark(end)], s2.(cur := end), false)
  }

  function EmitLoop(s: Stmt, st: Em): (r: (Code, Em, bool))
    requires s.Loop?
    ensures Later(st, r.1)
    decreases s, 0
  {
    var (head, body, end) := (Lab(st.labels), Lab(st.labels + 1), Lab(st.labels + 2));
    var (c, s1, t) := EmitBlock(s.body, Some(end), Some(head), Em(st.regs, st.labels + 3, body));
    ([Br(head), Mark(head)] + [Br(body)] + ([Mark(body)] + c + Close(t, head)) + [Mark(end)], s1.(cur := end), false)
  }

  function EmitWhile(s: Stmt, st: Em): (r: (Code, Em, bool))
    requires s.While?
    ensures Later(st, r.1)
    decreases s, 0
  {
    var (head, body, end) := (Lab(st.labels), Lab(st.labels + 1), Lab(st.labels + 2));
    var (c0, s0) := EmitCond(s.cond, body, end, Em(st.regs, st.labels + 3, head));
    var (c, s1, t) := EmitBlock(s.body, Some(end), Some(head), s0.(cur := body));
    ([Br(head), Mark(head)] + c0 + ([Mark(body)] + c + Close(t, head)) + [Mark(end)], s1.(cur := end), false)
  }

  function EmitStep(step: Option<Expr>, st: Em): (r: (Code, Operand, Em))
    ensures Later(st, r.2) && (r.1.Reg? ==> r.1.r < r.2.regs)
  {
    match step
    case None => ([], Imm(1), st)
    case Some(e) => EmitExpr(e, Val, st)
  }

  // The bounds and the step are evaluated once, before the loop variable is
  // set. A missing step is the constant 1.
  function EmitForHead(s: Stmt, st: Em): (r: (Code, Operand, Operand, Em))
    requires s.For?
    ensures Later(st, r.3) && r.1.Reg? && r.1.r < r.3.regs && (r.2.Reg? ==> r.2.r < r.3.regs)
  {
    var (c1, a, s1) := EmitExpr(s.start, Val, st);
    var (c2, z, s2) := EmitExpr(s.end, Val, s1);
    var (c3, k, s3) := EmitStep(s.step, s2);
    (c1 + c2 + c3 + [Do(s3.regs, ForInit(s.v), [a])], z, k, s3.(regs := s3.regs + 1))
  }

  function EmitFor(s: Stmt, st: Em): (r: (Code, Em, bool))
    requires s.For?
    ensures Later(st, r.1)
    decreases s, 0
  {
    var (c0, z, k, s0) := EmitForHead(s, st);
    var (c1, s1) := EmitRounds(s, z, k, s0);
    (c0 + c1, s1, false)
  }

  function RoundTest(s: Stmt, z: Operand, dst: nat, body: Label, end: Label): Code
    requires s.For?
  {
    [Do(dst, ForMore(s.v, s.dir), [z]), CondBr(Reg(dst), body, end)]
  }

  function RoundStep(s: Stmt, k: Operand, dst: nat, head: Label): Code
    requires s.For?
  {
    [Do(dst, ForStep(s.v, s.dir), [k]), Br(head)]
  }

  // The rounds of a counted loop: test, body, step. `continue` goes to the step.
  function EmitRounds(s: Stmt, z: Operand, k: Operand, st: Em): (r: (Code, Em))
    requires s.For?
    ensures Later(st, r.1)
    decreases s, 0, 0
  {
    var (head, body, step, end) := (Lab(st.labels), Lab(st.labels + 1), Lab(st.labels + 2), Lab(st.labels + 3));
    var (c, s1, t) := EmitBlock(s.body, Some(end), Some(step), Em(st.regs + 1, st.labels + 4, body));
    ( ([Br(head), Mark(head)] + RoundTest(s, z, st.regs, body, end))
      + ([Mark(body)] + c + Close(t, step))
      + ([Mark(step)] + RoundStep(s, k, s1.regs, head))
      + [Mark(end)],
      Em(s1.regs + 1, s1.labels, end))
  }

  // The end label, one label per arm, then the dispatch, then the arms.
  function EmitMatch(s: Stmt, brk: Option<Label>, cont: Option<Label>, st: Em): (r: (Code, Em, bool))
    requires s.Match?
    ensures Later(st, r.1)
    decreases s, 0
  {
    var (c0, v, s0) := EmitExpr(s.scrutinee, Val, st);
    var end, arm0 := Lab(s0.labels), s0.labels + 1;
    var (c1, s1) := EmitDispatch(s.arms, v, arm0, end, s0.(labels := arm0 + |s.arms|));
    var (c2, s2) := EmitArms(s, 0, arm0, end, brk, cont, s1);
    (c0 + c1 + c2 + [Mark(end)], s2.(cur := end), false)
  }

  // One switch for a match on an enum, a chain of tests otherwise.
  function EmitDispatch(arms: seq<Arm>, v: Operand, arm0: nat, end: Label, st: Em): (r: (Code, Em))
    ensures Counters(st, r.1)
  {
    if OnEnum(arms) then ([Switch(v, CasesFrom(arms, 0, arm0), OtherFrom(arms, 0, arm0, end))], st) else EmitChain(arms, 0, v, arm0, end, st)
  }

  // The arms without `_`, wherever they stand.
  function CasesFrom(arms: seq<Arm>, i: nat, arm0: nat): seq<(seq<Pattern>, Label)>
    requires i <= |arms|
    decreases |arms| - i
  {
    if i == |arms| then []
    else (if PWild in arms[i].patterns then [] else [(arms[i].patterns, Lab(arm0 + i))]) + CasesFrom(arms, i + 1, arm0)
  }

  // The first `_` arm, or else the end.
  function OtherFrom(arms: seq<Arm>, i: nat, arm0: nat, end: Label): Label
    requires i <= |arms|
    decreases |arms| - i
  {
    if i == |arms| then end else if PWild in arms[i].patterns then Lab(arm0 + i) else OtherFrom(arms, i + 1, arm0, end)
  }

  // A `_` arm is taken without a test and ends the chain.
  function EmitChain(arms: seq<Arm>, i: nat, v: Operand, arm0: nat, end: Label, st: Em): (r: (Code, Em))
    requires i <= |arms|
    ensures Counters(st, r.1)
    decreases |arms| - i
  {
    if i == |arms| then ([Br(end)], st)
    else if PWild in arms[i].patterns then ([Br(Lab(arm0 + i))], st)
    else
      var next := Lab(st.labels);
      var (c, s1) := EmitChain(arms, i + 1, v, arm0, end, Em(st.regs + 1, st.labels + 1, next));
      ([Do(st.regs, Select(arms[i].patterns), [v]), CondBr(Reg(st.regs), Lab(arm0 + i), next), Mark(next)] + c, s1)
  }

  function EmitArms(s: Stmt, i: nat, arm0: nat, end: Label, brk: Option<Label>, cont: Option<Label>, st: Em): (r: (Code, Em))
    requires s.Match? && i <= |s.arms|
    ensures Counters(st, r.1)
    decreases s, 0, |s.arms| - i
  {
    if i == |s.arms| then ([], st)
    else
      var (c, s1, t) := EmitBlock(s.arms[i].body, brk, cont, st.(cur := Lab(arm0 + i)));
      var (cs, s2) := EmitArms(s, i + 1, arm0, end, brk, cont, s1);
      ([Mark(Lab(arm0 + i))] + c + Close(t, end) + cs, s2)
  }

  // A whole function: the entry block, and a plain return unless the body has
  // already ended its block.
  function EmitFunction(body: Block): Code {
    var (c, _, t) := EmitBlock(body, None, None, Em(0, 0, Entry));
    [Mark(Entry)] + c + (if t then [] else [Ret(None)])
  }
}
