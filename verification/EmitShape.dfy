// Static structure of the emitted code: every label is defined once, and every
// block ends in exactly one terminator.
module EmitShape {
  import opened Ast
  import opened ControlFlow
  import opened Semantics
  import opened Ir
  import opened Emit

  // Code emitted between two emitter states, into an open block: it defines
  // only labels handed out in between, each once, and leaves the block open or
  // ended as said.
  ghost predicate Owned(code: Code, a: Em, b: Em, open: bool, l: Label) {
    Count(code, l) <= Quota(l, a.labels, b.labels) && Shape(code, true) == Some(open)
  }

  // Pieces compose: counts add up, and the shape of the second piece starts
  // where the first ends.
  ghost predicate Piece(code: Code, n: nat, from: bool, to: bool, l: Label) {
    Count(code, l) <= n && Shape(code, from) == Some(to)
  }

  lemma Glue(a: Code, m: nat, b: Code, n: nat, from: bool, via: bool, to: bool, l: Label)
    requires Piece(a, m, from, via, l) && Piece(b, n, via, to, l)
    ensures Piece(a + b, m + n, from, to, l)
  {
    CountConcat(a, b, l);
    ShapeConcat(a, b, from);
  }

  lemma GlueFour(a: Code, i: nat, b: Code, j: nat, c: Code, m: nat, d: Code, n: nat, to1: bool, to2: bool, to3: bool, l: Label)
    requires Piece(a, i, true, to1, l) && Piece(b, j, to1, to2, l) && Piece(c, m, to2, to3, l) && Piece(d, n, to3, true, l)
    ensures Piece(a + b + c + d, i + j + m + n, true, true, l)
  {
    Glue(a, i, b, j, true, to1, to2, l);
    Glue(a + b, i + j, c, m, true, to2, to3, l);
    Glue(a + b + c, i + j + m, d, n, true, to3, true, l);
  }

  // A jump and the label of the next block.
  lemma JumpMark(jump: Line, x: Label, l: Label)
    requires jump.Br? || jump.CondBr?
    ensures Piece([jump, Mark(x)], One(Mark(x), l), true, true, l)
  {
    Pair(jump, Mark(x), l, true);
    Single(jump, l, true);
    Single(Mark(x), l, false);
  }

  lemma {:induction false} ExprShape(e: Expr, mode: Mode, st: Em, l: Label)
    ensures var (c, r, s1) := EmitExpr(e, mode, st); Owned(c, st, s1, true, l)
    decreases e, 1
  {
    if e.Ident? {
      Single(Do(st.regs, if mode == Val then Read(e.name) else Addr(e.name), []), l, true);
    } else if e.Group? {
      ExprShape(e.inner, mode, st, l);
    } else if Logical(e) {
      LogicalShape(e, st, l);
    } else {
      NodeShape(e, mode, st, l);
    }
  }

  lemma {:induction false} NodeShape(e: Expr, mode: Mode, st: Em, l: Label)
    requires !e.Ident? && !e.Group? && !Logical(e)
    ensures var (c, r, s1) := EmitExpr(e, mode, st); Owned(c, st, s1, true, l)
    decreases e, 0, |Parts(e, mode)| + 1
  {
    PartsShape(e, Parts(e, mode), st, l);
    var (c, ops, s1) := EmitParts(e, Parts(e, mode), st);
    ThenLine(c, Do(s1.regs, Node(e), ops), st, s1, l);
    assert EmitExpr(e, mode, st).0 == c + [Do(s1.regs, Node(e), ops)];
  }

  lemma {:induction false} LogicalShape(e: Expr, st: Em, l: Label)
    requires Logical(e)
    ensures var (c, r, s1) := EmitLogical(e, st); Owned(c, st, s1, true, l)
    decreases e, 0
  {
    ExprShape(e.left, Val, st, l);
    var (c1, r1, s1) := EmitExpr(e.left, Val, st);
    var (rhs, end) := (Lab(s1.labels), Lab(s1.labels + 1));
    var st2 := Em(s1.regs, s1.labels + 2, rhs);
    ExprShape(e.right, Val, st2, l);
    var (c2, r2, s2) := EmitExpr(e.right, Val, st2);
    var br := if e.bop == And then CondBr(r1, rhs, end) else CondBr(r1, end, rhs);
    var phi := Phi(s2.regs, Imm(if e.bop == And then 0 else 1), s1.cur, r2, s2.cur);
    JumpMark(br, rhs, l);
    JumpMark(Br(end), end, l);
    Single(phi, l, true);
    assert [Br(end), Mark(end), phi] == [Br(end), Mark(end)] + [phi];
    Glue([Br(end), Mark(end)], One(Mark(end), l), [phi], 0, true, true, true, l);
    GlueFour(c1, Quota(l, st.labels, s1.labels), [br, Mark(rhs)], One(Mark(rhs), l), c2, Quota(l, st2.labels, s2.labels),
             [Br(end), Mark(end), phi], One(Mark(end), l), true, true, true, l);
  }

  lemma {:induction false} PartsShape(whole: Expr, ps: seq<(Expr, Mode)>, st: Em, l: Label)
    requires forall p <- ps :: p.0 < whole
    ensures var (c, rs, s1) := EmitParts(whole, ps, st); Owned(c, st, s1, true, l)
    decreases whole, 0, |ps|
  {
    if ps != [] {
      ExprShape(ps[0].0, ps[0].1, st, l);
      var (c1, r1, s1) := EmitExpr(ps[0].0, ps[0].1, st);
      PartsShape(whole, ps[1..], s1, l);
      var (c2, rs, s2) := EmitParts(whole, ps[1..], s1);
      CountConcat(c1, c2, l);
      ShapeConcat(c1, c2, true);
    }
  }

  lemma {:induction false} TargetShape(ps: seq<(Expr, Mode)>, st: Em, l: Label)
    ensures var (c, rs, s1) := EmitTarget(ps, st); Owned(c, st, s1, true, l)
    decreases |ps|
  {
    if ps != [] {
      ExprShape(ps[0].0, ps[0].1, st, l);
      var (c1, r1, s1) := EmitExpr(ps[0].0, ps[0].1, st);
      TargetShape(ps[1..], s1, l);
      var (c2, rs, s2) := EmitTarget(ps[1..], s1);
      CountConcat(c1, c2, l);
      ShapeConcat(c1, c2, true);
    }
  }

  // One more line after code that leaves the block open.
  lemma ThenLine(c: Code, line: Line, a: Em, b: Em, l: Label)
    requires Owned(c, a, b, true, l) && !line.Mark?
    ensures Owned(c + [line], a, b, !Terminator(line), l)
  {
    CountConcat(c, [line], l);
    ShapeConcat(c, [line], true);
  }

  lemma {:induction false} CondShape(e: Expr, yes: Label, no: Label, st: Em, l: Label)
    ensures var (c, s1) := EmitCond(e, yes, no, st); Owned(c, st, s1, false, l)
    decreases e, 1
  {
    if e.Group? {
      CondShape(e.inner, yes, no, st, l);
    } else if e.Unary? && e.uop == Not {
      CondShape(e.operand, no, yes, st, l);
    } else if Logical(e) {
      LogicalCondShape(e, yes, no, st, l);
    } else {
      ExprShape(e, Val, st, l);
      var (c, r, s1) := EmitExpr(e, Val, st);
      ThenLine(c, CondBr(r, yes, no), st, s1, l);
    }
  }

  lemma {:induction false} LogicalCondShape(e: Expr, yes: Label, no: Label, st: Em, l: Label)
    requires Logical(e)
    ensures var (c, s1) := EmitCond(e, yes, no, st); Owned(c, st, s1, false, l)
    decreases e, 0
  {
    var mid := Lab(st.labels);
    var st1 := st.(labels := st.labels + 1);
    var (ya, na) := if e.bop == And then (mid, no) else (yes, mid);
    CondShape(e.left, ya, na, st1, l);
    var (c1, s1) := EmitCond(e.left, ya, na, st1);
    CondShape(e.right, yes, no, s1.(cur := mid), l);
    var (c2, s2) := EmitCond(e.right, yes, no, s1.(cur := mid));
    Single(Mark(mid), l, false);
    var q1, n, q2 := Quota(l, st1.labels, s1.labels), One(Mark(mid), l), Quota(l, s1.labels, s2.labels);
    Glue(c1, q1, [Mark(mid)], n, true, false, true, l);
    Glue(c1 + [Mark(mid)], q1 + n, c2, q2, true, true, false, l);
  }

  // --- statements ---

  lemma OnlyJumpsEndBlocks(s: Stmt, brk: Option<Label>, cont: Option<Label>, st: Em)
    requires !s.Return? && !s.Break? && !s.Continue? && !s.BlockStmt? && !s.Claim?
    ensures !EmitStmt(s, brk, cont, st).2
  {
    match s
    case VarDecl(_, _, _) =>
    case Assign(_, _) =>
    case CompoundAssign(_, _, _) =>
    case ExprStmt(_) =>
    case If(_, _, _) =>
    case Loop(_) =>
    case While(_, _) =>
    case For(_, _, _, _, _, _) =>
    case Match(_, _) =>
  }

  // An accepted window body never ends the block it starts in, so the closing
  // half of the window is emitted into an open block.
  lemma {:induction false} ClaimBodyStaysOpen(b: Block, i: nat, brk: Option<Label>, cont: Option<Label>, st: Em)
    requires i <= |b.stmts| && ClaimOkBlock(b, 0)
    ensures !EmitFrom(b, i, brk, cont, st).2
    decreases b, |b.stmts| - i
  {
    if i < |b.stmts| {
      var s := b.stmts[i];
      assert ClaimOkStmt(s, 0);
      match s {
        case BlockStmt(inner) =>
          ClaimBodyStaysOpen(inner, 0, brk, cont, st);
          assert EmitStmt(s, brk, cont, st) == EmitBlock(inner, brk, cont, st);
        case Claim(_, inner) =>
          ClaimBodyStaysOpen(inner, 0, brk, cont, st.(regs := st.regs + 1));
          assert EmitStmt(s, brk, cont, st).2 == EmitBlock(inner, brk, cont, st.(regs := st.regs + 1)).2;
        case _ => OnlyJumpsEndBlocks(s, brk, cont, st);
      }
      assert !EmitStmt(s, brk, cont, st).2;
      ClaimBodyStaysOpen(b, i + 1, brk, cont, EmitStmt(s, brk, cont, st).1);
    }
  }

  // Jumps only where targets exist, and every claim body checked.
  predicate Lowerable(b: Block, inLoop: bool) { JumpsInLoopsBlock(b, inLoop) && ClaimsCheckedBlock(b) }

  predicate LowerableStmt(s: Stmt, inLoop: bool) { JumpsInLoopsStmt(s, inLoop) && ClaimsCheckedStmt(s) }

  lemma {:induction false} BlockShape(b: Block, brk: Option<Label>, cont: Option<Label>, st: Em, l: Label)
    requires brk.Some? == cont.Some? && Lowerable(b, brk.Some?)
    ensures var (c, s1, t) := EmitBlock(b, brk, cont, st); Owned(c, st, s1, !t, l)
    decreases b, |b.stmts| + 1
  {
    FromShape(b, 0, brk, cont, st, l);
  }

  lemma {:induction false} FromShape(b: Block, i: nat, brk: Option<Label>, cont: Option<Label>, st: Em, l: Label)
    requires i <= |b.stmts| && brk.Some? == cont.Some? && Lowerable(b, brk.Some?)
    ensures var (c, s1, t) := EmitFrom(b, i, brk, cont, st); Owned(c, st, s1, !t, l)
    decreases b, |b.stmts| - i
  {
    if i < |b.stmts| {
      StmtShape(b.stmts[i], brk, cont, st, l);
      var (c1, s1, t1) := EmitStmt(b.stmts[i], brk, cont, st);
      if !t1 {
        FromShape(b, i + 1, brk, cont, s1, l);
        var (c2, s2, t2) := EmitFrom(b, i + 1, brk, cont, s1);
        Glue(c1, Quota(l, st.labels, s1.labels), c2, Quota(l, s1.labels, s2.labels), true, true, !t2, l);
      }
    }
  }

  // A labelled block with body `c`, closed by a branch if it is still open.
  lemma Labelled(c: Code, a: Em, b: Em, ended: bool, here: Label, target: Label, l: Label)
    requires Owned(c, a, b, !ended, l)
    ensures Piece([Mark(here)] + c + Close(ended, target), One(Mark(here), l) + Quota(l, a.labels, b.labels), false, false, l)
  {
    var q := Quota(l, a.labels, b.labels);
    Single(Mark(here), l, false);
    Glue([Mark(here)], One(Mark(here), l), c, q, false, true, !ended, l);
    if ended {
      assert [Mark(here)] + c + [] == [Mark(here)] + c;
    } else {
      Single(Br(target), l, true);
      Glue([Mark(here)] + c, One(Mark(here), l) + q, [Br(target)], 0, false, true, false, l);
    }
  }

  lemma {:induction false} StmtShape(s: Stmt, brk: Option<Label>, cont: Option<Label>, st: Em, l: Label)
    requires brk.Some? == cont.Some? && LowerableStmt(s, brk.Some?)
    ensures var (c, s1, t) := EmitStmt(s, brk, cont, st); Owned(c, st, s1, !t, l)
    decreases s, 1
  {
    match s
    case If(_, _, _) => IfShape(s, brk, cont, st, l);
    case Loop(_) => LoopShape(s, st, l);
    case While(_, _) => WhileShape(s, st, l);
    case For(_, _, _, _, _, _) => ForShape(s, st, l);
    case Match(_, _) => MatchShape(s, brk, cont, st, l);
    case Break => Single(Br(brk.value), l, true);
    case Continue => Single(Br(cont.value), l, true);
    case BlockStmt(b) => BlockShape(b, brk, cont, st, l);
    case Claim(_, _) => ClaimShape(s, brk, cont, st, l);
    case _ => SimpleShape(s, brk, cont, st, l);
  }

  lemma {:induction false} SimpleShape(s: Stmt, brk: Option<Label>, cont: Option<Label>, st: Em, l: Label)
    requires s.VarDecl? || s.Assign? || s.CompoundAssign? || s.ExprStmt? || s.Return?
    ensures var (c, s1, t) := EmitStmt(s, brk, cont, st); Owned(c, st, s1, !t, l)
  {
    match s
    case VarDecl(x, moves, init) =>
      ExprShape(init, Val, st, l);
      var (c, r, s1) := EmitExpr(init, Val, st);
      ThenLine(c, Do(s1.regs, Declare(x, moves), [r]), st, s1, l);
    case Assign(lv, value) => AssignShape(lv, value, st, l);
    case CompoundAssign(lv, op, value) => AssignShape(lv, Binary(lv.ToExpr(), op, value), st, l);
    case ExprStmt(e) => ExprShape(e, Val, st, l);
    case Return(None) => Single(Ret(None), l, true);
    case Return(Some(e)) =>
      ExprShape(e, Val, st, l);
      var (c, r, s1) := EmitExpr(e, Val, st);
      ThenLine(c, Ret(Some(r)), st, s1, l);
  }

  lemma {:induction false} AssignShape(lv: LValue, value: Expr, st: Em, l: Label)
    ensures var (c, s1, t) := EmitAssign(lv, value, st); !t && Owned(c, st, s1, true, l)
  {
    ExprShape(value, Val, st, l);
    var (c1, v, s1) := EmitExpr(value, Val, st);
    TargetShape(TargetParts(lv), s1, l);
    var (c2, ops, s2) := EmitTarget(TargetParts(lv), s1);
    Glue(c1, Quota(l, st.labels, s1.labels), c2, Quota(l, s1.labels, s2.labels), true, true, true, l);
    ThenLine(c1 + c2, Do(s2.regs, Store(lv), ops + [v]), st, s2, l);
  }

  lemma {:induction false} IfShape(s: Stmt, brk: Option<Label>, cont: Option<Label>, st: Em, l: Label)
    requires s.If? && brk.Some? == cont.Some? && LowerableStmt(s, brk.Some?)
    ensures var (c, s1, t) := EmitIf(s, brk, cont, st); Owned(c, st, s1, !t, l)
    decreases s, 0
  {
    var (thn, els, end) := (Lab(st.labels), Lab(st.labels + 1), Lab(st.labels + 2));
    var st0 := st.(labels := st.labels + 3);
    CondShape(s.cond, thn, els, st0, l);
    var (c0, s0) := EmitCond(s.cond, thn, els, st0);
    BlockShape(s.thn, brk, cont, s0.(cur := thn), l);
    var (c1, s1, t1) := EmitBlock(s.thn, brk, cont, s0.(cur := thn));
    BlockShape(s.els, brk, cont, s1.(cur := els), l);
    var (c2, s2, t2) := EmitBlock(s.els, brk, cont, s1.(cur := els));
    Labelled(c1, s0.(cur := thn), s1, t1, thn, end, l);
    Labelled(c2, s1.(cur := els), s2, t2, els, end, l);
    Single(Mark(end), l, false);
    var b1, b2 := [Mark(thn)] + c1 + Close(t1, end), [Mark(els)] + c2 + Close(t2, end);
    var q0 := Quota(l, st0.labels, s0.labels);
    var q1 := One(Mark(thn), l) + Quota(l, s0.labels, s1.labels);
    var q2 := One(Mark(els), l) + Quota(l, s1.labels, s2.labels);
    GlueFour(c0, q0, b1, q1, b2, q2, [Mark(end)], One(Mark(end), l), false, false, false, l);
  }

  lemma {:induction false} LoopShape(s: Stmt, st: Em, l: Label)
    requires s.Loop? && LowerableStmt(s, true)
    ensures var (c, s1, t) := EmitLoop(s, st); Owned(c, st, s1, !t, l)
    decreases s, 0
  {
    var (head, body, end) := (Lab(st.labels), Lab(st.labels + 1), Lab(st.labels + 2));
    var st1 := Em(st.regs, st.labels + 3, body);
    BlockShape(s.body, Some(end), Some(head), st1, l);
    var (c, s1, t) := EmitBlock(s.body, Some(end), Some(head), st1);
    Labelled(c, st1, s1, t, body, head, l);
    JumpMark(Br(head), head, l);
    Single(Br(body), l, true);
    Single(Mark(end), l, false);
    var blk := [Mark(body)] + c + Close(t, head);
    var n, q := One(Mark(head), l), One(Mark(body), l) + Quota(l, st1.labels, s1.labels);
    Glue([Br(head), Mark(head)], n, [Br(body)], 0, true, true, false, l);
    Glue([Br(head), Mark(head)] + [Br(body)], n, blk, q, true, false, false, l);
    Glue([Br(head), Mark(head)] + [Br(body)] + blk, n + q, [Mark(end)], One(Mark(end), l), true, false, true, l);
  }

  lemma {:induction false} WhileShape(s: Stmt, st: Em, l: Label)
    requires s.While? && LowerableStmt(s, true)
    ensures var (c, s1, t) := EmitWhile(s, st); Owned(c, st, s1, !t, l)
    decreases s, 0
  {
    var (head, body, end) := (Lab(st.labels), Lab(st.labels + 1), Lab(st.labels + 2));
    var st0 := Em(st.regs, st.labels + 3, head);
    CondShape(s.cond, body, end, st0, l);
    var (c0, s0) := EmitCond(s.cond, body, end, st0);
    var st1 := s0.(cur := body);
    BlockShape(s.body, Some(end), Some(head), st1, l);
    var (c, s1, t) := EmitBlock(s.body, Some(end), Some(head), st1);
    Labelled(c, st1, s1, t, body, head, l);
    JumpMark(Br(head), head, l);
    Single(Mark(end), l, false);
    var blk := [Mark(body)] + c + Close(t, head);
    var n, q0 := One(Mark(head), l), Quota(l, st0.labels, s0.labels);
    var q := One(Mark(body), l) + Quota(l, s0.labels, s1.labels);
    Glue([Br(head), Mark(head)], n, c0, q0, true, true, false, l);
    Glue([Br(head), Mark(head)] + c0, n + q0, blk, q, true, false, false, l);
    Glue([Br(head), Mark(head)] + c0 + blk, n + q0 + q, [Mark(end)], One(Mark(end), l), true, false, true, l);
  }

  lemma {:induction false} ForHeadShape(s: Stmt, st: Em, l: Label)
    requires s.For?
    ensures var (c, z, k, s1) := EmitForHead(s, st); Owned(c, st, s1, true, l)
  {
    ExprShape(s.start, Val, st, l);
    var (c1, a, s1) := EmitExpr(s.start, Val, st);
    ExprShape(s.end, Val, s1, l);
    var (c2, z, s2) := EmitExpr(s.end, Val, s1);
    if s.step.Some? { ExprShape(s.step.value, Val, s2, l); }
    var (c3, k, s3) := EmitStep(s.step, s2);
    Glue(c1, Quota(l, st.labels, s1.labels), c2, Quota(l, s1.labels, s2.labels), true, true, true, l);
    Glue(c1 + c2, Quota(l, st.labels, s2.labels), c3, Quota(l, s2.labels, s3.labels), true, true, true, l);
    ThenLine(c1 + c2 + c3, Do(s3.regs, ForInit(s.v), [a]), st, s3, l);
  }

  lemma {:induction false} ForShape(s: Stmt, st: Em, l: Label)
    requires s.For? && LowerableStmt(s, true)
    ensures var (c, s1, t) := EmitFor(s, st); Owned(c, st, s1, !t, l)
    decreases s, 0
  {
    ForHeadShape(s, st, l);
    var (c0, z, k, s0) := EmitForHead(s, st);
    RoundsShape(s, z, k, s0, l);
    var (c1, s1) := EmitRounds(s, z, k, s0);
    Glue(c0, Quota(l, st.labels, s0.labels), c1, Quota(l, s0.labels, s1.labels), true, true, true, l);
  }

  lemma {:induction false} RoundsShape(s: Stmt, z: Operand, k: Operand, st: Em, l: Label)
    requires s.For? && LowerableStmt(s, true)
    ensures var (c, s1) := EmitRounds(s, z, k, st); Owned(c, st, s1, true, l)
    decreases s, 0, 0
  {
    var (head, body, step, end) := (Lab(st.labels), Lab(st.labels + 1), Lab(st.labels + 2), Lab(st.labels + 3));
    var st1 := Em(st.regs + 1, st.labels + 4, body);
    BlockShape(s.body, Some(end), Some(step), st1, l);
    var (c, s1, t) := EmitBlock(s.body, Some(end), Some(step), st1);
    Labelled(c, st1, s1, t, body, step, l);
    var test, br := Do(st.regs, ForMore(s.v, s.dir), [z]), CondBr(Reg(st.regs), body, end);
    var inc := Do(s1.regs, ForStep(s.v, s.dir), [k]);
    var pre, blk, post := [Br(head), Mark(head)] + [test, br], [Mark(body)] + c + Close(t, step), [Mark(step)] + [inc, Br(head)];
    ForFrame(head, step, end, test, br, inc, l);
    var n1, q := One(Mark(head), l), One(Mark(body), l) + Quota(l, st1.labels, s1.labels);
    Glue(pre, n1, blk, q, true, false, false, l);
    Glue(pre + blk, n1 + q, post, One(Mark(step), l), true, false, false, l);
    Glue(pre + blk + post, n1 + q + One(Mark(step), l), [Mark(end)], One(Mark(end), l), true, false, true, l);
  }

  lemma ForFrame(head: Label, step: Label, end: Label, test: Line, br: Line, inc: Line, l: Label)
    requires test.Do? && br.CondBr? && inc.Do?
    ensures Piece([Br(head), Mark(head)] + [test, br], One(Mark(head), l), true, false, l)
    ensures Piece([Mark(step)] + [inc, Br(head)], One(Mark(step), l), false, false, l)
    ensures Piece([Mark(end)], One(Mark(end), l), false, true, l)
  {
    JumpMark(Br(head), head, l);
    Pair(test, br, l, true);
    Single(test, l, true);
    Single(br, l, true);
    Glue([Br(head), Mark(head)], One(Mark(head), l), [test, br], 0, true, true, false, l);
    Single(Mark(step), l, false);
    Pair(inc, Br(head), l, true);
    Single(inc, l, true);
    Glue([Mark(step)], One(Mark(step), l), [inc, Br(head)], 0, false, true, false, l);
    Single(Mark(end), l, false);
  }

  lemma {:induction false} ClaimShape(s: Stmt, brk: Option<Label>, cont: Option<Label>, st: Em, l: Label)
    requires s.Claim? && brk.Some? == cont.Some? && LowerableStmt(s, brk.Some?)
    ensures var (c, s1, t) := EmitStmt(s, brk, cont, st); Owned(c, st, s1, !t, l)
    decreases s, 0
  {
    var st1 := st.(regs := st.regs + 1);
    BlockShape(s.body, brk, cont, st1, l);
    ClaimBodyStaysOpen(s.body, 0, brk, cont, st1);
    var (c, s1, t) := EmitBlock(s.body, brk, cont, st1);
    var enter, leave := Do(st.regs, Enter(s.name), []), Do(s1.regs, Leave(s.name), []);
    Single(enter, l, true);
    Glue([enter], 0, c, Quota(l, st.labels, s1.labels), true, true, true, l);
    ThenLine([enter] + c, leave, st, s1, l);
  }

  lemma {:induction false} ChainShape(arms: seq<Arm>, i: nat, v: Operand, arm0: nat, end: Label, st: Em, l: Label)
    requires i <= |arms|
    ensures var (c, s1) := EmitChain(arms, i, v, arm0, end, st); Owned(c, st, s1, false, l)
    decreases |arms| - i
  {
    if i == |arms| {
      Single(Br(end), l, true);
    } else if PWild in arms[i].patterns {
      Single(Br(Lab(arm0 + i)), l, true);
    } else {
      var next := Lab(st.labels);
      var st1 := Em(st.regs + 1, st.labels + 1, next);
      ChainShape(arms, i + 1, v, arm0, end, st1, l);
      var (c, s1) := EmitChain(arms, i + 1, v, arm0, end, st1);
      var test, br := Do(st.regs, Select(arms[i].patterns), [v]), CondBr(Reg(st.regs), Lab(arm0 + i), next);
      Triple(test, br, Mark(next), l, true);
      Pair(test, br, l, true);
      Single(test, l, true);
      Single(br, l, true);
      Single(Mark(next), l, false);
      Glue([test, br, Mark(next)], One(Mark(next), l), c, Quota(l, st1.labels, s1.labels), true, true, false, l);
    }
  }

  lemma DispatchShape(arms: seq<Arm>, v: Operand, arm0: nat, end: Label, st: Em, l: Label)
    ensures var (c, s1) := EmitDispatch(arms, v, arm0, end, st); Owned(c, st, s1, false, l)
  {
    if OnEnum(arms) {
      Single(Switch(v, CasesFrom(arms, 0, arm0), OtherFrom(arms, 0, arm0, end)), l, true);
    } else {
      ChainShape(arms, 0, v, arm0, end, st, l);
    }
  }

  lemma {:induction false} ArmsShape(s: Stmt, i: nat, arm0: nat, end: Label, brk: Option<Label>, cont: Option<Label>, st: Em, l: Label)
    requires s.Match? && i <= |s.arms| && brk.Some? == cont.Some? && LowerableStmt(s, brk.Some?)
    ensures var (c, s1) := EmitArms(s, i, arm0, end, brk, cont, st);
      Piece(c, Quota(l, arm0 + i, arm0 + |s.arms|) + Quota(l, st.labels, s1.labels), false, false, l)
    decreases s, 0, |s.arms| - i
  {
    if i < |s.arms| {
      var here := Lab(arm0 + i);
      assert s.arms[i] in s.arms;
      BlockShape(s.arms[i].body, brk, cont, st.(cur := here), l);
      var (c, s1, t) := EmitBlock(s.arms[i].body, brk, cont, st.(cur := here));
      Labelled(c, st.(cur := here), s1, t, here, end, l);
      assert Quota(l, arm0 + i, arm0 + |s.arms|) == One(Mark(here), l) + Quota(l, arm0 + i + 1, arm0 + |s.arms|);
      ArmsShape(s, i + 1, arm0, end, brk, cont, s1, l);
      var (cs, s2) := EmitArms(s, i + 1, arm0, end, brk, cont, s1);
      Glue([Mark(here)] + c + Close(t, end), One(Mark(here), l) + Quota(l, st.labels, s1.labels),
           cs, Quota(l, arm0 + i + 1, arm0 + |s.arms|) + Quota(l, s1.labels, s2.labels), false, false, false, l);
    }
  }

  lemma {:induction false} MatchShape(s: Stmt, brk: Option<Label>, cont: Option<Label>, st: Em, l: Label)
    requires s.Match? && brk.Some? == cont.Some? && LowerableStmt(s, brk.Some?)
    ensures var (c, s1, t) := EmitMatch(s, brk, cont, st); Owned(c, st, s1, !t, l)
    decreases s, 0, |s.arms| + 1
  {
    ExprShape(s.scrutinee, Val, st, l);
    var (c0, v, s0) := EmitExpr(s.scrutinee, Val, st);
    var end, arm0 := Lab(s0.labels), s0.labels + 1;
    var st1 := s0.(labels := arm0 + |s.arms|);
    DispatchShape(s.arms, v, arm0, end, st1, l);
    var (c1, s1) := EmitDispatch(s.arms, v, arm0, end, st1);
    ArmsShape(s, 0, arm0, end, brk, cont, s1, l);
    var (c2, s2) := EmitArms(s, 0, arm0, end, brk, cont, s1);
    Single(Mark(end), l, false);
    var q0, q1 := Quota(l, st.labels, s0.labels), Quota(l, st1.labels, s1.labels);
    var q2 := Quota(l, arm0, arm0 + |s.arms|) + Quota(l, s1.labels, s2.labels);
    Glue(c0, q0, c1, q1, true, true, false, l);
    Glue(c0 + c1, q0 + q1, c2, q2, true, false, false, l);
    Glue(c0 + c1 + c2, q0 + q1 + q2, [Mark(end)], One(Mark(end), l), true, false, true, l);
  }

  // Every label of a lowered function is defined once, and its lines fall into
  // blocks that start with a label and end in exactly one terminator.
  lemma {:induction false} FunctionIsWellFormed(body: Block)
    requires Lowerable(body, false)
    ensures Unique(EmitFunction(body))
    ensures Shape(EmitFunction(body), false) == Some(false)
  {
    var st := Em(0, 0, Entry);
    var (c, s1, t) := EmitBlock(body, None, None, st);
    forall l ensures Count(EmitFunction(body), l) <= 1 && Shape(EmitFunction(body), false) == Some(false) {
      BlockShape(body, None, None, st, l);
      Single(Mark(Entry), l, false);
      var n, q := One(Mark(Entry), l), Quota(l, 0, s1.labels);
      Glue([Mark(Entry)], n, c, q, false, true, !t, l);
      if t {
        assert EmitFunction(body) == [Mark(Entry)] + c;
      } else {
        Single(Ret(None), l, true);
        Glue([Mark(Entry)] + c, n + q, [Ret(None)], 0, false, true, false, l);
      }
    }
    UniqueByCount(EmitFunction(body));
    assert Count(EmitFunction(body), Entry) <= 1;
  }
}
