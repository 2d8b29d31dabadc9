// The emitter itself: an object whose methods append lines and advance its
// counters. Every method is proved to append exactly the code the functions of
// `Emit` describe.
module Emitter {
  import opened Ast
  import opened Semantics
  import opened Ir
  import opened Emit

  lemma Appended(w: Code, a: Code, b: Code, c: Code, d: Code)
    ensures w + a + b + c + d == w + (a + b + c + d)
  {}

  class IrEmitter {
    var out: Code
    var counter: nat
    var labelCounter: nat
    var currentLabel: Label

    ghost function State(): Em
      reads this
    {
      Em(counter, labelCounter, currentLabel)
    }

    constructor ()
      ensures out == [] && State() == Em(0, 0, Entry)
    {
      out, counter, labelCounter, currentLabel := [], 0, 0, Entry;
    }

    method NextReg() returns (r: nat)
      modifies this`counter
      ensures r == old(counter) && counter == old(counter) + 1
    {
      r := counter;
      counter := counter + 1;
    }

    method NextLabel() returns (l: Label)
      modifies this`labelCounter
      ensures l == Lab(old(labelCounter)) && labelCounter == old(labelCounter) + 1
    {
      l := Lab(labelCounter);
      labelCounter := labelCounter + 1;
    }

    method Line(line: Line)
      modifies this`out
      ensures out == old(out) + [line]
    {
      out := out + [line];
    }

    method EmitLabel(l: Label)
      modifies this`out, this`currentLabel
      ensures out == old(out) + [Mark(l)] && currentLabel == l
    {
      Line(Mark(l));
      currentLabel := l;
    }

    // A fresh register holding the result of one action.
    method Action(a: Action, args: seq<Operand>) returns (r: Operand)
      modifies this`out, this`counter
      ensures out == old(out) + [Do(old(counter), a, args)] && counter == old(counter) + 1 && r == Reg(old(counter))
    {
      var dst := NextReg();
      Line(Do(dst, a, args));
      r := Reg(dst);
    }

    method EmitExpr(e: Expr, mode: Mode) returns (r: Operand)
      modifies this
      ensures out == old(out) + Emit.EmitExpr(e, mode, old(State())).0
      ensures r == Emit.EmitExpr(e, mode, old(State())).1
      ensures State() == Emit.EmitExpr(e, mode, old(State())).2
      decreases e, 1
    {
      if e.Ident? {
        r := Action(if mode == Val then Read(e.name) else Addr(e.name), []);
      } else if e.Group? {
        r := EmitExpr(e.inner, mode);
      } else if Logical(e) {
        r := EmitLogical(e);
      } else {
        r := EmitNode(e, mode);
      }
    }

    method EmitNode(e: Expr, mode: Mode) returns (r: Operand)
      requires !e.Ident? && !e.Group? && !Logical(e)
      modifies this
      ensures out == old(out) + Emit.EmitExpr(e, mode, old(State())).0
      ensures r == Emit.EmitExpr(e, mode, old(State())).1
      ensures State() == Emit.EmitExpr(e, mode, old(State())).2
      decreases e, 0
    {
      ghost var was := out;
      ghost var (c, ops1, s1) := Emit.EmitParts(e, Parts(e, mode), State());
      var ops := EmitParts(e, Parts(e, mode));
      assert out == was + c;
      r := Action(Node(e), ops);
      assert was + c + [Do(s1.regs, Node(e), ops)] == was + (c + [Do(s1.regs, Node(e), ops)]);
    }

    method EmitLogical(e: Expr) returns (r: Operand)
      requires Logical(e)
      modifies this
      ensures out == old(out) + Emit.EmitLogical(e, old(State())).0
      ensures r == Emit.EmitLogical(e, old(State())).1
      ensures State() == Emit.EmitLogical(e, old(State())).2
      decreases e, 0
    {
      ghost var was := out;
      var left := EmitExpr(e.left, Val);
      ghost var c1 := Emit.EmitExpr(e.left, Val, old(State())).0;
      var rhs := NextLabel();
      var end := NextLabel();
      var shortLabel := currentLabel;
      var br := if e.bop == And then CondBr(left, rhs, end) else CondBr(left, end, rhs);
      Line(br);
      EmitLabel(rhs);
      assert out == was + (c1 + [br, Mark(rhs)]);
      ghost var st := State();
      var right := EmitExpr(e.right, Val);
      ghost var c2 := Emit.EmitExpr(e.right, Val, st).0;
      assert out == was + (c1 + [br, Mark(rhs)] + c2);
      var rightLabel := currentLabel;
      Line(Br(end));
      EmitLabel(end);
      var dst := NextReg();
      Line(Phi(dst, Imm(if e.bop == And then 0 else 1), shortLabel, right, rightLabel));
      r := Reg(dst);
    }

    method EmitParts(whole: Expr, ps: seq<(Expr, Mode)>) returns (ops: seq<Operand>)
      requires forall p <- ps :: p.0 < whole
      modifies this
      ensures out == old(out) + Emit.EmitParts(whole, ps, old(State())).0
      ensures ops == Emit.EmitParts(whole, ps, old(State())).1
      ensures State() == Emit.EmitParts(whole, ps, old(State())).2
      decreases whole, 0, |ps|
    {
      if ps == [] {
        ops := [];
      } else {
        var op := EmitExpr(ps[0].0, ps[0].1);
        var rest := EmitParts(whole, ps[1..]);
        ops := [op] + rest;
      }
    }

    method EmitTarget(ps: seq<(Expr, Mode)>) returns (ops: seq<Operand>)
      modifies this
      ensures out == old(out) + Emit.EmitTarget(ps, old(State())).0
      ensures ops == Emit.EmitTarget(ps, old(State())).1
      ensures State() == Emit.EmitTarget(ps, old(State())).2
      decreases |ps|
    {
      if ps == [] {
        ops := [];
      } else {
        var op := EmitExpr(ps[0].0, ps[0].1);
        var rest := EmitTarget(ps[1..]);
        ops := [op] + rest;
      }
    }

    method EmitBranchCond(e: Expr, yes: Label, no: Label)
      modifies this
      ensures out == old(out) + EmitCond(e, yes, no, old(State())).0
      ensures State() == EmitCond(e, yes, no, old(State())).1
      decreases e
    {
      if e.Group? {
        EmitBranchCond(e.inner, yes, no);
      } else if e.Unary? && e.uop == Not {
        EmitBranchCond(e.operand, no, yes);
      } else if Logical(e) {
        EmitLogicalCond(e, yes, no);
      } else {
        var c := EmitExpr(e, Val);
        Line(CondBr(c, yes, no));
      }
    }

    method EmitLogicalCond(e: Expr, yes: Label, no: Label)
      requires Logical(e)
      modifies this
      ensures out == old(out) + EmitCond(e, yes, no, old(State())).0
      ensures State() == EmitCond(e, yes, no, old(State())).1
      decreases e, 0
    {
      ghost var was := out;
      var mid := NextLabel();
      ghost var st := State();
      if e.bop == And { EmitBranchCond(e.left, mid, no); } else { EmitBranchCond(e.left, yes, mid); }
      ghost var c1 := (if e.bop == And then EmitCond(e.left, mid, no, st) else EmitCond(e.left, yes, mid, st)).0;
      EmitLabel(mid);
      assert out == was + (c1 + [Mark(mid)]);
      EmitBranchCond(e.right, yes, no);
    }

    // Statements in order, until one ends the block.
    method EmitBlock(b: Block, brk: Option<Label>, cont: Option<Label>) returns (terminated: bool)
      modifies this
      ensures out == old(out) + Emit.EmitBlock(b, brk, cont, old(State())).0
      ensures State() == Emit.EmitBlock(b, brk, cont, old(State())).1
      ensures terminated == Emit.EmitBlock(b, brk, cont, old(State())).2
      decreases b, 1
    {
      terminated := false;
      var i := 0;
      ghost var whole := EmitFrom(b, 0, brk, cont, State());
      while i < |b.stmts| && !terminated
        invariant 0 <= i <= |b.stmts|
        invariant !terminated ==>
          var rest := EmitFrom(b, i, brk, cont, State());
          out + rest.0 == old(out) + whole.0 && rest.1 == whole.1 && rest.2 == whole.2
        invariant terminated ==> out == old(out) + whole.0 && State() == whole.1 && whole.2
      {
        ghost var was, st := out, State();
        terminated := EmitStmt(b.stmts[i], brk, cont);
        ghost var (c, s1, t) := Emit.EmitStmt(b.stmts[i], brk, cont, st);
        if !terminated {
          ghost var rest := EmitFrom(b, i + 1, brk, cont, s1).0;
          assert was + (c + rest) == (was + c) + rest;
        }
        i := i + 1;
      }
    }

    // A labelled block, closed by a branch unless it has already ended.
    method EmitLabelled(here: Label, b: Block, brk: Option<Label>, cont: Option<Label>, next: Label)
      modifies this
      ensures var (c, s1, t) := Emit.EmitBlock(b, brk, cont, old(State()).(cur := here));
        out == old(out) + ([Mark(here)] + c + Close(t, next)) && State() == s1
      decreases b, 2
    {
      EmitLabel(here);
      ghost var c := Emit.EmitBlock(b, brk, cont, State()).0;
      var terminated := EmitBlock(b, brk, cont);
      assert out == old(out) + ([Mark(here)] + c);
      if !terminated { Line(Br(next)); }
    }

    method EmitStmt(s: Stmt, brk: Option<Label>, cont: Option<Label>) returns (terminated: bool)
      modifies this
      ensures out == old(out) + Emit.EmitStmt(s, brk, cont, old(State())).0
      ensures State() == Emit.EmitStmt(s, brk, cont, old(State())).1
      ensures terminated == Emit.EmitStmt(s, brk, cont, old(State())).2
      decreases s, 1
    {
      match s
      case VarDecl(_, _, _) => terminated := EmitSimple(s);
      case Assign(_, _) => terminated := EmitSimple(s);
      case CompoundAssign(_, _, _) => terminated := EmitSimple(s);
      case ExprStmt(_) => terminated := EmitSimple(s);
      case Return(_) => terminated := EmitSimple(s);
      case If(_, _, _) => EmitIf(s, brk, cont); terminated := false;
      case Loop(_) => EmitLoop(s); terminated := false;
      case While(_, _) => EmitWhile(s); terminated := false;
      case For(_, _, _, _, _, _) => EmitFor(s); terminated := false;
      case Match(_, _) => EmitMatch(s, brk, cont); terminated := false;
      case Break =>
        if brk.Some? { Line(Br(brk.value)); }
        terminated := true;
      case Continue =>
        if cont.Some? { Line(Br(cont.value)); }
        terminated := true;
      case BlockStmt(b) => terminated := EmitBlock(b, brk, cont);
      case Claim(x, b) =>
        var enter := Action(Enter(x), []);
        terminated := EmitBlock(b, brk, cont);
        var leave := Action(Leave(x), []);
    }

    method EmitSimple(s: Stmt) returns (terminated: bool)
      requires s.VarDecl? || s.Assign? || s.CompoundAssign? || s.ExprStmt? || s.Return?
      modifies this
      ensures out == old(out) + Emit.EmitStmt(s, None, None, old(State())).0
      ensures State() == Emit.EmitStmt(s, None, None, old(State())).1
      ensures terminated == Emit.EmitStmt(s, None, None, old(State())).2
    {
      terminated := s.Return?;
      match s
      case VarDecl(x, moves, init) =>
        var v := EmitExpr(init, Val);
        var slot := Action(Declare(x, moves), [v]);
      case Assign(lv, value) => EmitAssign(lv, value);
      case CompoundAssign(lv, op, value) => EmitAssign(lv, Binary(lv.ToExpr(), op, value));
      case ExprStmt(e) => var v := EmitExpr(e, Val);
      case Return(None) => Line(Ret(None));
      case Return(Some(e)) =>
        var v := EmitExpr(e, Val);
        Line(Ret(Some(v)));
    }

    method EmitAssign(lv: LValue, value: Expr)
      modifies this
      ensures out == old(out) + Emit.EmitAssign(lv, value, old(State())).0
      ensures State() == Emit.EmitAssign(lv, value, old(State())).1
    {
      ghost var was, c1 := out, Emit.EmitExpr(value, Val, State()).0;
      var v := EmitExpr(value, Val);
      ghost var c2 := Emit.EmitTarget(TargetParts(lv), State()).0;
      var ops := EmitTarget(TargetParts(lv));
      ghost var line := Do(counter, Store(lv), ops + [v]);
      var stored := Action(Store(lv), ops + [v]);
      Appended(was, c1, c2, [line], []);
      assert c1 + c2 + [line] + [] == c1 + c2 + [line] && out + [] == out;
    }

    method EmitIf(s: Stmt, brk: Option<Label>, cont: Option<Label>)
      requires s.If?
      modifies this
      ensures out == old(out) + Emit.EmitIf(s, brk, cont, old(State())).0
      ensures State() == Emit.EmitIf(s, brk, cont, old(State())).1
      decreases s, 0
    {
      var thn := NextLabel();
      var els := NextLabel();
      var end := NextLabel();
      ghost var was, st0 := out, State();
      EmitBranchCond(s.cond, thn, els);
      ghost var (c0, s0) := EmitCond(s.cond, thn, els, st0);
      EmitLabelled(thn, s.thn, brk, cont, end);
      ghost var (c1, s1, t1) := Emit.EmitBlock(s.thn, brk, cont, s0.(cur := thn));
      ghost var b1 := [Mark(thn)] + c1 + Close(t1, end);
      EmitLabelled(els, s.els, brk, cont, end);
      ghost var (c2, s2, t2) := Emit.EmitBlock(s.els, brk, cont, s1.(cur := els));
      ghost var b2 := [Mark(els)] + c2 + Close(t2, end);
      EmitLabel(end);
      Appended(was, c0, b1, b2, [Mark(end)]);
    }

    method EmitLoop(s: Stmt)
      requires s.Loop?
      modifies this
      ensures out == old(out) + Emit.EmitLoop(s, old(State())).0
      ensures State() == Emit.EmitLoop(s, old(State())).1
      decreases s, 0
    {
      var head := NextLabel();
      var body := NextLabel();
      var end := NextLabel();
      Line(Br(head));
      EmitLabel(head);
      Line(Br(body));
      EmitLabelled(body, s.body, Some(end), Some(head), head);
      EmitLabel(end);
    }

    method EmitWhile(s: Stmt)
      requires s.While?
      modifies this
      ensures out == old(out) + Emit.EmitWhile(s, old(State())).0
      ensures State() == Emit.EmitWhile(s, old(State())).1
      decreases s, 0
    {
      var head := NextLabel();
      var body := NextLabel();
      var end := NextLabel();
      ghost var was := out;
      Line(Br(head));
      EmitLabel(head);
      ghost var (c0, s0) := EmitCond(s.cond, body, end, State());
      EmitBranchCond(s.cond, body, end);
      ghost var upto := out;
      assert upto == was + ([Br(head), Mark(head)] + c0);
      EmitLabelled(body, s.body, Some(end), Some(head), head);
      EmitLabel(end);
    }

    method EmitFor(s: Stmt)
      requires s.For?
      modifies this
      ensures out == old(out) + Emit.EmitFor(s, old(State())).0
      ensures State() == Emit.EmitFor(s, old(State())).1
      decreases s, 0
    {
      var bound, step := EmitForHead(s);
      EmitForRounds(s, bound, step);
    }

    method EmitForHead(s: Stmt) returns (z: Operand, k: Operand)
      requires s.For?
      modifies this
      ensures out == old(out) + Emit.EmitForHead(s, old(State())).0
      ensures z == Emit.EmitForHead(s, old(State())).1 && k == Emit.EmitForHead(s, old(State())).2
      ensures State() == Emit.EmitForHead(s, old(State())).3
    {
      var a := EmitExpr(s.start, Val);
      z := EmitExpr(s.end, Val);
      k := Imm(1);
      if s.step.Some? { k := EmitExpr(s.step.value, Val); }
      var init := Action(ForInit(s.v), [a]);
    }

    method EmitForRounds(s: Stmt, z: Operand, k: Operand)
      requires s.For?
      modifies this
      ensures out == old(out) + EmitRounds(s, z, k, old(State())).0
      ensures State() == EmitRounds(s, z, k, old(State())).1
      decreases s, 0, 0
    {
      var head := NextLabel();
      var body := NextLabel();
      var step := NextLabel();
      var end := NextLabel();
      ghost var was := out;
      EmitForTest(s, z, head, body, end);
      ghost var pre := [Br(head), Mark(head)] + RoundTest(s, z, old(counter), body, end);
      ghost var (c, s1, t) := Emit.EmitBlock(s.body, Some(end), Some(step), State().(cur := body));
      EmitLabelled(body, s.body, Some(end), Some(step), step);
      ghost var blk := [Mark(body)] + c + Close(t, step);
      ghost var mid := out;
      EmitLabel(step);
      var next := Action(ForStep(s.v, s.dir), [k]);
      Line(Br(head));
      ghost var post := [Mark(step)] + RoundStep(s, k, s1.regs, head);
      assert out == mid + post;
      EmitLabel(end);
      Appended(was, pre, blk, post, [Mark(end)]);
    }

    method EmitForTest(s: Stmt, z: Operand, head: Label, body: Label, end: Label)
      requires s.For?
      modifies this
      ensures out == old(out) + ([Br(head), Mark(head)] + RoundTest(s, z, old(counter), body, end))
      ensures State() == Em(old(counter) + 1, old(labelCounter), head)
    {
      Line(Br(head));
      EmitLabel(head);
      var more := Action(ForMore(s.v, s.dir), [z]);
      Line(CondBr(more, body, end));
    }

    method EmitMatch(s: Stmt, brk: Option<Label>, cont: Option<Label>)
      requires s.Match?
      modifies this
      ensures out == old(out) + Emit.EmitMatch(s, brk, cont, old(State())).0
      ensures State() == Emit.EmitMatch(s, brk, cont, old(State())).1
      decreases s, 0
    {
      var v := EmitExpr(s.scrutinee, Val);
      var end := NextLabel();
      var arm0 := labelCounter;
      labelCounter := labelCounter + |s.arms|;
      ghost var c0 := Emit.EmitExpr(s.scrutinee, Val, old(State())).0;
      ghost var c1 := EmitDispatch(s.arms, v, arm0, end, State()).0;
      EmitMatchDispatch(s.arms, v, arm0, end);
      ghost var c2 := EmitArms(s, 0, arm0, end, brk, cont, State()).0;
      EmitMatchArms(s, 0, arm0, end, brk, cont);
      EmitLabel(end);
      Appended(old(out), c0, c1, c2, [Mark(end)]);
    }

    method EmitMatchDispatch(arms: seq<Arm>, v: Operand, arm0: nat, end: Label)
      modifies this
      ensures out == old(out) + EmitDispatch(arms, v, arm0, end, old(State())).0
      ensures State() == EmitDispatch(arms, v, arm0, end, old(State())).1
    {
      if OnEnum(arms) { EmitSwitch(arms, v, arm0, end); } else { EmitMatchChain(arms, 0, v, arm0, end); }
    }

    // The first `_` arm is the default; the others are cases in their order.
    method EmitSwitch(arms: seq<Arm>, v: Operand, arm0: nat, end: Label)
      modifies this
      ensures out == old(out) + [Switch(v, CasesFrom(arms, 0, arm0), OtherFrom(arms, 0, arm0, end))]
      ensures State() == old(State())
    {
      var other := end;
      var found := false;
      var cases: seq<(seq<Pattern>, Label)> := [];
      for i := 0 to |arms|
        invariant cases + CasesFrom(arms, i, arm0) == CasesFrom(arms, 0, arm0)
        invariant OtherFrom(arms, 0, arm0, end) == if found then other else OtherFrom(arms, i, arm0, end)
        invariant !found ==> other == end
      {
        if PWild in arms[i].patterns {
          if !found { other, found := Lab(arm0 + i), true; }
        } else {
          cases := cases + [(arms[i].patterns, Lab(arm0 + i))];
        }
      }
      assert cases + [] == cases;
      Line(Switch(v, cases, other));
    }

    method EmitMatchChain(arms: seq<Arm>, i: nat, v: Operand, arm0: nat, end: Label)
      requires i <= |arms|
      modifies this
      ensures out == old(out) + EmitChain(arms, i, v, arm0, end, old(State())).0
      ensures State() == EmitChain(arms, i, v, arm0, end, old(State())).1
      decreases |arms| - i
    {
      if i == |arms| {
        Line(Br(end));
      } else if PWild in arms[i].patterns {
        Line(Br(Lab(arm0 + i)));
      } else {
        var hit := Action(Select(arms[i].patterns), [v]);
        var next := NextLabel();
        Line(CondBr(hit, Lab(arm0 + i), next));
        EmitLabel(next);
        EmitMatchChain(arms, i + 1, v, arm0, end);
      }
    }

    method EmitMatchArms(s: Stmt, i: nat, arm0: nat, end: Label, brk: Option<Label>, cont: Option<Label>)
      requires s.Match? && i <= |s.arms|
      modifies this
      ensures out == old(out) + EmitArms(s, i, arm0, end, brk, cont, old(State())).0
      ensures State() == EmitArms(s, i, arm0, end, brk, cont, old(State())).1
      decreases s, 0, |s.arms| - i
    {
      if i < |s.arms| {
        EmitLabelled(Lab(arm0 + i), s.arms[i].body, brk, cont, end);
        EmitMatchArms(s, i + 1, arm0, end, brk, cont);
      }
    }

    // A whole function, into an emitter that has just been reset.
    method EmitFunctionBody(body: Block)
      requires out == [] && State() == Em(0, 0, Entry)
      modifies this
      ensures out == EmitFunction(body)
    {
      EmitLabel(Entry);
      var terminated := EmitBlock(body, None, None);
      if !terminated { Line(Ret(None)); }
    }
  }
}
