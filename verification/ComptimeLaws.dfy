// An answer does not depend on spare fuel or on consts that are learned later,
// and a computed constant can be written back as a literal.
module ComptimeLaws {
  import opened Ast
  import opened ConstEval
  import opened Comptime

  // The same functions, and at least the same consts.
  ghost predicate Extends(c: Env, d: Env) {
    c.fns == d.fns && forall x <- c.consts :: x in d.consts && d.consts[x] == c.consts[x]
  }

  lemma {:induction false} EvalStable(c: Env, d: Env, e: Expr, l: Locals, f: nat, g: nat)
    requires Extends(c, d) && f <= g && Eval(c, e, l, f).Got?
    ensures Eval(d, e, l, g) == Eval(c, e, l, f)
    decreases f, e, 0
  {
    match e
    case Group(i) => EvalStable(c, d, i, l, f, g);
    case Cast(i, _) => EvalStable(c, d, i, l, f, g);
    case Unary(_, i) => EvalStable(c, d, i, l, f, g);
    case Binary(_, _, _) => PairStable(c, d, e, e.left, e.right, l, f, g);
    case Index(_, _) => PairStable(c, d, e, e.base, e.idx, l, f, g);
    case ArrayInit(es) => AllStable(c, d, es, l, f, g);
    case Call(_, _) => CallExprStable(c, d, e, l, f, g);
    case _ =>
  }

  lemma {:induction false} PairStable(c: Env, d: Env, e: Expr, x: Expr, y: Expr, l: Locals, f: nat, g: nat)
    requires (e.Binary? && x == e.left && y == e.right) || (e.Index? && x == e.base && y == e.idx)
    requires Extends(c, d) && f <= g && Eval(c, e, l, f).Got?
    ensures Eval(d, e, l, g) == Eval(c, e, l, f)
    decreases f, e, -1
  {
    EvalStable(c, d, x, l, f, g);
    EvalStable(c, d, y, l, f, g);
  }

  lemma {:induction false} CallExprStable(c: Env, d: Env, e: Expr, l: Locals, f: nat, g: nat)
    requires e.Call? && Extends(c, d) && f <= g && Eval(c, e, l, f).Got?
    ensures Eval(d, e, l, g) == Eval(c, e, l, f)
    decreases f, e, -1
  {
    AllStable(c, d, e.args, l, f, g);
    CallStable(c, d, c.fns[e.callee.name], EvalAll(c, e.args, l, f).value, f - 1, g - 1);
  }

  lemma {:induction false} AllStable(c: Env, d: Env, es: seq<Expr>, l: Locals, f: nat, g: nat)
    requires Extends(c, d) && f <= g && EvalAll(c, es, l, f).Got?
    ensures EvalAll(d, es, l, g) == EvalAll(c, es, l, f)
    decreases f, es
  {
    if es != [] {
      EvalStable(c, d, es[0], l, f, g);
      AllStable(c, d, es[1..], l, f, g);
    }
  }

  lemma {:induction false} CallStable(c: Env, d: Env, fn: Function, args: seq<Value>, f: nat, g: nat)
    requires Extends(c, d) && f <= g && CallFn(c, fn, args, f).Got?
    ensures CallFn(d, fn, args, g) == CallFn(c, fn, args, f)
    decreases f
  {
    var l := Bound(fn.params, args, |args|);
    BlockStable(c, d, fn.body, 0, l, f, g);
    var a := ExecBlock(c, fn.body, 0, l, f).value;
    if a.0 == Normal { EvalStable(c, d, fn.body.trailing.value, a.1, f, g); }
  }

  lemma {:induction false} BlockStable(c: Env, d: Env, b: Block, i: nat, l: Locals, f: nat, g: nat)
    requires Extends(c, d) && f <= g && i <= |b.stmts| && ExecBlock(c, b, i, l, f).Got?
    ensures ExecBlock(d, b, i, l, g) == ExecBlock(c, b, i, l, f)
    decreases f, b, |b.stmts| - i
  {
    if i < |b.stmts| {
      StmtStable(c, d, b.stmts[i], l, f, g);
      var a := ExecStmt(c, b.stmts[i], l, f).value;
      if a.0 == Normal { BlockStable(c, d, b, i + 1, a.1, f, g); }
    }
  }

  lemma {:induction false} StmtStable(c: Env, d: Env, s: Stmt, l: Locals, f: nat, g: nat)
    requires Extends(c, d) && f <= g && ExecStmt(c, s, l, f).Got?
    ensures ExecStmt(d, s, l, g) == ExecStmt(c, s, l, f)
    decreases f, s, 2
  {
    match s
    case VarDecl(_, _, init) => EvalStable(c, d, init, l, f, g);
    case Assign(lv, v) =>
      EvalStable(c, d, v, l, f, g);
      StoreStable(c, d, lv, Eval(c, v, l, f).value, l, f, g);
    case CompoundAssign(_, _, _) => CompoundStable(c, d, s, l, f, g);
    case If(cond, t, e) =>
      EvalStable(c, d, cond, l, f, g);
      BlockStable(c, d, if AsBool(Eval(c, cond, l, f).value).value then t else e, 0, l, f, g);
    case While(_, _) => LoopStable(c, d, s, l, f, g);
    case Loop(_) => LoopStable(c, d, s, l, f, g);
    case For(_, _, _, _, _, _) => ForStable(c, d, s, l, f, g);
    case Return(e) => if e.Some? { EvalStable(c, d, e.value, l, f, g); }
    case BlockStmt(b) => BlockStable(c, d, b, 0, l, f, g);
    case _ =>
  }

  lemma {:induction false} CompoundStable(c: Env, d: Env, s: Stmt, l: Locals, f: nat, g: nat)
    requires s.CompoundAssign? && Extends(c, d) && f <= g && ExecStmt(c, s, l, f).Got?
    ensures ExecStmt(d, s, l, g) == ExecStmt(c, s, l, f)
    decreases f, s, 1
  {
    ReadStable(c, d, s.target, l, f, g);
    EvalStable(c, d, s.value, l, f, g);
    StoreStable(c, d, s.target, BinopValues(s.op, ReadLValue(c, s.target, l, f).value, Eval(c, s.value, l, f).value).value, l, f, g);
  }

  lemma {:induction false} TestStable(c: Env, d: Env, s: Stmt, l: Locals, f: nat, g: nat)
    requires (s.While? || s.Loop?) && Extends(c, d) && f <= g && LoopTest(c, s, l, f).Got?
    ensures LoopTest(d, s, l, g) == LoopTest(c, s, l, f)
    decreases f, s, 0
  {
    if s.While? { EvalStable(c, d, s.cond, l, f, g); }
  }

  lemma {:induction false} LoopStable(c: Env, d: Env, s: Stmt, l: Locals, f: nat, g: nat)
    requires (s.While? || s.Loop?) && Extends(c, d) && f <= g && ExecLoop(c, s, l, f).Got?
    ensures ExecLoop(d, s, l, g) == ExecLoop(c, s, l, f)
    decreases f, s, 0
  {
    LoopIsRounds(c, s, l, f - 1);
    LoopIsRounds(d, s, l, g - 1);
    RoundStable(c, d, s, l, f - 1, g - 1);
    var r := Round(c, s, l, f - 1).value;
    if r.0.None? { LoopStable(c, d, s, r.1, f - 1, g - 1); }
  }

  lemma {:induction false} RoundStable(c: Env, d: Env, s: Stmt, l: Locals, f: nat, g: nat)
    requires (s.While? || s.Loop?) && Extends(c, d) && f <= g && Round(c, s, l, f).Got?
    ensures Round(d, s, l, g) == Round(c, s, l, f)
    decreases f, s, 1
  {
    TestStable(c, d, s, l, f, g);
    if LoopTest(c, s, l, f).value { BlockStable(c, d, s.body, 0, l, f, g); }
  }

  lemma {:induction false} ForStable(c: Env, d: Env, s: Stmt, l: Locals, f: nat, g: nat)
    requires s.For? && Extends(c, d) && f <= g && ExecStmt(c, s, l, f).Got?
    ensures ExecStmt(d, s, l, g) == ExecStmt(c, s, l, f)
    decreases f, s, 1
  {
    IntStable(c, d, s.start, l, f, g);
    IntStable(c, d, s.end, l, f, g);
    if s.step.Some? { IntStable(c, d, s.step.value, l, f, g); }
    var k := if s.step == None then Got(1, 0, 0) else EvalInt(c, s.step.value, l, f);
    RoundsStable(c, d, s, EvalInt(c, s.start, l, f).value, EvalInt(c, s.end, l, f).value, k.value, l, f, g);
  }

  lemma {:induction false} RoundsStable(c: Env, d: Env, s: Stmt, i: int, end: int, step: int, l: Locals, f: nat, g: nat)
    requires s.For? && Extends(c, d) && f <= g && ExecFor(c, s, i, end, step, l, f).Got?
    ensures ExecFor(d, s, i, end, step, l, g) == ExecFor(c, s, i, end, step, l, f)
    decreases f, s, 0
  {
    if (if s.dir == Upto then i < end else i > end) {
      var l1 := l[s.v := Scalar(Int(i))];
      BlockStable(c, d, s.body, 0, l1, f - 1, g - 1);
      var b := ExecBlock(c, s.body, 0, l1, f - 1).value;
      if Ends(b.0).None? { RoundsStable(c, d, s, if s.dir == Upto then i + step else i - step, end, step, b.1, f - 1, g - 1); }
    }
  }

  lemma {:induction false} StoreStable(c: Env, d: Env, lv: LValue, v: Value, l: Locals, f: nat, g: nat)
    requires Extends(c, d) && f <= g && Store(c, lv, v, l, f).Got?
    ensures Store(d, lv, v, l, g) == Store(c, lv, v, l, f)
    decreases f, lv, 2
  {
    if lv.LIndex? { PathStable(c, d, lv, l, f, g); }
  }

  lemma {:induction false} IntStable(c: Env, d: Env, e: Expr, l: Locals, f: nat, g: nat)
    requires Extends(c, d) && f <= g && EvalInt(c, e, l, f).Got?
    ensures EvalInt(d, e, l, g) == EvalInt(c, e, l, f)
    decreases f, e, 1
  {
    EvalStable(c, d, e, l, f, g);
  }

  lemma {:induction false} IndexStable(c: Env, d: Env, e: Expr, l: Locals, f: nat, g: nat)
    requires Extends(c, d) && f <= g && EvalIndex(c, e, l, f).Got?
    ensures EvalIndex(d, e, l, g) == EvalIndex(c, e, l, f)
    decreases f, e, 2
  {
    assert EvalInt(c, e, l, f).Got?;
    IntStable(c, d, e, l, f, g);
  }

  lemma {:induction false} PathStable(c: Env, d: Env, lv: LValue, l: Locals, f: nat, g: nat)
    requires Extends(c, d) && f <= g && IndexPath(c, lv, l, f).Got?
    ensures IndexPath(d, lv, l, g) == IndexPath(c, lv, l, f)
    decreases f, lv, 1
  {
    if lv.LIndex? {
      IndexStable(c, d, lv.idx, l, f, g);
      PathStable(c, d, lv.lbase, l, f, g);
    }
  }

  lemma {:induction false} ReadStable(c: Env, d: Env, lv: LValue, l: Locals, f: nat, g: nat)
    requires Extends(c, d) && f <= g && ReadLValue(c, lv, l, f).Got?
    ensures ReadLValue(d, lv, l, g) == ReadLValue(c, lv, l, f)
    decreases f, lv, 1
  {
    if lv.LIndex? {
      IndexStable(c, d, lv.idx, l, f, g);
      ReadStable(c, d, lv.lbase, l, f, g);
    }
  }

  // --- writing a value back ---

  const U64: int := 0x1_0000_0000_0000_0000

  // The literal for a value. Magnitudes go through a 64-bit field.
  function ToExpr(v: Value): Expr {
    match v
    case Scalar(Int(n)) => if n < 0 then Unary(Neg, IntLit((-n) % U64)) else IntLit(n % U64)
    case Scalar(Bool(b)) => BoolLit(b)
    case Array(es) => ArrayInit(seq(|es|, i requires 0 <= i < |es| => ToExpr(es[i])))
  }

  // Every integer in it has a magnitude below 2^64.
  predicate Small(v: Value) {
    match v
    case Scalar(Int(n)) => -U64 < n < U64
    case Scalar(Bool(_)) => true
    case Array(es) => forall e <- es :: Small(e)
  }

  // What the literal costs to evaluate.
  function LiteralSteps(v: Value): nat
    decreases v, 0
  {
    match v
    case Scalar(Int(n)) => if n < 0 then 2 else 1
    case Scalar(Bool(_)) => 1
    case Array(es) => 1 + AllSteps(v, |es|)
  }

  function AllSteps(v: Value, i: nat): nat
    requires v.Array? && i <= |v.elems|
    decreases v, -1, i
  {
    if i == 0 then 0 else AllSteps(v, i - 1) + LiteralSteps(v.elems[i - 1])
  }

  // The value the literal denotes.
  function Reread(v: Value): Value {
    match v
    case Scalar(Int(n)) => Scalar(Int(if n < 0 then -((-n) % U64) else n % U64))
    case Scalar(Bool(_)) => v
    case Array(es) => Array(seq(|es|, i requires 0 <= i < |es| => Reread(es[i])))
  }

  lemma {:induction false} LiteralEvaluates(c: Env, v: Value, l: Locals, fuel: nat)
    ensures Eval(c, ToExpr(v), l, fuel) == Got(Reread(v), LiteralSteps(v), 0)
    decreases v, 0
  {
    match v
    case Scalar(Int(n)) =>
      if n < 0 {
        var m := (-n) % U64;
        assert Eval(c, IntLit(m), l, fuel) == Got(Scalar(Int(m)), 1, 0);
        assert Fits(-m);
        assert UnopValue(Neg, Scalar(Int(m))) == Some(Scalar(Int(-m)));
      }
    case Scalar(Bool(_)) =>
    case Array(es) =>
      var xs := seq(|es|, i requires 0 <= i < |es| => ToExpr(es[i]));
      assert xs[0..] == xs;
      LiteralsEvaluate(c, v, 0, l, fuel);
      assert ToExpr(v) == ArrayInit(xs);
      var a := EvalAll(c, xs, l, fuel);
      assert Array(a.value) == Reread(v);
      StepsSum(v, 0);
  }

  function TailSteps(v: Value, i: nat): nat
    requires v.Array? && i <= |v.elems|
    decreases |v.elems| - i
  {
    if i == |v.elems| then 0 else LiteralSteps(v.elems[i]) + TailSteps(v, i + 1)
  }

  lemma {:induction false} StepsSum(v: Value, i: nat)
    requires v.Array? && i <= |v.elems|
    ensures AllSteps(v, |v.elems|) == AllSteps(v, i) + TailSteps(v, i)
    decreases |v.elems| - i
  {
    if i < |v.elems| { StepsSum(v, i + 1); }
  }

  lemma {:induction false} LiteralsEvaluate(c: Env, v: Value, i: nat, l: Locals, fuel: nat)
    requires v.Array? && i <= |v.elems|
    ensures
      var es := v.elems;
      var xs := seq(|es|, j requires 0 <= j < |es| => ToExpr(es[j]));
      var ys := seq(|es|, j requires 0 <= j < |es| => Reread(es[j]));
      EvalAll(c, xs[i..], l, fuel) == Got(ys[i..], TailSteps(v, i), 0)
    decreases v, -1, |v.elems| - i
  {
    var es := v.elems;
    var xs := seq(|es|, j requires 0 <= j < |es| => ToExpr(es[j]));
    var ys := seq(|es|, j requires 0 <= j < |es| => Reread(es[j]));
    if i == |es| {
      assert xs[i..] == [] && ys[i..] == [];
    } else {
      LiteralEvaluates(c, es[i], l, fuel);
      LiteralsEvaluate(c, v, i + 1, l, fuel);
      AllFrom(c, xs[i..], l, fuel, Reread(es[i]), LiteralSteps(es[i]), ys[i + 1..], TailSteps(v, i + 1));
      assert ys[i..] == [ys[i]] + ys[i + 1..];
    }
  }

  // A list answers when its head and its tail do.
  lemma AllFrom(c: Env, es: seq<Expr>, l: Locals, fuel: nat, x: Value, n: nat, xs: seq<Value>, m: nat)
    requires es != [] && Eval(c, es[0], l, fuel) == Got(x, n, 0) && EvalAll(c, es[1..], l, fuel) == Got(xs, m, 0)
    ensures EvalAll(c, es, l, fuel) == Got([x] + xs, n + m, 0)
  {}

  lemma {:induction false} RereadExactly(v: Value)
    ensures Reread(v) == v <==> Small(v)
    decreases v
  {
    if v.Array? {
      var (es, r) := (v.elems, Reread(v).elems);
      forall i | 0 <= i < |es| ensures r[i] == es[i] <==> Small(es[i]) { RereadExactly(es[i]); }
      if r == es { forall e | e in es ensures Small(e) { var i :| 0 <= i < |es| && es[i] == e; } }
    }
  }

  // The literal written for a value evaluates back to it exactly when every
  // integer in it, at any depth, has a magnitude below 2^64.
  lemma {:induction false} LiteralRoundTrip(c: Env, v: Value, l: Locals, fuel: nat)
    ensures Eval(c, ToExpr(v), l, fuel).Got?
    ensures Eval(c, ToExpr(v), l, fuel).value == v <==> Small(v)
  {
    LiteralEvaluates(c, v, l, fuel);
    RereadExactly(v);
  }
}
