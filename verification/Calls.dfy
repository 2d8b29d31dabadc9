// Which functions a run calls: those its body mentions, and pointers only where
// the body calls one. On a consistent call graph every one of them can run in the
// caller's context.
module Calls {
  import opened Ast
  import opened Contexts
  import opened Semantics
  import opened Ceilings
  import opened Sections

  // The direct calls are of known functions out of `named`; there is a call
  // through a pointer only if `ptr`.
  ghost predicate Among(t: Target, es: seq<Event>, named: set<string>, ptr: bool) {
    forall e <- es :: (e.CallFn? ==> e.f in named && e.f in t.fns) && (e.CallPtr? ==> ptr)
  }

  // A piece of code that mentions names out of `named`, and calls through a
  // pointer only if `ptr`.
  ghost predicate Allows(named: set<string>, ptr: bool, names: set<string>, indirect: bool) {
    names <= named && (indirect ==> ptr)
  }

  // --- expressions ---

  lemma ActionCalls<D>(base: Act<D>, t: Target, ctx: Context, a: Action, vs: seq<int>, s: Traced<D>, named: set<string>, ptr: bool)
    requires Among(t, s.trace, named, ptr)
    requires a.Node? && a.e.Call? ==> if DirectCall(a.e, t.fns) then a.e.callee.name in named else ptr
    ensures Among(t, Tracing(base, t, ctx)(a, vs, s).1.trace, named, ptr)
  {
    var s1 := Tracing(base, t, ctx)(a, vs, s).1;
    assert s1.trace == s.trace + t.Events(ctx, a, s.depth);
  }

  lemma {:induction false} PartIndirect(e: Expr, mode: Mode, fns: set<string>)
    ensures forall p <- Parts(e, mode) :: Indirect(p.0, fns) ==> Indirect(e, fns)
  {}

  lemma {:induction false} EvalCalls<D>(base: Act<D>, t: Target, ctx: Context, e: Expr, mode: Mode, s: Traced<D>, named: set<string>, ptr: bool)
    requires Among(t, s.trace, named, ptr) && Allows(named, ptr, Names(e), Indirect(e, t.fns))
    ensures Among(t, Eval(Tracing(base, t, ctx), e, mode, s).1.trace, named, ptr)
    decreases e, 1
  {
    var act := Tracing(base, t, ctx);
    if e.Ident? {
      ActionCalls(base, t, ctx, if mode == Val then Read(e.name) else Addr(e.name), [], s, named, ptr);
    } else if e.Group? {
      EvalCalls(base, t, ctx, e.inner, mode, s, named, ptr);
    } else if Logical(e) {
      EvalCalls(base, t, ctx, e.left, Val, s, named, ptr);
      EvalCalls(base, t, ctx, e.right, Val, Eval(act, e.left, Val, s).1, named, ptr);
    } else {
      PartNames(e, mode);
      PartIndirect(e, mode, t.fns);
      PartsCalls(base, t, ctx, e, Parts(e, mode), s, named, ptr);
      var (vs, s1) := EvalParts(act, e, Parts(e, mode), s);
      ActionCalls(base, t, ctx, Node(e), vs, s1, named, ptr);
    }
  }

  lemma {:induction false} PartsCalls<D>(base: Act<D>, t: Target, ctx: Context, whole: Expr, ps: seq<(Expr, Mode)>, s: Traced<D>, named: set<string>, ptr: bool)
    requires Among(t, s.trace, named, ptr) && forall p <- ps :: p.0 < whole && Allows(named, ptr, Names(p.0), Indirect(p.0, t.fns))
    ensures Among(t, EvalParts(Tracing(base, t, ctx), whole, ps, s).1.trace, named, ptr)
    decreases whole, 0, |ps|
  {
    if ps != [] {
      EvalCalls(base, t, ctx, ps[0].0, ps[0].1, s, named, ptr);
      PartsCalls(base, t, ctx, whole, ps[1..], Eval(Tracing(base, t, ctx), ps[0].0, ps[0].1, s).1, named, ptr);
    }
  }

  lemma {:induction false} PlacesCall<D>(base: Act<D>, t: Target, ctx: Context, ps: seq<(Expr, Mode)>, s: Traced<D>, named: set<string>, ptr: bool)
    requires Among(t, s.trace, named, ptr) && forall p <- ps :: Allows(named, ptr, Names(p.0), Indirect(p.0, t.fns))
    ensures Among(t, EvalTarget(Tracing(base, t, ctx), ps, s).1.trace, named, ptr)
    decreases |ps|
  {
    if ps != [] {
      EvalCalls(base, t, ctx, ps[0].0, ps[0].1, s, named, ptr);
      PlacesCall(base, t, ctx, ps[1..], Eval(Tracing(base, t, ctx), ps[0].0, ps[0].1, s).1, named, ptr);
    }
  }

  lemma OptCalls<D>(base: Act<D>, t: Target, ctx: Context, e: Option<Expr>, s: Traced<D>, named: set<string>, ptr: bool)
    requires Among(t, s.trace, named, ptr) && Allows(named, ptr, OptNames(e), OptIndirect(e, t.fns))
    ensures Among(t, EvalOpt(Tracing(base, t, ctx), e, s).trace, named, ptr) && Among(t, EvalStep(Tracing(base, t, ctx), e, s).1.trace, named, ptr)
  {
    if e.Some? { EvalCalls(base, t, ctx, e.value, Val, s, named, ptr); }
  }

  lemma {:induction false} ToExprIndirect(lv: LValue, fns: set<string>)
    ensures Indirect(lv.ToExpr(), fns) == LIndirect(lv, fns)
    decreases lv
  {
    match lv
    case LField(b, _) => ToExprIndirect(b, fns);
    case LIndex(b, _) => ToExprIndirect(b, fns);
    case _ =>
  }

  lemma AssignCalls<D>(base: Act<D>, t: Target, ctx: Context, lv: LValue, value: Expr, s: Traced<D>, named: set<string>, ptr: bool)
    requires Among(t, s.trace, named, ptr)
    requires Allows(named, ptr, LNames(lv), LIndirect(lv, t.fns)) && Allows(named, ptr, Names(value), Indirect(value, t.fns))
    ensures Among(t, ExecAssign(Tracing(base, t, ctx), lv, value, s).1.trace, named, ptr)
  {
    var (act, ps) := (Tracing(base, t, ctx), TargetParts(lv));
    EvalCalls(base, t, ctx, value, Val, s, named, ptr);
    var (v, s1) := Eval(act, value, Val, s);
    TargetPartNames(lv);
    forall p | p in ps ensures Allows(named, ptr, Names(p.0), Indirect(p.0, t.fns)) {
      if lv.LField? || lv.LIndex? { ToExprIndirect(lv.lbase, t.fns); }
    }
    PlacesCall(base, t, ctx, ps, s1, named, ptr);
    var (vs, s2) := EvalTarget(act, ps, s1);
    ActionCalls(base, t, ctx, Store(lv), vs + [v], s2, named, ptr);
  }

  // --- statements ---

  lemma {:induction false} StmtNamesAt(b: Block, n: nat, i: nat)
    requires i < n <= |b.stmts|
    ensures StmtNames(b.stmts[i]) <= NamesUpTo(b, n)
    decreases n
  {
    if i < n - 1 { StmtNamesAt(b, n - 1, i); }
  }

  lemma {:induction false} ArmNamesAt(s: Stmt, n: nat, i: nat)
    requires s.Match? && i < n <= |s.arms|
    ensures BlockNames(s.arms[i].body) <= ArmNames(s, n)
    decreases n
  {
    if i < n - 1 { ArmNamesAt(s, n - 1, i); }
  }

  ghost predicate AllowsBlock(t: Target, named: set<string>, ptr: bool, b: Block) { Allows(named, ptr, BlockNames(b), BlockIndirect(b, t.fns)) }

  ghost predicate AllowsStmt(t: Target, named: set<string>, ptr: bool, s: Stmt) { Allows(named, ptr, StmtNames(s), StmtIndirect(s, t.fns)) }

  lemma {:induction false} FromCalls<D>(base: Act<D>, t: Target, ctx: Context, b: Block, i: nat, s: Traced<D>, fuel: nat, named: set<string>, ptr: bool)
    requires i <= |b.stmts| && Among(t, s.trace, named, ptr) && AllowsBlock(t, named, ptr, b)
    ensures Among(t, ExecFrom(Tracing(base, t, ctx), b, i, s, fuel).1.trace, named, ptr)
    decreases fuel, b, |b.stmts| - i
  {
    if i == |b.stmts| {
      OptCalls(base, t, ctx, b.trailing, s, named, ptr);
    } else {
      StmtNamesAt(b, |b.stmts|, i);
      assert b.stmts[i] in b.stmts;
      StmtCalls(base, t, ctx, b.stmts[i], s, fuel, named, ptr);
      var (o, s1) := ExecStmt(Tracing(base, t, ctx), b.stmts[i], s, fuel);
      if o == Normal { FromCalls(base, t, ctx, b, i + 1, s1, fuel, named, ptr); }
    }
  }

  lemma {:induction false} BlockCalls<D>(base: Act<D>, t: Target, ctx: Context, b: Block, s: Traced<D>, fuel: nat, named: set<string>, ptr: bool)
    requires Among(t, s.trace, named, ptr) && AllowsBlock(t, named, ptr, b)
    ensures Among(t, ExecBlock(Tracing(base, t, ctx), b, s, fuel).1.trace, named, ptr)
    decreases fuel, b, |b.stmts| + 1
  {
    FromCalls(base, t, ctx, b, 0, s, fuel, named, ptr);
  }

  lemma {:induction false} StmtCalls<D>(base: Act<D>, t: Target, ctx: Context, st: Stmt, s: Traced<D>, fuel: nat, named: set<string>, ptr: bool)
    requires Among(t, s.trace, named, ptr) && AllowsStmt(t, named, ptr, st)
    ensures Among(t, ExecStmt(Tracing(base, t, ctx), st, s, fuel).1.trace, named, ptr)
    decreases fuel, st, 2
  {
    var act := Tracing(base, t, ctx);
    match st
    case If(c, a, b) =>
      EvalCalls(base, t, ctx, c, Val, s, named, ptr);
      var (v, s1) := Eval(act, c, Val, s);
      BlockCalls(base, t, ctx, if v != 0 then a else b, s1, fuel, named, ptr);
    case Loop(_) => LoopCalls(base, t, ctx, st, s, fuel, named, ptr);
    case While(_, _) => LoopCalls(base, t, ctx, st, s, fuel, named, ptr);
    case For(_, _, _, _, _, _) => ForStartCalls(base, t, ctx, st, s, fuel, named, ptr);
    case Match(e, arms) =>
      EvalCalls(base, t, ctx, e, Val, s, named, ptr);
      var (v, s1) := Eval(act, e, Val, s);
      ArmsCalls(base, t, ctx, st, 0, v, s1, fuel, named, ptr);
    case BlockStmt(b) => BlockCalls(base, t, ctx, b, s, fuel, named, ptr);
    case Claim(x, b) =>
      ActionCalls(base, t, ctx, Enter(x), [], s, named, ptr);
      var s1 := act(Enter(x), [], s).1;
      BlockCalls(base, t, ctx, b, s1, fuel, named, ptr);
      ActionCalls(base, t, ctx, Leave(x), [], ExecBlock(act, b, s1, fuel).1, named, ptr);
    case Break =>
    case Continue =>
    case _ => SimpleCalls(base, t, ctx, st, s, fuel, named, ptr);
  }

  lemma {:induction false} SimpleCalls<D>(base: Act<D>, t: Target, ctx: Context, st: Stmt, s: Traced<D>, fuel: nat, named: set<string>, ptr: bool)
    requires st.VarDecl? || st.Assign? || st.CompoundAssign? || st.ExprStmt? || st.Return?
    requires Among(t, s.trace, named, ptr) && AllowsStmt(t, named, ptr, st)
    ensures Among(t, ExecStmt(Tracing(base, t, ctx), st, s, fuel).1.trace, named, ptr)
  {
    var act := Tracing(base, t, ctx);
    match st
    case VarDecl(x, moves, init) =>
      EvalCalls(base, t, ctx, init, Val, s, named, ptr);
      var (v, s1) := Eval(act, init, Val, s);
      ActionCalls(base, t, ctx, Declare(x, moves), [v], s1, named, ptr);
    case Assign(lv, value) => AssignCalls(base, t, ctx, lv, value, s, named, ptr);
    case CompoundAssign(lv, op, value) =>
      ToExprNames(lv);
      ToExprIndirect(lv, t.fns);
      AssignCalls(base, t, ctx, lv, Binary(lv.ToExpr(), op, value), s, named, ptr);
    case ExprStmt(e) => EvalCalls(base, t, ctx, e, Val, s, named, ptr);
    case Return(None) =>
    case Return(Some(e)) =>
      EvalCalls(base, t, ctx, e, Val, s, named, ptr);
      var (v, s1) := Eval(act, e, Val, s);
      ActionCalls(base, t, ctx, Result, [v], s1, named, ptr);
  }

  lemma {:induction false} LoopCalls<D>(base: Act<D>, t: Target, ctx: Context, st: Stmt, s: Traced<D>, fuel: nat, named: set<string>, ptr: bool)
    requires (st.Loop? || st.While?) && Among(t, s.trace, named, ptr) && AllowsStmt(t, named, ptr, st)
    ensures Among(t, ExecLoop(Tracing(base, t, ctx), st, s, fuel).1.trace, named, ptr)
    decreases fuel, st, 1
  {
    if fuel > 0 {
      var act := Tracing(base, t, ctx);
      if st.While? { EvalCalls(base, t, ctx, st.cond, Val, s, named, ptr); }
      var (v, s1) := if st.While? then Eval(act, st.cond, Val, s) else (1, s);
      if v != 0 {
        BlockCalls(base, t, ctx, st.body, s1, fuel - 1, named, ptr);
        var (o, s2) := ExecBlock(act, st.body, s1, fuel - 1);
        if o == Normal || o == Continued { LoopCalls(base, t, ctx, st, s2, fuel - 1, named, ptr); }
      }
    }
  }

  lemma {:induction false} ForStartCalls<D>(base: Act<D>, t: Target, ctx: Context, st: Stmt, s: Traced<D>, fuel: nat, named: set<string>, ptr: bool)
    requires st.For? && Among(t, s.trace, named, ptr) && AllowsStmt(t, named, ptr, st)
    ensures Among(t, ExecStmt(Tracing(base, t, ctx), st, s, fuel).1.trace, named, ptr)
    decreases fuel, st, 1
  {
    var act := Tracing(base, t, ctx);
    EvalCalls(base, t, ctx, st.start, Val, s, named, ptr);
    var (v, s1) := Eval(act, st.start, Val, s);
    EvalCalls(base, t, ctx, st.end, Val, s1, named, ptr);
    var (bound, s2) := Eval(act, st.end, Val, s1);
    OptCalls(base, t, ctx, st.step, s2, named, ptr);
    var (inc, s3) := EvalStep(act, st.step, s2);
    ActionCalls(base, t, ctx, ForInit(st.v), [v], s3, named, ptr);
    ForCalls(base, t, ctx, st, bound, inc, act(ForInit(st.v), [v], s3).1, fuel, named, ptr);
  }

  lemma {:induction false} ForCalls<D>(base: Act<D>, t: Target, ctx: Context, st: Stmt, bound: int, inc: int, s: Traced<D>, fuel: nat, named: set<string>, ptr: bool)
    requires st.For? && Among(t, s.trace, named, ptr) && AllowsStmt(t, named, ptr, st)
    ensures Among(t, ExecFor(Tracing(base, t, ctx), st, bound, inc, s, fuel).1.trace, named, ptr)
    decreases fuel, st, 0
  {
    if fuel > 0 {
      var act := Tracing(base, t, ctx);
      ActionCalls(base, t, ctx, ForMore(st.v, st.dir), [bound], s, named, ptr);
      var (v, s1) := act(ForMore(st.v, st.dir), [bound], s);
      if v != 0 {
        BlockCalls(base, t, ctx, st.body, s1, fuel - 1, named, ptr);
        var (o, s2) := ExecBlock(act, st.body, s1, fuel - 1);
        if o == Normal || o == Continued {
          ActionCalls(base, t, ctx, ForStep(st.v, st.dir), [inc], s2, named, ptr);
          ForCalls(base, t, ctx, st, bound, inc, act(ForStep(st.v, st.dir), [inc], s2).1, fuel - 1, named, ptr);
        }
      }
    }
  }

  lemma {:induction false} ArmsCalls<D>(base: Act<D>, t: Target, ctx: Context, st: Stmt, i: nat, v: int, s: Traced<D>, fuel: nat, named: set<string>, ptr: bool)
    requires st.Match? && i <= |st.arms| && Among(t, s.trace, named, ptr) && AllowsStmt(t, named, ptr, st)
    ensures Among(t, ExecArms(Tracing(base, t, ctx), st, i, v, s, fuel).1.trace, named, ptr)
    decreases fuel, st, 0, |st.arms| - i
  {
    if i < |st.arms| {
      var arm := st.arms[i];
      assert arm in st.arms;
      ArmNamesAt(st, |st.arms|, i);
      ActionCalls(base, t, ctx, Select(arm.patterns), [v], s, named, ptr);
      var (hit, s1) := Tracing(base, t, ctx)(Select(arm.patterns), [v], s);
      if PWild in arm.patterns {
        BlockCalls(base, t, ctx, arm.body, s, fuel, named, ptr);
      } else if hit != 0 {
        BlockCalls(base, t, ctx, arm.body, s1, fuel, named, ptr);
      } else {
        ArmsCalls(base, t, ctx, st, i + 1, v, s1, fuel, named, ptr);
      }
    }
  }

  // --- what may be called ---

  // The event sequences of a function: those of its runs, ended or cut off, for
  // any data and any evaluation.
  ghost function TraceOf<D>(base: Act<D>, t: Target, f: Fn, d: D, fuel: nat): seq<Event> {
    ExecBlock(Tracing(base, t, f.context), f.body, Traced(d, 0, []), fuel).1.trace
  }

  // Every direct call in a run of `f` is an edge of the call graph, and a call
  // through a pointer makes `f` an indirect caller.
  lemma {:induction false} CallsAreFacts<D>(base: Act<D>, t: Target, p: Program, sigs: Signatures, f: Fn, d: D, fuel: nat)
    requires WellFormed(p, sigs) && f in p.fns && t.fns == sigs.Keys
    ensures forall g :: CallFn(g) in TraceOf(base, t, f, d, fuel) ==> g in sigs && f.name in FactsOf(p, sigs).edges && g in FactsOf(p, sigs).edges[f.name]
    ensures CallPtr in TraceOf(base, t, f, d, fuel) ==> f.name in FactsOf(p, sigs).indirect
  {
    var k :| 0 <= k < |p.fns| && p.fns[k] == f;
    EdgesAt(p.fns, |p.fns|, sigs.Keys, k);
    IndirectAt(p.fns, |p.fns|, sigs.Keys, k);
    BlockCalls(base, t, f.context, f.body, Traced(d, 0, []), fuel, BlockNames(f.body), BlockIndirect(f.body, t.fns));
  }

  // On a consistent graph a function calls, in every context it can run in, only
  // functions that can run there: directly, or through a pointer to any function
  // the program takes.
  lemma {:induction false} CallsStayInContext<D>(base: Act<D>, t: Target, p: Program, sigs: Signatures, m: Possible, f: Fn, r: Context, d: D, fuel: nat)
    requires WellFormed(p, sigs) && Solves(sigs, FactsOf(p, sigs), m) && Consistent(sigs, FactsOf(p, sigs), m)
    requires f in p.fns && t.fns == sigs.Keys && r in m[f.name]
    ensures forall g :: CallFn(g) in TraceOf(base, t, f, d, fuel) ==> g in m && r in m[g]
    ensures CallPtr in TraceOf(base, t, f, d, fuel) ==> forall g <- FactsOf(p, sigs).taken :: g in m ==> r in m[g]
  {
    var q := FactsOf(p, sigs);
    CallsAreFacts(base, t, p, sigs, f, d, fuel);
    forall g | g in sigs && MayCall(q, f.name, g) ensures r in m[g] {
      if sigs[g] == Any { assert m[f.name] <= m[g]; } else { assert m[f.name] <= {sigs[g]}; }
    }
  }
}
