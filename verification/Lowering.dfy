// What lowering promises of a whole function.
module Lowering {
  import opened Ast
  import opened ControlFlow
  import opened Semantics
  import opened Ir
  import opened Emit
  import opened EmitShape
  import opened LowerSim
  import opened LowerStmt
  import opened Trailing
  import TrailingPaths

  // The machine at the entry block of a function.
  ghost function Started<S>(s: S): Config<S> { Running(1, map[], Entry, Entry, s) }

  // --- trailing expressions ---

  lemma {:induction false} StripLeavesNone(b: Block)
    ensures NoTrailing(Strip(b))
  {
    forall i | 0 <= i < |b.stmts| ensures NoTrailingStmt(StripStmt(b.stmts[i])) { StripStmtLeavesNone(b.stmts[i]); }
  }

  lemma {:induction false} StripStmtLeavesNone(s: Stmt)
    ensures NoTrailingStmt(StripStmt(s))
  {
    match s
    case If(_, t, e) => StripLeavesNone(t); StripLeavesNone(e);
    case Loop(b) => StripLeavesNone(b);
    case While(_, b) => StripLeavesNone(b);
    case For(_, _, _, _, _, b) => StripLeavesNone(b);
    case Match(_, arms) => forall i | 0 <= i < |arms| { StripLeavesNone(arms[i].body); }
    case BlockStmt(b) => StripLeavesNone(b);
    case Claim(_, b) => StripLeavesNone(b);
    case _ =>
  }

  // A body without trailing expressions is its own stripped form.
  lemma {:induction false} StripIsIdentity(b: Block)
    requires NoTrailing(b)
    ensures Strip(b) == b
  {
    forall i | 0 <= i < |b.stmts| ensures Strip(b).stmts[i] == b.stmts[i] {
      assert b.stmts[i] in b.stmts;
      StripStmtIsIdentity(b.stmts[i]);
    }
    assert Strip(b).stmts == b.stmts;
  }

  lemma {:induction false} StripStmtIsIdentity(s: Stmt)
    requires NoTrailingStmt(s)
    ensures StripStmt(s) == s
  {
    match s
    case If(_, t, e) => StripIsIdentity(t); StripIsIdentity(e);
    case Loop(b) => StripIsIdentity(b);
    case While(_, b) => StripIsIdentity(b);
    case For(_, _, _, _, _, b) => StripIsIdentity(b);
    case Match(_, arms) =>
      forall i | 0 <= i < |arms| ensures StripArms(arms)[i] == arms[i] {
        assert arms[i] in arms;
        StripIsIdentity(arms[i].body);
      }
      assert StripArms(arms) == arms;
    case BlockStmt(b) => StripIsIdentity(b);
    case Claim(_, b) => StripIsIdentity(b);
    case _ =>
  }

  lemma NoTrailingDropsNone(b: Block)
    requires NoTrailing(b)
    ensures !DropsTrailing(b)
  {
    StripIsIdentity(b);
    TrailingPaths.SameEndsExactly(b);
  }

  lemma {:induction false} StripKeepsClaimOk(b: Block, depth: nat)
    requires ClaimOkBlock(b, depth)
    ensures ClaimOkBlock(Strip(b), depth)
    decreases b
  {
    forall i | 0 <= i < |b.stmts| ensures ClaimOkStmt(StripStmt(b.stmts[i]), depth) {
      assert b.stmts[i] in b.stmts;
      StripStmtKeepsClaimOk(b.stmts[i], depth);
    }
  }

  lemma {:induction false} StripStmtKeepsClaimOk(s: Stmt, depth: nat)
    requires ClaimOkStmt(s, depth)
    ensures ClaimOkStmt(StripStmt(s), depth)
    decreases s
  {
    match s
    case If(_, t, e) => StripKeepsClaimOk(t, depth); StripKeepsClaimOk(e, depth);
    case Loop(c) => StripKeepsClaimOk(c, depth + 1);
    case While(_, c) => StripKeepsClaimOk(c, depth + 1);
    case For(_, _, _, _, _, c) => StripKeepsClaimOk(c, depth + 1);
    case Match(_, arms) => forall j | 0 <= j < |arms| ensures ClaimOkBlock(StripArms(arms)[j].body, depth) { assert arms[j] in arms; StripKeepsClaimOk(arms[j].body, depth); }
    case BlockStmt(c) => StripKeepsClaimOk(c, depth);
    case Claim(_, c) => StripKeepsClaimOk(c, depth);
    case _ =>
  }

  lemma {:induction false} StripKeepsLowerable(b: Block, inLoop: bool)
    requires Lowerable(b, inLoop)
    ensures Lowerable(Strip(b), inLoop)
    decreases b
  {
    forall i | 0 <= i < |b.stmts| ensures LowerableStmt(StripStmt(b.stmts[i]), inLoop) {
      assert b.stmts[i] in b.stmts;
      StripStmtKeepsLowerable(b.stmts[i], inLoop);
    }
  }

  lemma {:induction false} StripStmtKeepsLowerable(s: Stmt, inLoop: bool)
    requires LowerableStmt(s, inLoop)
    ensures LowerableStmt(StripStmt(s), inLoop)
    decreases s
  {
    match s
    case If(_, t, e) => StripKeepsLowerable(t, inLoop); StripKeepsLowerable(e, inLoop);
    case Loop(c) => StripKeepsLowerable(c, true);
    case While(_, c) => StripKeepsLowerable(c, true);
    case For(_, _, _, _, _, c) => StripKeepsLowerable(c, true);
    case Match(_, arms) => forall j | 0 <= j < |arms| ensures Lowerable(StripArms(arms)[j].body, inLoop) { assert arms[j] in arms; StripKeepsLowerable(arms[j].body, inLoop); }
    case BlockStmt(c) => StripKeepsLowerable(c, inLoop);
    case Claim(_, c) => StripKeepsLowerable(c, inLoop); StripKeepsClaimOk(c, 0);
    case _ =>
  }

  lemma {:induction false} StripKeepsOrdered(b: Block)
    requires SwitchesOrdered(b)
    ensures SwitchesOrdered(Strip(b))
    decreases b
  {
    forall i | 0 <= i < |b.stmts| ensures SwitchesOrderedStmt(StripStmt(b.stmts[i])) {
      assert b.stmts[i] in b.stmts;
      StripStmtKeepsOrdered(b.stmts[i]);
    }
  }

  lemma {:induction false} StripStmtKeepsOrdered(s: Stmt)
    requires SwitchesOrderedStmt(s)
    ensures SwitchesOrderedStmt(StripStmt(s))
    decreases s
  {
    match s
    case If(_, t, e) => StripKeepsOrdered(t); StripKeepsOrdered(e);
    case Loop(c) => StripKeepsOrdered(c);
    case While(_, c) => StripKeepsOrdered(c);
    case For(_, _, _, _, _, c) => StripKeepsOrdered(c);
    case Match(_, arms) =>
      StripOnEnum(arms);
      forall j | 0 <= j < |arms| ensures SwitchesOrdered(StripArms(arms)[j].body) { assert arms[j] in arms; StripKeepsOrdered(arms[j].body); }
    case BlockStmt(c) => StripKeepsOrdered(c);
    case Claim(_, c) => StripKeepsOrdered(c);
    case _ =>
  }

  // The emitter never looks at a trailing expression.
  lemma {:induction false} StripIsInvisible(b: Block, i: nat, brk: Option<Label>, cont: Option<Label>, st: Em)
    requires i <= |b.stmts|
    ensures EmitFrom(Strip(b), i, brk, cont, st) == EmitFrom(b, i, brk, cont, st)
    decreases b, |b.stmts| - i
  {
    if i < |b.stmts| {
      StripStmtIsInvisible(b.stmts[i], brk, cont, st);
      var (c1, s1, t1) := EmitStmt(b.stmts[i], brk, cont, st);
      if !t1 { StripIsInvisible(b, i + 1, brk, cont, s1); }
    }
  }

  lemma {:induction false} StripStmtIsInvisible(s: Stmt, brk: Option<Label>, cont: Option<Label>, st: Em)
    ensures EmitStmt(StripStmt(s), brk, cont, st) == EmitStmt(s, brk, cont, st)
    decreases s, 1
  {
    match s
    case If(_, _, _) => StripIf(s, brk, cont, st);
    case Loop(_) => StripLoop(s, st);
    case While(_, _) => StripLoop(s, st);
    case For(_, _, _, _, _, _) => StripFor(s, st);
    case Match(_, _) => StripMatch(s, brk, cont, st);
    case BlockStmt(b) => StripIsInvisible(b, 0, brk, cont, st);
    case Claim(_, b) => StripIsInvisible(b, 0, brk, cont, st.(regs := st.regs + 1));
    case _ =>
  }

  lemma {:induction false} StripIf(s: Stmt, brk: Option<Label>, cont: Option<Label>, st: Em)
    requires s.If?
    ensures EmitIf(StripStmt(s), brk, cont, st) == EmitIf(s, brk, cont, st)
    decreases s, 0
  {
    var (thn, els, end) := (Lab(st.labels), Lab(st.labels + 1), Lab(st.labels + 2));
    var s0 := EmitCond(s.cond, thn, els, st.(labels := st.labels + 3)).1;
    StripIsInvisible(s.thn, 0, brk, cont, s0.(cur := thn));
    var s1 := EmitBlock(s.thn, brk, cont, s0.(cur := thn)).1;
    StripIsInvisible(s.els, 0, brk, cont, s1.(cur := els));
  }

  lemma {:induction false} StripLoop(s: Stmt, st: Em)
    requires s.Loop? || s.While?
    ensures s.Loop? ==> EmitLoop(StripStmt(s), st) == EmitLoop(s, st)
    ensures s.While? ==> EmitWhile(StripStmt(s), st) == EmitWhile(s, st)
    decreases s, 0
  {
    var s0 := LoopHead(s, st).1;
    StripIsInvisible(s.body, 0, Some(Lab(st.labels + 2)), Some(Lab(st.labels)), s0.(cur := Lab(st.labels + 1)));
  }

  lemma {:induction false} StripFor(s: Stmt, st: Em)
    requires s.For?
    ensures EmitFor(StripStmt(s), st) == EmitFor(s, st)
    decreases s, 0
  {
    var r := StripStmt(s);
    var (c0, z, k, s0) := EmitForHead(s, st);
    assert EmitForHead(r, st) == (c0, z, k, s0);
    StripIsInvisible(s.body, 0, Some(Lab(s0.labels + 3)), Some(Lab(s0.labels + 2)), Em(s0.regs + 1, s0.labels + 4, Lab(s0.labels + 1)));
    assert EmitRounds(r, z, k, s0) == EmitRounds(s, z, k, s0);
  }

  lemma {:induction false} StripMatch(s: Stmt, brk: Option<Label>, cont: Option<Label>, st: Em)
    requires s.Match?
    ensures EmitMatch(StripStmt(s), brk, cont, st) == EmitMatch(s, brk, cont, st)
    decreases s, 0, |s.arms| + 1
  {
    var (c0, v, s0) := EmitExpr(s.scrutinee, Val, st);
    var end, arm0 := Lab(s0.labels), s0.labels + 1;
    var st1 := s0.(labels := arm0 + |s.arms|);
    StripDispatch(s.arms, v, arm0, end, st1);
    StripArmsInvisible(s, 0, arm0, end, brk, cont, EmitDispatch(s.arms, v, arm0, end, st1).1);
  }

  lemma StripDispatch(arms: seq<Arm>, v: Operand, arm0: nat, end: Label, st: Em)
    ensures EmitDispatch(StripArms(arms), v, arm0, end, st) == EmitDispatch(arms, v, arm0, end, st)
  {
    StripOnEnum(arms);
    StripCases(arms, 0, arm0, end);
    StripChain(arms, 0, v, arm0, end, st);
  }

  lemma StripOnEnum(arms: seq<Arm>)
    ensures OnEnum(StripArms(arms)) == OnEnum(arms) && WildLast(StripArms(arms)) == WildLast(arms)
  {
    var r := StripArms(arms);
    assert forall i :: 0 <= i < |arms| ==> r[i].patterns == arms[i].patterns;
    if arm :| arm in arms && exists p <- arm.patterns :: p.PVariant? { var i :| 0 <= i < |arms| && arms[i] == arm; assert r[i] in r; }
    if arm :| arm in r && exists p <- arm.patterns :: p.PVariant? { var i :| 0 <= i < |r| && r[i] == arm; assert arms[i] in arms; }
  }

  lemma {:induction false} StripCases(arms: seq<Arm>, i: nat, arm0: nat, end: Label)
    requires i <= |arms|
    ensures CasesFrom(StripArms(arms), i, arm0) == CasesFrom(arms, i, arm0) && OtherFrom(StripArms(arms), i, arm0, end) == OtherFrom(arms, i, arm0, end)
    decreases |arms| - i
  {
    if i < |arms| { StripCases(arms, i + 1, arm0, end); }
  }

  lemma {:induction false} StripChain(arms: seq<Arm>, i: nat, v: Operand, arm0: nat, end: Label, st: Em)
    requires i <= |arms|
    ensures EmitChain(StripArms(arms), i, v, arm0, end, st) == EmitChain(arms, i, v, arm0, end, st)
    decreases |arms| - i
  {
    if i < |arms| && PWild !in arms[i].patterns {
      StripChain(arms, i + 1, v, arm0, end, Em(st.regs + 1, st.labels + 1, Lab(st.labels)));
    }
  }

  lemma {:induction false} StripArmsInvisible(s: Stmt, i: nat, arm0: nat, end: Label, brk: Option<Label>, cont: Option<Label>, st: Em)
    requires s.Match? && i <= |s.arms|
    ensures EmitArms(StripStmt(s), i, arm0, end, brk, cont, st) == EmitArms(s, i, arm0, end, brk, cont, st)
    decreases s, 0, |s.arms| - i
  {
    if i < |s.arms| {
      var st1 := st.(cur := Lab(arm0 + i));
      StripIsInvisible(s.arms[i].body, 0, brk, cont, st1);
      StripArmsInvisible(s, i + 1, arm0, end, brk, cont, EmitBlock(s.arms[i].body, brk, cont, st1).1);
    }
  }

  // --- the theorems ---

  // A run of the lowered function, against the source run of the same fuel:
  // a source run that finishes is a machine run that halts in the same state;
  // a source run that is cut off is a machine still running after at least as
  // many steps. The machine runs the body without its trailing expressions,
  // which makes no difference unless a path that ends evaluates one.
  lemma {:induction false} FunctionRuns<S(!new)>(act: Act<S>, body: Block, s: S, fuel: nat) returns (k: nat, m: Config<S>)
    requires Lowerable(body, false) && SwitchesOrdered(body) && NegatesNot(act)
    ensures Steps(act, EmitFunction(body), Started(s), k) == m && Reached(m, k, ExecBlock(act, Strip(body), s, fuel), fuel)
    ensures ExecBlock(act, Strip(body), s, fuel).0 == Timeout ==> m.Running? && m.s == ExecBlock(act, Strip(body), s, fuel).1
    ensures !DropsTrailing(body) ==> Reached(m, k, ExecBlock(act, body, s, fuel), fuel)
  {
    k, m := StrippedRuns(act, body, s, fuel);
    var (w, a, b) := (BlockWays(body), ExecBlock(act, body, s, fuel), ExecBlock(act, Strip(body), s, fuel));
    if !DropsTrailing(body) {
      BlockAlike(act, body, s, fuel);
      assert Follows(w, a, b) && Follows(w, b, a);
      if a.0 == Broke || a.0 == Continued { BlockOutcome(act, body, s, fuel, 0); }
    }
  }

  ghost predicate Reached<S>(m: Config<S>, k: nat, r: (Outcome, S), fuel: nat) {
    match r.0
    case Normal => m == Halted(r.1)
    case Returned => m == Halted(r.1)
    case Timeout => m.Running? && k >= fuel
    case _ => false
  }

  lemma {:induction false} StrippedRuns<S(!new)>(act: Act<S>, body: Block, s: S, fuel: nat) returns (k: nat, m: Config<S>)
    requires Lowerable(body, false) && SwitchesOrdered(body) && NegatesNot(act)
    ensures Steps(act, EmitFunction(body), Started(s), k) == m && Reached(m, k, ExecBlock(act, Strip(body), s, fuel), fuel)
    ensures ExecBlock(act, Strip(body), s, fuel).0 == Timeout ==> m.Running? && m.s == ExecBlock(act, Strip(body), s, fuel).1
  {
    var p, b, st := EmitFunction(body), Strip(body), Em(0, 0, Entry);
    FunctionIsWellFormed(body);
    StripLeavesNone(body);
    StripKeepsLowerable(body, false);
    StripKeepsOrdered(body);
    StripIsInvisible(body, 0, None, None, st);
    var (c, s1, t) := EmitBlock(b, None, None, st);
    var end := if t then [] else [Ret(None)];
    assert p == [Mark(Entry)] + c + end;
    CodeSplitWhole(p, [Mark(Entry)], c, end);
    k, m := BlockSim(act, p, b, None, None, st, 1, Started(s), fuel);
    if ExecBlock(act, b, s, fuel).0 == Normal {
      LineAt(p, 1 + |c|, [Ret(None)], 0);
      OneStep(act, p, Started(s), k, m);
      k, m := k + 1, Step(act, p, m);
    }
  }

  lemma CodeSplitWhole(p: Code, a: Code, b: Code, c: Code)
    requires p == a + b + c
    ensures CodeAt(p, |a|, b) && CodeAt(p, |a| + |b|, c)
  {
    assert CodeAt(p, 0, a + b + c);
    CodeSplit(p, 0, a + b, c);
    CodeSplit(p, 0, a, b);
  }

  ghost predicate Halts<S(!new)>(act: Act<S>, body: Block, s: S, x: S) {
    exists k: nat :: Steps(act, EmitFunction(body), Started(s), k) == Halted(x)
  }

  // A machine that has stopped after `k` steps has halted where the source run
  // with fuel for one more ends.
  lemma {:induction false} StoppedIsFinished<S(!new)>(act: Act<S>, body: Block, s: S, k: nat)
    requires Lowerable(body, false) && SwitchesOrdered(body) && NegatesNot(act) && !Steps(act, EmitFunction(body), Started(s), k).Running?
    ensures var m := Steps(act, EmitFunction(body), Started(s), k);
      m.Halted? && Finishes(act, Strip(body), s, k + 1, m.s) && (!DropsTrailing(body) ==> Finishes(act, body, s, k + 1, m.s))
  {
    var p, m0 := EmitFunction(body), Started(s);
    var j, m := FunctionRuns(act, body, s, k + 1);
    if j >= k {
      StepsAdd(act, p, m0, k, j - k);
      StoppedStays(act, p, Steps(act, p, m0, k), j - k);
    } else {
      StepsAdd(act, p, m0, j, k - j);
      StoppedStays(act, p, m, k - j);
    }
  }

  // The lowered function halts exactly where the body without its trailing
  // expressions ends. It never crashes: it meets no missing label, no phi it does
  // not name, and no block it falls out of.
  lemma {:induction false} LoweredIsStripped<S(!new)>(act: Act<S>, body: Block, s: S, x: S)
    requires Lowerable(body, false) && SwitchesOrdered(body) && NegatesNot(act)
    ensures Halts(act, body, s, x) <==> Ends(act, Strip(body), s, x)
    ensures forall k: nat :: !Steps(act, EmitFunction(body), Started(s), k).Crashed?
  {
    var p, m0 := EmitFunction(body), Started(s);
    if k: nat :| Steps(act, p, m0, k) == Halted(x) {
      StoppedIsFinished(act, body, s, k);
    }
    if fuel: nat :| Finishes(act, Strip(body), s, fuel, x) {
      var k, m := FunctionRuns(act, body, s, fuel);
      assert Steps(act, p, m0, k) == Halted(x);
    }
    forall k: nat ensures !Steps(act, p, m0, k).Crashed? {
      if !Steps(act, p, m0, k).Running? { StoppedIsFinished(act, body, s, k); }
    }
  }

  // Lowering preserves meaning: the lowered function halts exactly when the
  // source run ends, and in the same state, for every meaning of the actions.
  lemma {:induction false} LoweringPreservesMeaning<S(!new)>(act: Act<S>, body: Block, s: S, x: S)
    requires Lowerable(body, false) && SwitchesOrdered(body) && NegatesNot(act) && !DropsTrailing(body)
    ensures Halts(act, body, s, x) <==> Ends(act, body, s, x)
    ensures forall k: nat :: !Steps(act, EmitFunction(body), Started(s), k).Crashed?
  {
    LoweredIsStripped(act, body, s, x);
    FinishesAlike(act, body, s, x);
  }

  // The condition is exact: where a path that ends evaluates a trailing
  // expression, some choice of values makes the lowered function end otherwise
  // than the source. Values read from a tape are enough to tell.
  lemma {:induction false} MeaningKeptExactly(body: Block)
    requires Lowerable(body, false) && SwitchesOrdered(body)
    ensures NegatesNot(TrailingPaths.Reader())
    ensures
      (forall t, x :: Halts(TrailingPaths.Reader(), body, TrailingPaths.On(t), x) <==> Ends(TrailingPaths.Reader(), body, TrailingPaths.On(t), x))
      <==> !DropsTrailing(body)
  {
    var act := TrailingPaths.Reader();
    assert NegatesNot(act) by {
      forall e, v, s ensures act(Node(Unary(Not, e)), [v], s) == (if v == 0 then 1 else 0, s) { TrailingPaths.ReaderNegates(e, v, s); }
    }
    TrailingPaths.SameEndsExactly(body);
    forall t, x ensures Halts(act, body, TrailingPaths.On(t), x) <==> Ends(act, Strip(body), TrailingPaths.On(t), x) {
      LoweredIsStripped(act, body, TrailingPaths.On(t), x);
    }
  }

  // A call that is the last thing in a void function is parsed as the trailing
  // expression of its body, and lowered to nothing.
  lemma TrailingIsDropped<S(!new)>(act: Act<S>, g: string, s: S, x: S)
    requires NegatesNot(act)
    ensures
      var (call, body) := (Call(Ident(g), []), Block([], Some(Call(Ident(g), []))));
      && Lowerable(body, false) && SwitchesOrdered(body) && DropsTrailing(body)
      && (Ends(act, body, s, x) <==> x == Eval(act, call, Val, s).1)
      && (Halts(act, body, s, x) <==> x == s)
  {
    var (call, body) := (Call(Ident(g), []), Block([], Some(Call(Ident(g), []))));
    forall fuel: nat ensures Finishes(act, body, s, fuel, x) <==> x == Eval(act, call, Val, s).1 {
      assert ExecBlock(act, body, s, fuel) == ExecFrom(act, body, 0, s, fuel);
    }
    forall fuel: nat ensures Finishes(act, Strip(body), s, fuel, x) <==> x == s {
      assert ExecBlock(act, Strip(body), s, fuel) == ExecFrom(act, Strip(body), 0, s, fuel);
    }
    assert Ends(act, body, s, x) <==> Finishes(act, body, s, 0, x);
    assert Ends(act, Strip(body), s, x) <==> Finishes(act, Strip(body), s, 0, x);
    LoweredIsStripped(act, body, s, x);
  }
}
