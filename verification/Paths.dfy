// Paths through statements: pieces of tape, and how they fit together. A path
// `w` takes a statement from `d` to `d2` with outcome `o`, whatever follows on
// the tape, once the fuel is at least `k`.
module Paths {
  import opened Ast
  import opened Semantics
  import opened Tapes

  function Max(a: nat, b: nat): nat { if a > b then a else b }

  ghost predicate StmtOn<D>(act: Act<Driven<D>>, st: Stmt, t: seq<int>, d: D, fuel: nat, o: Outcome, u: seq<int>, d2: D) {
    ExecStmt(act, st, Driven(Some(t), d), fuel) == (o, Driven(Some(u), d2))
  }

  ghost predicate StmtTakes<D>(act: Act<Driven<D>>, st: Stmt, w: seq<int>, d: D, k: nat, o: Outcome, d2: D) {
    forall u: seq<int>, fuel: nat :: fuel >= k ==> StmtOn(act, st, w + u, d, fuel, o, u, d2)
  }

  ghost predicate FromOn<D>(act: Act<Driven<D>>, b: Block, i: nat, t: seq<int>, d: D, fuel: nat, o: Outcome, u: seq<int>, d2: D)
    requires i <= |b.stmts|
  {
    ExecFrom(act, b, i, Driven(Some(t), d), fuel) == (o, Driven(Some(u), d2))
  }

  ghost predicate FromTakes<D>(act: Act<Driven<D>>, b: Block, i: nat, w: seq<int>, d: D, k: nat, o: Outcome, d2: D)
    requires i <= |b.stmts|
  {
    forall u: seq<int>, fuel: nat :: fuel >= k ==> FromOn(act, b, i, w + u, d, fuel, o, u, d2)
  }

  ghost predicate RoundOn<D>(act: Act<Driven<D>>, st: Stmt, bound: int, inc: int, t: seq<int>, d: D, fuel: nat, o: Outcome, u: seq<int>, d2: D)
    requires IsLoop(st) && fuel > 0
  {
    Round(act, st, bound, inc, Driven(Some(t), d), fuel) == (o, Driven(Some(u), d2))
  }

  ghost predicate RoundTakes<D>(act: Act<Driven<D>>, st: Stmt, w: seq<int>, d: D, k: nat, o: Outcome, d2: D)
    requires IsLoop(st)
  {
    forall u: seq<int>, fuel: nat, bound, inc :: fuel >= k && fuel > 0 ==> RoundOn(act, st, bound, inc, w + u, d, fuel, o, u, d2)
  }

  ghost predicate RoundsOn<D>(act: Act<Driven<D>>, st: Stmt, bound: int, inc: int, t: seq<int>, d: D, fuel: nat, o: Outcome, u: seq<int>, d2: D)
    requires IsLoop(st)
  {
    Rounds(act, st, bound, inc, Driven(Some(t), d), fuel) == (o, Driven(Some(u), d2))
  }

  ghost predicate RoundsTake<D>(act: Act<Driven<D>>, st: Stmt, w: seq<int>, d: D, k: nat, o: Outcome, d2: D)
    requires IsLoop(st)
  {
    forall u: seq<int>, fuel: nat, bound, inc :: fuel >= k ==> RoundsOn(act, st, bound, inc, w + u, d, fuel, o, u, d2)
  }

  ghost predicate ArmsOn<D>(act: Act<Driven<D>>, st: Stmt, i: nat, v: int, t: seq<int>, d: D, fuel: nat, o: Outcome, u: seq<int>, d2: D)
    requires st.Match? && i <= |st.arms|
  {
    ExecArms(act, st, i, v, Driven(Some(t), d), fuel) == (o, Driven(Some(u), d2))
  }

  ghost predicate ArmsTake<D>(act: Act<Driven<D>>, st: Stmt, i: nat, w: seq<int>, d: D, k: nat, o: Outcome, d2: D)
    requires st.Match? && i <= |st.arms|
  {
    forall u: seq<int>, fuel: nat, v :: fuel >= k ==> ArmsOn(act, st, i, v, w + u, d, fuel, o, u, d2)
  }

  ghost predicate BlockTakes<D>(act: Act<Driven<D>>, b: Block, w: seq<int>, d: D, k: nat, o: Outcome, d2: D) {
    FromTakes(act, b, 0, w, d, k, o, d2)
  }

  // --- straight statements ---

  predicate Straight(st: Stmt) { st.VarDecl? || st.Assign? || st.CompoundAssign? || st.ExprStmt? || st.Return? || st.Break? || st.Continue? }

  function AssignDone<D>(obs: (Action, D) -> D, lv: LValue, value: Expr, d: D): D {
    obs(Store(lv), FullTarget(obs, TargetParts(lv), Full(obs, value, Val, d)))
  }

  function StraightDone<D>(obs: (Action, D) -> D, st: Stmt, d: D): D
    requires Straight(st)
  {
    match st
    case VarDecl(x, moves, init) => obs(Declare(x, moves), Full(obs, init, Val, d))
    case Assign(lv, value) => AssignDone(obs, lv, value, d)
    case CompoundAssign(lv, op, value) => AssignDone(obs, lv, Binary(lv.ToExpr(), op, value), d)
    case ExprStmt(e) => Full(obs, e, Val, d)
    case Return(e) => if e.Some? then obs(Result, Full(obs, e.value, Val, d)) else d
    case _ => d
  }

  function StraightOutcome(st: Stmt): Outcome {
    if st.Return? then Returned else if st.Break? then Broke else if st.Continue? then Continued else Normal
  }

  lemma {:induction false} StraightPath<D>(obs: (Action, D) -> D, negates: bool, st: Stmt, d: D) returns (w: seq<int>)
    requires Straight(st)
    ensures StmtTakes(Drive(obs, negates), st, w, d, 0, StraightOutcome(st), StraightDone(obs, st, d))
  {
    var act, d2 := Drive(obs, negates), StraightDone(obs, st, d);
    if st.VarDecl? {
      w := ThenAction(obs, negates, st.init, Declare(st.name, st.moves), st, d);
    } else if st.Assign? {
      w := AssignPath(obs, negates, st.target, st.value, st, d);
    } else if st.CompoundAssign? {
      w := AssignPath(obs, negates, st.target, Binary(st.target.ToExpr(), st.op, st.value), st, d);
    } else if st.ExprStmt? {
      w := ExprPath(obs, negates, st.e, Val, d, true);
      forall u, fuel: nat ensures StmtOn(act, st, w + u, d, fuel, Normal, u, d2) { assert EvalsOn(act, st.e, Val, w + u, d, true, u, d2); }
    } else if st.Return? && st.result.Some? {
      w := ThenAction(obs, negates, st.result.value, Result, st, d);
    } else {
      w := [];
      forall u: seq<int>, fuel: nat ensures StmtOn(act, st, w + u, d, fuel, StraightOutcome(st), u, d2) { assert w + u == u; }
    }
  }

  // An expression and one action on its value: a declaration or a return.
  lemma {:induction false} ThenAction<D>(obs: (Action, D) -> D, negates: bool, e: Expr, a: Action, st: Stmt, d: D) returns (w: seq<int>)
    requires (st.VarDecl? && e == st.init && a == Declare(st.name, st.moves)) || (st == Return(Some(e)) && a == Result)
    ensures StmtTakes(Drive(obs, negates), st, w, d, 0, StraightOutcome(st), StraightDone(obs, st, d))
  {
    var act, d1 := Drive(obs, negates), Full(obs, e, Val, d);
    var w1 := ExprPath(obs, negates, e, Val, d, true);
    w := w1 + [0];
    forall u, fuel: nat ensures StmtOn(act, st, w + u, d, fuel, StraightOutcome(st), u, StraightDone(obs, st, d)) {
      Concat(w1, [0], u);
      assert EvalsOn(act, e, Val, w1 + ([0] + u), d, true, [0] + u, d1);
      OneAction(obs, negates, a, [Eval(act, e, Val, Driven(Some(w + u), d)).0], 0, u, d1);
    }
  }

  lemma {:induction false} AssignPath<D>(obs: (Action, D) -> D, negates: bool, lv: LValue, value: Expr, st: Stmt, d: D) returns (w: seq<int>)
    requires st == Assign(lv, value) || (st.CompoundAssign? && st.target == lv && value == Binary(lv.ToExpr(), st.op, st.value))
    ensures StmtTakes(Drive(obs, negates), st, w, d, 0, Normal, AssignDone(obs, lv, value, d))
  {
    var act, d1 := Drive(obs, negates), Full(obs, value, Val, d);
    var d2 := FullTarget(obs, TargetParts(lv), d1);
    var w1 := ExprPath(obs, negates, value, Val, d, true);
    var w2 := TargetPath(obs, negates, TargetParts(lv), d1);
    w := w1 + (w2 + [0]);
    forall u, fuel: nat ensures StmtOn(act, st, w + u, d, fuel, Normal, u, AssignDone(obs, lv, value, d)) {
      Concat(w1, w2 + [0], u);
      Concat(w2, [0], u);
      assert EvalsOn(act, value, Val, w1 + (w2 + ([0] + u)), d, true, w2 + ([0] + u), d1);
      assert TargetOn(act, TargetParts(lv), w2 + ([0] + u), d1, [0] + u, d2);
      var (v, r1) := Eval(act, value, Val, Driven(Some(w + u), d));
      OneAction(obs, negates, Store(lv), EvalTarget(act, TargetParts(lv), r1).0 + [v], 0, u, d2);
    }
  }

  // --- sequences ---

  lemma {:induction false} EndPath<D>(obs: (Action, D) -> D, negates: bool, b: Block, d: D) returns (w: seq<int>)
    ensures FromTakes(Drive(obs, negates), b, |b.stmts|, w, d, 0, Normal, FullOpt(obs, b.trailing, d))
    ensures b.trailing.Some? ==> w != []
  {
    var act, d2 := Drive(obs, negates), FullOpt(obs, b.trailing, d);
    w := OptPath(obs, negates, b.trailing, d);
    forall u, fuel: nat ensures FromOn(act, b, |b.stmts|, w + u, d, fuel, Normal, u, d2) { assert OptOn(act, b.trailing, w + u, d, u, d2); }
  }

  lemma Sequence<D>(act: Act<Driven<D>>, b: Block, i: nat, w1: seq<int>, d: D, k1: nat, d1: D, w2: seq<int>, k2: nat, o: Outcome, d2: D)
    requires i < |b.stmts| && StmtTakes(act, b.stmts[i], w1, d, k1, Normal, d1) && FromTakes(act, b, i + 1, w2, d1, k2, o, d2)
    ensures FromTakes(act, b, i, w1 + w2, d, Max(k1, k2), o, d2)
  {
    forall u, fuel: nat | fuel >= Max(k1, k2) ensures FromOn(act, b, i, w1 + w2 + u, d, fuel, o, u, d2) {
      Concat(w1, w2, u);
      assert StmtOn(act, b.stmts[i], w1 + (w2 + u), d, fuel, Normal, w2 + u, d1);
      assert FromOn(act, b, i + 1, w2 + u, d1, fuel, o, u, d2);
    }
  }

  lemma Jumps<D>(act: Act<Driven<D>>, b: Block, i: nat, w: seq<int>, d: D, k: nat, o: Outcome, d2: D)
    requires i < |b.stmts| && StmtTakes(act, b.stmts[i], w, d, k, o, d2) && o != Normal
    ensures FromTakes(act, b, i, w, d, k, o, d2)
  {
    forall u, fuel: nat | fuel >= k ensures FromOn(act, b, i, w + u, d, fuel, o, u, d2) {
      assert StmtOn(act, b.stmts[i], w + u, d, fuel, o, u, d2);
    }
  }

  // --- branches ---

  lemma Branch<D>(act: Act<Driven<D>>, st: Stmt, want: bool, w1: seq<int>, d: D, d1: D, w2: seq<int>, k: nat, o: Outcome, d2: D)
    requires st.If? && Evals(act, st.cond, Val, w1, d, want, d1) && BlockTakes(act, if want then st.thn else st.els, w2, d1, k, o, d2)
    ensures StmtTakes(act, st, w1 + w2, d, k, o, d2)
  {
    forall u, fuel: nat | fuel >= k ensures StmtOn(act, st, w1 + w2 + u, d, fuel, o, u, d2) {
      Concat(w1, w2, u);
      assert EvalsOn(act, st.cond, Val, w1 + (w2 + u), d, want, w2 + u, d1);
      assert FromOn(act, if want then st.thn else st.els, 0, w2 + u, d1, fuel, o, u, d2);
    }
  }

  lemma Nested<D>(act: Act<Driven<D>>, st: Stmt, w: seq<int>, d: D, k: nat, o: Outcome, d2: D)
    requires st.BlockStmt? && BlockTakes(act, st.b, w, d, k, o, d2)
    ensures StmtTakes(act, st, w, d, k, o, d2)
  {
    forall u, fuel: nat | fuel >= k ensures StmtOn(act, st, w + u, d, fuel, o, u, d2) { assert FromOn(act, st.b, 0, w + u, d, fuel, o, u, d2); }
  }

  function WindowDone<D>(obs: (Action, D) -> D, st: Stmt, o: Outcome, d: D): D
    requires st.Claim?
  {
    if o == Normal then obs(Leave(st.name), d) else d
  }

  // What the end of a window reads.
  function CloseTape(o: Outcome): seq<int> { if o == Normal then [0] else [] }

  lemma {:induction false} Window<D>(obs: (Action, D) -> D, negates: bool, st: Stmt, w: seq<int>, d: D, k: nat, o: Outcome, d2: D) returns (w': seq<int>)
    requires st.Claim? && BlockTakes(Drive(obs, negates), st.body, w, obs(Enter(st.name), d), k, o, d2)
    ensures StmtTakes(Drive(obs, negates), st, w', d, k, o, WindowDone(obs, st, o, d2)) && w' == [0] + (w + CloseTape(o))
  {
    var act, d1, close := Drive(obs, negates), obs(Enter(st.name), d), CloseTape(o);
    w' := [0] + (w + close);
    forall u, fuel: nat | fuel >= k ensures StmtOn(act, st, w' + u, d, fuel, o, u, WindowDone(obs, st, o, d2)) {
      Concat([0], w + close, u);
      Concat(w, close, u);
      OneAction(obs, negates, Enter(st.name), [], 0, w + (close + u), d);
      assert FromOn(act, st.body, 0, w + (close + u), d1, fuel, o, close + u, d2);
      if o == Normal { OneAction(obs, negates, Leave(st.name), [], 0, u, d2); } else { assert close + u == u; }
    }
  }

  // --- rounds ---

  ghost function Test<S>(act: Act<S>, st: Stmt, bound: int, s: S): (int, S)
    requires IsLoop(st)
  {
    if st.While? then Eval(act, st.cond, Val, s) else if st.For? then act(ForMore(st.v, st.dir), [bound], s) else (1, s)
  }

  function TestDone<D>(obs: (Action, D) -> D, st: Stmt, d: D): D
    requires IsLoop(st)
  {
    if st.While? then Full(obs, st.cond, Val, d) else if st.For? then obs(ForMore(st.v, st.dir), d) else d
  }

  function StepDone<D>(obs: (Action, D) -> D, st: Stmt, d: D): D
    requires IsLoop(st)
  {
    if st.For? then obs(ForStep(st.v, st.dir), d) else d
  }

  ghost predicate TestOn<D>(act: Act<Driven<D>>, st: Stmt, bound: int, t: seq<int>, d: D, want: bool, u: seq<int>, d2: D)
    requires IsLoop(st)
  {
    var (v, r) := Test(act, st, bound, Driven(Some(t), d));
    (v != 0 <==> want) && r == Driven(Some(u), d2)
  }

  ghost predicate Tests<D>(act: Act<Driven<D>>, st: Stmt, w: seq<int>, d: D, want: bool, d2: D)
    requires IsLoop(st)
  {
    forall u: seq<int>, bound :: TestOn(act, st, bound, w + u, d, want, u, d2)
  }

  // A `loop` has no test that could fail.
  lemma {:induction false} TestPath<D>(obs: (Action, D) -> D, negates: bool, st: Stmt, d: D, want: bool) returns (w: seq<int>)
    requires IsLoop(st) && (st.Loop? ==> want)
    ensures Tests(Drive(obs, negates), st, w, d, want, TestDone(obs, st, d))
  {
    var act, d2 := Drive(obs, negates), TestDone(obs, st, d);
    if st.While? {
      w := ExprPath(obs, negates, st.cond, Val, d, want);
      forall u, bound ensures TestOn(act, st, bound, w + u, d, want, u, d2) { assert EvalsOn(act, st.cond, Val, w + u, d, want, u, d2); }
    } else if st.For? {
      w := [Sign(want)];
      forall u, bound ensures TestOn(act, st, bound, w + u, d, want, u, d2) { OneAction(obs, negates, ForMore(st.v, st.dir), [bound], Sign(want), u, d); }
    } else {
      w := [];
      forall u: seq<int>, bound ensures TestOn(act, st, bound, w + u, d, want, u, d2) { assert w + u == u; }
    }
  }

  lemma TestFails<D>(act: Act<Driven<D>>, st: Stmt, w: seq<int>, d: D, d2: D)
    requires IsLoop(st) && Tests(act, st, w, d, false, d2)
    ensures RoundTakes(act, st, w, d, 1, Broke, d2)
  {
    forall u, fuel: nat, bound, inc | fuel >= 1 ensures RoundOn(act, st, bound, inc, w + u, d, fuel, Broke, u, d2) {
      assert TestOn(act, st, bound, w + u, d, false, u, d2);
    }
  }

  // What a round makes of the outcome of its body.
  function RoundOutcome(o: Outcome): Outcome { if o == Continued then Normal else o }

  function RoundDone<D>(obs: (Action, D) -> D, st: Stmt, o: Outcome, d: D): D
    requires IsLoop(st)
  {
    if RoundOutcome(o) == Normal then StepDone(obs, st, d) else d
  }

  // What the step of a counted loop reads.
  function StepTape(st: Stmt, o: Outcome): seq<int> { if st.For? && RoundOutcome(o) == Normal then [0] else [] }

  lemma {:induction false} BodyRuns<D>(obs: (Action, D) -> D, negates: bool, st: Stmt, w1: seq<int>, d: D, d1: D, w2: seq<int>, k: nat, o: Outcome, d2: D) returns (w: seq<int>)
    requires IsLoop(st) && Tests(Drive(obs, negates), st, w1, d, true, d1) && BlockTakes(Drive(obs, negates), st.body, w2, d1, k, o, d2)
    ensures RoundTakes(Drive(obs, negates), st, w, d, k + 1, RoundOutcome(o), RoundDone(obs, st, o, d2))
    ensures w == w1 + (w2 + StepTape(st, o))
  {
    var act, step := Drive(obs, negates), StepTape(st, o);
    w := w1 + (w2 + step);
    forall u, fuel: nat, bound, inc | fuel >= k + 1 ensures RoundOn(act, st, bound, inc, w + u, d, fuel, RoundOutcome(o), u, RoundDone(obs, st, o, d2)) {
      Concat(w1, w2 + step, u);
      Concat(w2, step, u);
      assert TestOn(act, st, bound, w1 + (w2 + (step + u)), d, true, w2 + (step + u), d1);
      assert FromOn(act, st.body, 0, w2 + (step + u), d1, fuel - 1, o, step + u, d2);
      if step == [] { assert step + u == u; } else { OneAction(obs, negates, ForStep(st.v, st.dir), [inc], 0, u, d2); }
    }
  }

  lemma LastRound<D>(act: Act<Driven<D>>, st: Stmt, w: seq<int>, d: D, k: nat, o: Outcome, d2: D)
    requires IsLoop(st) && RoundTakes(act, st, w, d, k, o, d2) && o != Normal
    ensures RoundsTake(act, st, w, d, k + 1, if o == Broke then Normal else o, d2)
  {
    var after := if o == Broke then Normal else o;
    forall u, fuel: nat, bound, inc | fuel >= k + 1 ensures RoundsOn(act, st, bound, inc, w + u, d, fuel, after, u, d2) {
      assert RoundOn(act, st, bound, inc, w + u, d, fuel, o, u, d2);
      RoundsUnroll(act, st, bound, inc, Driven(Some(w + u), d), fuel);
    }
  }

  lemma FirstRound<D>(act: Act<Driven<D>>, st: Stmt, w1: seq<int>, d: D, k1: nat, d1: D, w2: seq<int>, k2: nat, o: Outcome, d2: D)
    requires IsLoop(st) && RoundTakes(act, st, w1, d, k1, Normal, d1) && RoundsTake(act, st, w2, d1, k2, o, d2)
    ensures RoundsTake(act, st, w1 + w2, d, Max(k1, k2) + 1, o, d2)
  {
    forall u, fuel: nat, bound, inc | fuel >= Max(k1, k2) + 1 ensures RoundsOn(act, st, bound, inc, w1 + w2 + u, d, fuel, o, u, d2) {
      Concat(w1, w2, u);
      assert RoundOn(act, st, bound, inc, w1 + (w2 + u), d, fuel, Normal, w2 + u, d1);
      assert RoundsOn(act, st, bound, inc, w2 + u, d1, fuel - 1, o, u, d2);
      RoundsUnroll(act, st, bound, inc, Driven(Some(w1 + w2 + u), d), fuel);
    }
  }

  // --- loops as statements ---

  // What happens before the first round, and the bound and the step it yields.
  ghost function Entry<S>(act: Act<S>, st: Stmt, s: S): (int, int, S)
    requires IsLoop(st)
  {
    if !st.For? then (0, 0, s)
    else
      var (v, s1) := Eval(act, st.start, Val, s);
      var (bound, s2) := Eval(act, st.end, Val, s1);
      var (inc, s3) := EvalStep(act, st.step, s2);
      (bound, inc, act(ForInit(st.v), [v], s3).1)
  }

  lemma LoopIsRounds<S>(act: Act<S>, st: Stmt, s: S, fuel: nat)
    requires IsLoop(st)
    ensures var (bound, inc, s1) := Entry(act, st, s); ExecStmt(act, st, s, fuel) == Rounds(act, st, bound, inc, s1, fuel)
  {}

  function EntryDone<D>(obs: (Action, D) -> D, st: Stmt, d: D): D
    requires IsLoop(st)
  {
    if !st.For? then d
    else obs(ForInit(st.v), FullOpt(obs, st.step, Full(obs, st.end, Val, Full(obs, st.start, Val, d))))
  }

  ghost predicate EntryOn<D>(act: Act<Driven<D>>, st: Stmt, t: seq<int>, d: D, u: seq<int>, d2: D)
    requires IsLoop(st)
  {
    Entry(act, st, Driven(Some(t), d)).2 == Driven(Some(u), d2)
  }

  lemma {:induction false} EntryPath<D>(obs: (Action, D) -> D, negates: bool, st: Stmt, d: D) returns (w: seq<int>)
    requires IsLoop(st)
    ensures forall u :: EntryOn(Drive(obs, negates), st, w + u, d, u, EntryDone(obs, st, d))
  {
    var act := Drive(obs, negates);
    if !st.For? {
      w := [];
      forall u: seq<int> ensures EntryOn(act, st, w + u, d, u, d) { assert w + u == u; }
    } else {
      var d1 := Full(obs, st.start, Val, d);
      var d2 := Full(obs, st.end, Val, d1);
      var d3 := FullOpt(obs, st.step, d2);
      var w1 := ExprPath(obs, negates, st.start, Val, d, true);
      var w2 := ExprPath(obs, negates, st.end, Val, d1, true);
      var w3 := OptPath(obs, negates, st.step, d2);
      w := w1 + (w2 + (w3 + [0]));
      forall u ensures EntryOn(act, st, w + u, d, u, EntryDone(obs, st, d)) {
        Concat(w1, w2 + (w3 + [0]), u);
        Concat(w2, w3 + [0], u);
        Concat(w3, [0], u);
        assert EvalsOn(act, st.start, Val, w1 + (w2 + (w3 + ([0] + u))), d, true, w2 + (w3 + ([0] + u)), d1);
        assert EvalsOn(act, st.end, Val, w2 + (w3 + ([0] + u)), d1, true, w3 + ([0] + u), d2);
        assert OptOn(act, st.step, w3 + ([0] + u), d2, [0] + u, d3);
        OneAction(obs, negates, ForInit(st.v), [Eval(act, st.start, Val, Driven(Some(w + u), d)).0], 0, u, d3);
      }
    }
  }

  lemma LoopTakes<D>(act: Act<Driven<D>>, st: Stmt, w1: seq<int>, d: D, d1: D, w2: seq<int>, k: nat, o: Outcome, d2: D)
    requires IsLoop(st) && (forall u :: EntryOn(act, st, w1 + u, d, u, d1)) && RoundsTake(act, st, w2, d1, k, o, d2)
    ensures StmtTakes(act, st, w1 + w2, d, k, o, d2)
  {
    forall u, fuel: nat | fuel >= k ensures StmtOn(act, st, w1 + w2 + u, d, fuel, o, u, d2) {
      Concat(w1, w2, u);
      var s := Driven(Some(w1 + w2 + u), d);
      assert EntryOn(act, st, w1 + (w2 + u), d, w2 + u, d1);
      var (bound, inc, s1) := Entry(act, st, s);
      assert RoundsOn(act, st, bound, inc, w2 + u, d1, fuel, o, u, d2);
      LoopIsRounds(act, st, s, fuel);
    }
  }

  // --- fuel ---

  // More fuel changes no run that ends.
  lemma {:induction false} MoreFuel<S>(act: Act<S>, b: Block, i: nat, s: S, fuel: nat, more: nat)
    requires i <= |b.stmts| && fuel <= more && ExecFrom(act, b, i, s, fuel).0 != Timeout
    ensures ExecFrom(act, b, i, s, more) == ExecFrom(act, b, i, s, fuel)
    decreases fuel, b, |b.stmts| - i
  {
    if i < |b.stmts| {
      MoreFuelStmt(act, b.stmts[i], s, fuel, more);
      var (o, s1) := ExecStmt(act, b.stmts[i], s, fuel);
      if o == Normal { MoreFuel(act, b, i + 1, s1, fuel, more); }
    }
  }

  lemma {:induction false} MoreFuelStmt<S>(act: Act<S>, st: Stmt, s: S, fuel: nat, more: nat)
    requires fuel <= more && ExecStmt(act, st, s, fuel).0 != Timeout
    ensures ExecStmt(act, st, s, more) == ExecStmt(act, st, s, fuel)
    decreases fuel, st, 2
  {
    match st
    case If(c, t, e) =>
      var (v, s1) := Eval(act, c, Val, s);
      var b := if v != 0 then t else e;
      assert ExecBlock(act, b, s1, fuel) == ExecFrom(act, b, 0, s1, fuel) && ExecBlock(act, b, s1, more) == ExecFrom(act, b, 0, s1, more);
      MoreFuel(act, b, 0, s1, fuel, more);
    case Match(e, _) =>
      var (v, s1) := Eval(act, e, Val, s);
      MoreFuelArms(act, st, 0, v, s1, fuel, more);
    case BlockStmt(b) =>
      assert ExecBlock(act, b, s, fuel) == ExecFrom(act, b, 0, s, fuel) && ExecBlock(act, b, s, more) == ExecFrom(act, b, 0, s, more);
      MoreFuel(act, b, 0, s, fuel, more);
    case Claim(x, b) => MoreFuel(act, b, 0, act(Enter(x), [], s).1, fuel, more);
    case Loop(_) => MoreFuelRounds(act, st, 0, 0, s, fuel, more);
    case While(_, _) => MoreFuelRounds(act, st, 0, 0, s, fuel, more);
    case For(_, _, _, _, _, _) =>
      LoopIsRounds(act, st, s, fuel);
      LoopIsRounds(act, st, s, more);
      var (bound, inc, s1) := Entry(act, st, s);
      MoreFuelRounds(act, st, bound, inc, s1, fuel, more);
    case _ =>
  }

  lemma {:induction false} MoreFuelRounds<S>(act: Act<S>, st: Stmt, bound: int, inc: int, s: S, fuel: nat, more: nat)
    requires IsLoop(st) && fuel <= more && Rounds(act, st, bound, inc, s, fuel).0 != Timeout
    ensures Rounds(act, st, bound, inc, s, more) == Rounds(act, st, bound, inc, s, fuel)
    decreases fuel, st, 1
  {
    assert fuel > 0;
    RoundsUnroll(act, st, bound, inc, s, fuel);
    RoundsUnroll(act, st, bound, inc, s, more);
    var (v, s1) := Test(act, st, bound, s);
    if v != 0 { MoreFuel(act, st.body, 0, s1, fuel - 1, more - 1); }
    assert Round(act, st, bound, inc, s, more) == Round(act, st, bound, inc, s, fuel);
    var (o, s2) := Round(act, st, bound, inc, s, fuel);
    if o == Normal { MoreFuelRounds(act, st, bound, inc, s2, fuel - 1, more - 1); }
  }

  lemma {:induction false} MoreFuelArms<S>(act: Act<S>, st: Stmt, i: nat, v: int, s: S, fuel: nat, more: nat)
    requires st.Match? && i <= |st.arms| && fuel <= more && ExecArms(act, st, i, v, s, fuel).0 != Timeout
    ensures ExecArms(act, st, i, v, s, more) == ExecArms(act, st, i, v, s, fuel)
    decreases fuel, st, 1, |st.arms| - i
  {
    if i < |st.arms| {
      var b := st.arms[i].body;
      var (hit, s1) := act(Select(st.arms[i].patterns), [v], s);
      var s2 := if PWild in st.arms[i].patterns then s else s1;
      if PWild in st.arms[i].patterns || hit != 0 {
        assert ExecBlock(act, b, s2, fuel) == ExecFrom(act, b, 0, s2, fuel) && ExecBlock(act, b, s2, more) == ExecFrom(act, b, 0, s2, more);
        MoreFuel(act, b, 0, s2, fuel, more);
      } else {
        MoreFuelArms(act, st, i + 1, v, s1, fuel, more);
      }
    }
  }

  // --- matches ---

  lemma MatchTakes<D>(act: Act<Driven<D>>, st: Stmt, want: bool, w1: seq<int>, d: D, d1: D, w2: seq<int>, k: nat, o: Outcome, d2: D)
    requires st.Match? && Evals(act, st.scrutinee, Val, w1, d, want, d1) && ArmsTake(act, st, 0, w2, d1, k, o, d2)
    ensures StmtTakes(act, st, w1 + w2, d, k, o, d2)
  {
    forall u, fuel: nat | fuel >= k ensures StmtOn(act, st, w1 + w2 + u, d, fuel, o, u, d2) {
      Concat(w1, w2, u);
      assert EvalsOn(act, st.scrutinee, Val, w1 + (w2 + u), d, want, w2 + u, d1);
      var v := Eval(act, st.scrutinee, Val, Driven(Some(w1 + w2 + u), d)).0;
      assert ArmsOn(act, st, 0, v, w2 + u, d1, fuel, o, u, d2);
    }
  }

  lemma NoArm<D>(act: Act<Driven<D>>, st: Stmt, d: D)
    requires st.Match?
    ensures ArmsTake(act, st, |st.arms|, [], d, 0, Normal, d)
  {
    forall u: seq<int>, fuel: nat, v ensures ArmsOn(act, st, |st.arms|, v, [] + u, d, fuel, Normal, u, d) { assert [] + u == u; }
  }

  lemma WildArm<D>(act: Act<Driven<D>>, st: Stmt, i: nat, w: seq<int>, d: D, k: nat, o: Outcome, d2: D)
    requires st.Match? && i < |st.arms| && PWild in st.arms[i].patterns && BlockTakes(act, st.arms[i].body, w, d, k, o, d2)
    ensures ArmsTake(act, st, i, w, d, k, o, d2)
  {
    forall u, fuel: nat, v | fuel >= k ensures ArmsOn(act, st, i, v, w + u, d, fuel, o, u, d2) {
      assert FromOn(act, st.arms[i].body, 0, w + u, d, fuel, o, u, d2);
    }
  }

  // The test of an arm, and the arm or the rest of the chain.
  lemma {:induction false} TestedArm<D>(obs: (Action, D) -> D, negates: bool, st: Stmt, i: nat, hit: bool, w: seq<int>, d: D, k: nat, o: Outcome, d2: D) returns (w': seq<int>)
    requires st.Match? && i < |st.arms| && PWild !in st.arms[i].patterns
    requires var (act, d1) := (Drive(obs, negates), obs(Select(st.arms[i].patterns), d));
      if hit then BlockTakes(act, st.arms[i].body, w, d1, k, o, d2) else ArmsTake(act, st, i + 1, w, d1, k, o, d2)
    ensures w' == [Sign(hit)] + w && ArmsTake(Drive(obs, negates), st, i, w', d, k, o, d2)
  {
    var act, a := Drive(obs, negates), Select(st.arms[i].patterns);
    w' := [Sign(hit)] + w;
    forall u, fuel: nat, v | fuel >= k ensures ArmsOn(act, st, i, v, w' + u, d, fuel, o, u, d2) {
      Concat([Sign(hit)], w, u);
      OneAction(obs, negates, a, [v], Sign(hit), w + u, d);
      if hit {
        assert FromOn(act, st.arms[i].body, 0, w + u, obs(a, d), fuel, o, u, d2);
      } else {
        assert ArmsOn(act, st, i + 1, v, w + u, obs(a, d), fuel, o, u, d2);
      }
    }
  }
}
