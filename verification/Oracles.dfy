// Tapes are every choice of values: whatever the actions compute, from a state
// of whatever kind, the run is one that reads its values from some tape.
module Oracles {
  import opened Ast
  import opened Semantics
  import opened Tapes
  import opened Paths

  // Any meaning of the actions, beside an observation of them.
  function Beside<E, D>(base: Act<E>, obs: (Action, D) -> D): Act<(E, D)> {
    (a: Action, vs: seq<int>, s: (E, D)) => var (v, e) := base(a, vs, s.0); (v, (e, obs(a, s.1)))
  }

  lemma ActionTape<E, D>(base: Act<E>, obs: (Action, D) -> D, a: Action, vs: seq<int>, s: (E, D), u: seq<int>)
    ensures var (v, s1) := Beside(base, obs)(a, vs, s);
      Drive(obs, false)(a, vs, Driven(Some([v] + u), s.1)) == (v, Driven(Some(u), s1.1))
  {
    var (v, s1) := Beside(base, obs)(a, vs, s);
    assert s1.1 == obs(a, s.1);
    OneAction(obs, false, a, vs, v, u, s.1);
    var (x, r) := Drive(obs, false)(a, vs, Driven(Some([v] + u), s.1));
    assert x == v && r == Driven(Some(u), s1.1);
  }

  // --- expressions ---

  ghost predicate ValueOn<D>(act: Act<Driven<D>>, e: Expr, mode: Mode, t: seq<int>, d: D, v: int, u: seq<int>, d2: D) {
    Eval(act, e, mode, Driven(Some(t), d)) == (v, Driven(Some(u), d2))
  }

  lemma {:induction false} EvalTape<E, D>(base: Act<E>, obs: (Action, D) -> D, e: Expr, mode: Mode, s: (E, D)) returns (w: seq<int>)
    ensures var (v, s1) := Eval(Beside(base, obs), e, mode, s); forall u :: ValueOn(Drive(obs, false), e, mode, w + u, s.1, v, u, s1.1)
    decreases e, 1
  {
    var (act, tape) := (Beside(base, obs), Drive(obs, false));
    var (v, s1) := Eval(act, e, mode, s);
    if e.Ident? {
      var a := if mode == Val then Read(e.name) else Addr(e.name);
      w := [v];
      forall u ensures ValueOn(tape, e, mode, w + u, s.1, v, u, s1.1) { ActionTape(base, obs, a, [], s, u); }
    } else if e.Group? {
      w := EvalTape(base, obs, e.inner, mode, s);
      forall u ensures ValueOn(tape, e, mode, w + u, s.1, v, u, s1.1) { assert ValueOn(tape, e.inner, mode, w + u, s.1, v, u, s1.1); }
    } else if Logical(e) {
      w := LogicalTape(base, obs, e, mode, s);
    } else {
      w := NodeTape(base, obs, e, mode, s);
    }
  }

  lemma {:induction false} LogicalTape<E, D>(base: Act<E>, obs: (Action, D) -> D, e: Expr, mode: Mode, s: (E, D)) returns (w: seq<int>)
    requires Logical(e)
    ensures var (v, s1) := Eval(Beside(base, obs), e, mode, s); forall u :: ValueOn(Drive(obs, false), e, mode, w + u, s.1, v, u, s1.1)
    decreases e, 0
  {
    var (act, tape) := (Beside(base, obs), Drive(obs, false));
    var (v, s2) := Eval(act, e, mode, s);
    var (v1, s1) := Eval(act, e.left, Val, s);
    var w1 := EvalTape(base, obs, e.left, Val, s);
    var on, w2 := (v1 != 0) == (e.bop == And), [];
    if on { w2 := EvalTape(base, obs, e.right, Val, s1); }
    w := w1 + w2;
    forall u ensures ValueOn(tape, e, mode, w + u, s.1, v, u, s2.1) {
      Concat(w1, w2, u);
      assert ValueOn(tape, e.left, Val, w1 + (w2 + u), s.1, v1, w2 + u, s1.1);
      if on { assert ValueOn(tape, e.right, Val, w2 + u, s1.1, v, u, s2.1); } else { assert w2 + u == u; }
    }
  }

  lemma {:induction false} NodeTape<E, D>(base: Act<E>, obs: (Action, D) -> D, e: Expr, mode: Mode, s: (E, D)) returns (w: seq<int>)
    requires !e.Ident? && !e.Group? && !Logical(e)
    ensures var (v, s1) := Eval(Beside(base, obs), e, mode, s); forall u :: ValueOn(Drive(obs, false), e, mode, w + u, s.1, v, u, s1.1)
    decreases e, 0
  {
    var (act, tape, ps) := (Beside(base, obs), Drive(obs, false), Parts(e, mode));
    var (vs, s1) := EvalParts(act, e, ps, s);
    var (v, s2) := act(Node(e), vs, s1);
    var w1 := PartsTape(base, obs, e, ps, s);
    w := w1 + [v];
    forall u ensures ValueOn(tape, e, mode, w + u, s.1, v, u, s2.1) {
      Concat(w1, [v], u);
      assert ValuesOn(tape, e, ps, w1 + ([v] + u), s.1, vs, [v] + u, s1.1);
      ActionTape(base, obs, Node(e), vs, s1, u);
    }
  }

  ghost predicate ValuesOn<D>(act: Act<Driven<D>>, whole: Expr, ps: seq<(Expr, Mode)>, t: seq<int>, d: D, vs: seq<int>, u: seq<int>, d2: D)
    requires forall p <- ps :: p.0 < whole
  {
    EvalParts(act, whole, ps, Driven(Some(t), d)) == (vs, Driven(Some(u), d2))
  }

  lemma {:induction false} PartsTape<E, D>(base: Act<E>, obs: (Action, D) -> D, whole: Expr, ps: seq<(Expr, Mode)>, s: (E, D)) returns (w: seq<int>)
    requires forall p <- ps :: p.0 < whole
    ensures var (vs, s1) := EvalParts(Beside(base, obs), whole, ps, s); forall u :: ValuesOn(Drive(obs, false), whole, ps, w + u, s.1, vs, u, s1.1)
    decreases whole, 0, |ps|
  {
    var (act, tape) := (Beside(base, obs), Drive(obs, false));
    var (vs, s2) := EvalParts(act, whole, ps, s);
    if ps == [] {
      w := [];
      forall u: seq<int> ensures ValuesOn(tape, whole, ps, w + u, s.1, vs, u, s2.1) { assert w + u == u; }
    } else {
      var (v1, s1) := Eval(act, ps[0].0, ps[0].1, s);
      var w1 := EvalTape(base, obs, ps[0].0, ps[0].1, s);
      var w2 := PartsTape(base, obs, whole, ps[1..], s1);
      w := w1 + w2;
      forall u ensures ValuesOn(tape, whole, ps, w + u, s.1, vs, u, s2.1) {
        Concat(w1, w2, u);
        assert ValueOn(tape, ps[0].0, ps[0].1, w1 + (w2 + u), s.1, v1, w2 + u, s1.1);
        assert ValuesOn(tape, whole, ps[1..], w2 + u, s1.1, vs[1..], u, s2.1);
      }
    }
  }

  ghost predicate PlaceOn<D>(act: Act<Driven<D>>, ps: seq<(Expr, Mode)>, t: seq<int>, d: D, vs: seq<int>, u: seq<int>, d2: D) {
    EvalTarget(act, ps, Driven(Some(t), d)) == (vs, Driven(Some(u), d2))
  }

  lemma {:induction false} PlaceTape<E, D>(base: Act<E>, obs: (Action, D) -> D, ps: seq<(Expr, Mode)>, s: (E, D)) returns (w: seq<int>)
    ensures var (vs, s1) := EvalTarget(Beside(base, obs), ps, s); forall u :: PlaceOn(Drive(obs, false), ps, w + u, s.1, vs, u, s1.1)
    decreases |ps|
  {
    var (act, tape) := (Beside(base, obs), Drive(obs, false));
    var (vs, s2) := EvalTarget(act, ps, s);
    if ps == [] {
      w := [];
      forall u: seq<int> ensures PlaceOn(tape, ps, w + u, s.1, vs, u, s2.1) { assert w + u == u; }
    } else {
      var (v1, s1) := Eval(act, ps[0].0, ps[0].1, s);
      var w1 := EvalTape(base, obs, ps[0].0, ps[0].1, s);
      var w2 := PlaceTape(base, obs, ps[1..], s1);
      w := w1 + w2;
      forall u ensures PlaceOn(tape, ps, w + u, s.1, vs, u, s2.1) {
        Concat(w1, w2, u);
        assert ValueOn(tape, ps[0].0, ps[0].1, w1 + (w2 + u), s.1, v1, w2 + u, s1.1);
        assert PlaceOn(tape, ps[1..], w2 + u, s1.1, vs[1..], u, s2.1);
      }
    }
  }

  ghost predicate StepOn<D>(act: Act<Driven<D>>, e: Option<Expr>, t: seq<int>, d: D, v: int, u: seq<int>, d2: D) {
    EvalStep(act, e, Driven(Some(t), d)) == (v, Driven(Some(u), d2)) && EvalOpt(act, e, Driven(Some(t), d)) == Driven(Some(u), d2)
  }

  lemma {:induction false} OptTape<E, D>(base: Act<E>, obs: (Action, D) -> D, e: Option<Expr>, s: (E, D)) returns (w: seq<int>)
    ensures EvalStep(Beside(base, obs), e, s).1 == EvalOpt(Beside(base, obs), e, s)
    ensures var (v, s1) := EvalStep(Beside(base, obs), e, s); forall u :: StepOn(Drive(obs, false), e, w + u, s.1, v, u, s1.1)
  {
    var tape := Drive(obs, false);
    var (v, s1) := EvalStep(Beside(base, obs), e, s);
    if e.None? {
      w := [];
      forall u: seq<int> ensures StepOn(tape, e, w + u, s.1, v, u, s1.1) { assert w + u == u; }
    } else {
      w := EvalTape(base, obs, e.value, Val, s);
      forall u ensures StepOn(tape, e, w + u, s.1, v, u, s1.1) { assert ValueOn(tape, e.value, Val, w + u, s.1, v, u, s1.1); }
    }
  }

  // --- straight statements ---

  // An expression and one action on its value.
  lemma {:induction false} ThenTape<E, D>(base: Act<E>, obs: (Action, D) -> D, e: Expr, a: Action, st: Stmt, s: (E, D), fuel: nat) returns (w: seq<int>)
    requires (st.VarDecl? && e == st.init && a == Declare(st.name, st.moves)) || (st == Return(Some(e)) && a == Result)
    ensures var (o, s1) := ExecStmt(Beside(base, obs), st, s, fuel); forall u :: StmtOn(Drive(obs, false), st, w + u, s.1, fuel, o, u, s1.1)
  {
    var (act, tape) := (Beside(base, obs), Drive(obs, false));
    var (o, s2) := ExecStmt(act, st, s, fuel);
    var (v, s1) := Eval(act, e, Val, s);
    var last := [act(a, [v], s1).0];
    var w1 := EvalTape(base, obs, e, Val, s);
    w := w1 + last;
    forall u ensures StmtOn(tape, st, w + u, s.1, fuel, o, u, s2.1) {
      Concat(w1, last, u);
      assert ValueOn(tape, e, Val, w1 + (last + u), s.1, v, last + u, s1.1);
      ActionTape(base, obs, a, [v], s1, u);
    }
  }

  lemma {:induction false} AssignTape<E, D>(base: Act<E>, obs: (Action, D) -> D, lv: LValue, value: Expr, st: Stmt, s: (E, D), fuel: nat) returns (w: seq<int>)
    requires st == Assign(lv, value) || (st.CompoundAssign? && st.target == lv && value == Binary(lv.ToExpr(), st.op, st.value))
    ensures var (o, s1) := ExecStmt(Beside(base, obs), st, s, fuel); forall u :: StmtOn(Drive(obs, false), st, w + u, s.1, fuel, o, u, s1.1)
  {
    var (act, tape, ps) := (Beside(base, obs), Drive(obs, false), TargetParts(lv));
    var (o, s3) := ExecStmt(act, st, s, fuel);
    var (v, s1) := Eval(act, value, Val, s);
    var (vs, s2) := EvalTarget(act, ps, s1);
    var last := [act(Store(lv), vs + [v], s2).0];
    var w1 := EvalTape(base, obs, value, Val, s);
    var w2 := PlaceTape(base, obs, ps, s1);
    w := w1 + (w2 + last);
    forall u ensures StmtOn(tape, st, w + u, s.1, fuel, o, u, s3.1) {
      Concat(w1, w2 + last, u);
      Concat(w2, last, u);
      assert ValueOn(tape, value, Val, w1 + (w2 + (last + u)), s.1, v, w2 + (last + u), s1.1);
      assert PlaceOn(tape, ps, w2 + (last + u), s1.1, vs, last + u, s2.1);
      ActionTape(base, obs, Store(lv), vs + [v], s2, u);
    }
  }

  lemma {:induction false} StraightTape<E, D>(base: Act<E>, obs: (Action, D) -> D, st: Stmt, s: (E, D), fuel: nat) returns (w: seq<int>)
    requires Straight(st)
    ensures var (o, s1) := ExecStmt(Beside(base, obs), st, s, fuel); forall u :: StmtOn(Drive(obs, false), st, w + u, s.1, fuel, o, u, s1.1)
  {
    var tape := Drive(obs, false);
    var (o, s1) := ExecStmt(Beside(base, obs), st, s, fuel);
    if st.VarDecl? {
      w := ThenTape(base, obs, st.init, Declare(st.name, st.moves), st, s, fuel);
    } else if st.Assign? {
      w := AssignTape(base, obs, st.target, st.value, st, s, fuel);
    } else if st.CompoundAssign? {
      w := AssignTape(base, obs, st.target, Binary(st.target.ToExpr(), st.op, st.value), st, s, fuel);
    } else if st.Return? && st.result.Some? {
      w := ThenTape(base, obs, st.result.value, Result, st, s, fuel);
    } else if st.ExprStmt? {
      w := EvalTape(base, obs, st.e, Val, s);
      var v := Eval(Beside(base, obs), st.e, Val, s).0;
      forall u ensures StmtOn(tape, st, w + u, s.1, fuel, o, u, s1.1) { assert ValueOn(tape, st.e, Val, w + u, s.1, v, u, s1.1); }
    } else {
      w := [];
      forall u: seq<int> ensures StmtOn(tape, st, w + u, s.1, fuel, o, u, s1.1) { assert w + u == u; }
    }
  }

  // --- blocks and branches ---

  lemma {:induction false} FromTape<E, D>(base: Act<E>, obs: (Action, D) -> D, b: Block, i: nat, s: (E, D), fuel: nat) returns (w: seq<int>)
    requires i <= |b.stmts|
    ensures var (o, s1) := ExecFrom(Beside(base, obs), b, i, s, fuel); forall u :: FromOn(Drive(obs, false), b, i, w + u, s.1, fuel, o, u, s1.1)
    decreases fuel, b, |b.stmts| - i
  {
    var (act, tape) := (Beside(base, obs), Drive(obs, false));
    var (o, s2) := ExecFrom(act, b, i, s, fuel);
    if i == |b.stmts| {
      w := OptTape(base, obs, b.trailing, s);
      var v := EvalStep(act, b.trailing, s).0;
      forall u ensures FromOn(tape, b, i, w + u, s.1, fuel, o, u, s2.1) { assert StepOn(tape, b.trailing, w + u, s.1, v, u, s2.1); }
    } else {
      var (o1, s1) := ExecStmt(act, b.stmts[i], s, fuel);
      var w1 := StmtTape(base, obs, b.stmts[i], s, fuel);
      var w2 := [];
      if o1 == Normal { w2 := FromTape(base, obs, b, i + 1, s1, fuel); }
      w := w1 + w2;
      forall u ensures FromOn(tape, b, i, w + u, s.1, fuel, o, u, s2.1) {
        Concat(w1, w2, u);
        assert StmtOn(tape, b.stmts[i], w1 + (w2 + u), s.1, fuel, o1, w2 + u, s1.1);
        if o1 == Normal { assert FromOn(tape, b, i + 1, w2 + u, s1.1, fuel, o, u, s2.1); } else { assert w2 + u == u; }
      }
    }
  }

  ghost predicate BlockOn<D>(act: Act<Driven<D>>, b: Block, t: seq<int>, d: D, fuel: nat, o: Outcome, u: seq<int>, d2: D) {
    ExecBlock(act, b, Driven(Some(t), d), fuel) == (o, Driven(Some(u), d2))
  }

  lemma {:induction false} BlockTape<E, D>(base: Act<E>, obs: (Action, D) -> D, b: Block, s: (E, D), fuel: nat) returns (w: seq<int>)
    ensures var (o, s1) := ExecBlock(Beside(base, obs), b, s, fuel); forall u :: BlockOn(Drive(obs, false), b, w + u, s.1, fuel, o, u, s1.1)
    decreases fuel, b, |b.stmts| + 1
  {
    var tape := Drive(obs, false);
    var (o, s1) := ExecBlock(Beside(base, obs), b, s, fuel);
    w := FromTape(base, obs, b, 0, s, fuel);
    forall u ensures BlockOn(tape, b, w + u, s.1, fuel, o, u, s1.1) { assert FromOn(tape, b, 0, w + u, s.1, fuel, o, u, s1.1); }
  }

  lemma {:induction false} StmtTape<E, D>(base: Act<E>, obs: (Action, D) -> D, st: Stmt, s: (E, D), fuel: nat) returns (w: seq<int>)
    ensures var (o, s1) := ExecStmt(Beside(base, obs), st, s, fuel); forall u :: StmtOn(Drive(obs, false), st, w + u, s.1, fuel, o, u, s1.1)
    decreases fuel, st, 4
  {
    var tape := Drive(obs, false);
    var (o, s1) := ExecStmt(Beside(base, obs), st, s, fuel);
    if Straight(st) {
      w := StraightTape(base, obs, st, s, fuel);
    } else if IsLoop(st) {
      w := LoopTape(base, obs, st, s, fuel);
    } else if st.BlockStmt? {
      w := BlockTape(base, obs, st.b, s, fuel);
      forall u ensures StmtOn(tape, st, w + u, s.1, fuel, o, u, s1.1) { assert BlockOn(tape, st.b, w + u, s.1, fuel, o, u, s1.1); }
    } else if st.Claim? {
      w := ClaimTape(base, obs, st, s, fuel);
    } else {
      w := BranchTape(base, obs, st, s, fuel);
    }
  }

  lemma {:induction false} BranchTape<E, D>(base: Act<E>, obs: (Action, D) -> D, st: Stmt, s: (E, D), fuel: nat) returns (w: seq<int>)
    requires st.If? || st.Match?
    ensures var (o, s1) := ExecStmt(Beside(base, obs), st, s, fuel); forall u :: StmtOn(Drive(obs, false), st, w + u, s.1, fuel, o, u, s1.1)
    decreases fuel, st, 3
  {
    var (act, tape) := (Beside(base, obs), Drive(obs, false));
    var (o, s2) := ExecStmt(act, st, s, fuel);
    var test := if st.If? then st.cond else st.scrutinee;
    var (v, s1) := Eval(act, test, Val, s);
    var w1 := EvalTape(base, obs, test, Val, s);
    var w2;
    if st.If? { w2 := BlockTape(base, obs, if v != 0 then st.thn else st.els, s1, fuel); } else { w2 := ArmsTape(base, obs, st, 0, v, s1, fuel); }
    w := w1 + w2;
    forall u ensures StmtOn(tape, st, w + u, s.1, fuel, o, u, s2.1) {
      Concat(w1, w2, u);
      assert ValueOn(tape, test, Val, w1 + (w2 + u), s.1, v, w2 + u, s1.1);
      if st.If? {
        assert BlockOn(tape, if v != 0 then st.thn else st.els, w2 + u, s1.1, fuel, o, u, s2.1);
      } else {
        assert ArmsOn(tape, st, 0, v, w2 + u, s1.1, fuel, o, u, s2.1);
      }
    }
  }

  lemma {:induction false} ArmsTape<E, D>(base: Act<E>, obs: (Action, D) -> D, st: Stmt, i: nat, v: int, s: (E, D), fuel: nat) returns (w: seq<int>)
    requires st.Match? && i <= |st.arms|
    ensures var (o, s1) := ExecArms(Beside(base, obs), st, i, v, s, fuel); forall u :: ArmsOn(Drive(obs, false), st, i, v, w + u, s.1, fuel, o, u, s1.1)
    decreases fuel, st, 1, |st.arms| - i
  {
    var (act, tape) := (Beside(base, obs), Drive(obs, false));
    var (o, s2) := ExecArms(act, st, i, v, s, fuel);
    if i == |st.arms| {
      w := [];
      forall u: seq<int> ensures ArmsOn(tape, st, i, v, w + u, s.1, fuel, o, u, s2.1) { assert w + u == u; }
    } else if PWild in st.arms[i].patterns {
      w := BlockTape(base, obs, st.arms[i].body, s, fuel);
      forall u ensures ArmsOn(tape, st, i, v, w + u, s.1, fuel, o, u, s2.1) { assert BlockOn(tape, st.arms[i].body, w + u, s.1, fuel, o, u, s2.1); }
    } else {
      var a := Select(st.arms[i].patterns);
      var (hit, s1) := act(a, [v], s);
      var w2;
      if hit != 0 { w2 := BlockTape(base, obs, st.arms[i].body, s1, fuel); } else { w2 := ArmsTape(base, obs, st, i + 1, v, s1, fuel); }
      w := [hit] + w2;
      forall u ensures ArmsOn(tape, st, i, v, w + u, s.1, fuel, o, u, s2.1) {
        Concat([hit], w2, u);
        ActionTape(base, obs, a, [v], s, w2 + u);
        if hit != 0 {
          assert BlockOn(tape, st.arms[i].body, w2 + u, s1.1, fuel, o, u, s2.1);
        } else {
          assert ArmsOn(tape, st, i + 1, v, w2 + u, s1.1, fuel, o, u, s2.1);
        }
      }
    }
  }

  lemma {:induction false} ClaimTape<E, D>(base: Act<E>, obs: (Action, D) -> D, st: Stmt, s: (E, D), fuel: nat) returns (w: seq<int>)
    requires st.Claim?
    ensures var (o, s1) := ExecStmt(Beside(base, obs), st, s, fuel); forall u :: StmtOn(Drive(obs, false), st, w + u, s.1, fuel, o, u, s1.1)
    decreases fuel, st, 3
  {
    var (act, tape) := (Beside(base, obs), Drive(obs, false));
    var (o, s3) := ExecStmt(act, st, s, fuel);
    var (v, s1) := act(Enter(st.name), [], s);
    var (o1, s2) := ExecBlock(act, st.body, s1, fuel);
    var w1 := BlockTape(base, obs, st.body, s1, fuel);
    var last := if o1 == Normal then [act(Leave(st.name), [], s2).0] else [];
    w := [v] + (w1 + last);
    forall u ensures StmtOn(tape, st, w + u, s.1, fuel, o, u, s3.1) {
      Concat([v], w1 + last, u);
      Concat(w1, last, u);
      ActionTape(base, obs, Enter(st.name), [], s, w1 + (last + u));
      assert BlockOn(tape, st.body, w1 + (last + u), s1.1, fuel, o1, last + u, s2.1);
      if o1 == Normal { ActionTape(base, obs, Leave(st.name), [], s2, u); } else { assert last + u == u; }
    }
  }

  // --- loops ---

  ghost predicate HeadOn<D>(act: Act<Driven<D>>, st: Stmt, t: seq<int>, d: D, bound: int, inc: int, u: seq<int>, d2: D)
    requires IsLoop(st)
  {
    Entry(act, st, Driven(Some(t), d)) == (bound, inc, Driven(Some(u), d2))
  }

  lemma {:induction false} HeadTape<E, D>(base: Act<E>, obs: (Action, D) -> D, st: Stmt, s: (E, D)) returns (w: seq<int>)
    requires IsLoop(st)
    ensures var (bound, inc, s1) := Entry(Beside(base, obs), st, s); forall u :: HeadOn(Drive(obs, false), st, w + u, s.1, bound, inc, u, s1.1)
  {
    var (act, tape) := (Beside(base, obs), Drive(obs, false));
    var (bound, inc, s4) := Entry(act, st, s);
    if !st.For? {
      w := [];
      forall u: seq<int> ensures HeadOn(tape, st, w + u, s.1, bound, inc, u, s4.1) { assert w + u == u; }
    } else {
      var (v, s1) := Eval(act, st.start, Val, s);
      var s2 := Eval(act, st.end, Val, s1).1;
      var s3 := EvalStep(act, st.step, s2).1;
      var last := [act(ForInit(st.v), [v], s3).0];
      var w1 := EvalTape(base, obs, st.start, Val, s);
      var w2 := EvalTape(base, obs, st.end, Val, s1);
      var w3 := OptTape(base, obs, st.step, s2);
      w := w1 + (w2 + (w3 + last));
      forall u ensures HeadOn(tape, st, w + u, s.1, bound, inc, u, s4.1) {
        Concat(w1, w2 + (w3 + last), u);
        Concat(w2, w3 + last, u);
        Concat(w3, last, u);
        assert ValueOn(tape, st.start, Val, w1 + (w2 + (w3 + (last + u))), s.1, v, w2 + (w3 + (last + u)), s1.1);
        assert ValueOn(tape, st.end, Val, w2 + (w3 + (last + u)), s1.1, bound, w3 + (last + u), s2.1);
        assert StepOn(tape, st.step, w3 + (last + u), s2.1, inc, last + u, s3.1);
        ActionTape(base, obs, ForInit(st.v), [v], s3, u);
      }
    }
  }

  lemma {:induction false} LoopTape<E, D>(base: Act<E>, obs: (Action, D) -> D, st: Stmt, s: (E, D), fuel: nat) returns (w: seq<int>)
    requires IsLoop(st)
    ensures var (o, s1) := ExecStmt(Beside(base, obs), st, s, fuel); forall u :: StmtOn(Drive(obs, false), st, w + u, s.1, fuel, o, u, s1.1)
    decreases fuel, st, 3
  {
    var (act, tape) := (Beside(base, obs), Drive(obs, false));
    LoopIsRounds(act, st, s, fuel);
    var (o, s2) := ExecStmt(act, st, s, fuel);
    var (bound, inc, s1) := Entry(act, st, s);
    var w1 := HeadTape(base, obs, st, s);
    var w2 := RoundsTape(base, obs, st, bound, inc, s1, fuel);
    w := w1 + w2;
    forall u ensures StmtOn(tape, st, w + u, s.1, fuel, o, u, s2.1) {
      Concat(w1, w2, u);
      LoopIsRounds(tape, st, Driven(Some(w + u), s.1), fuel);
      assert HeadOn(tape, st, w1 + (w2 + u), s.1, bound, inc, w2 + u, s1.1);
      assert RoundsOn(tape, st, bound, inc, w2 + u, s1.1, fuel, o, u, s2.1);
    }
  }

  lemma {:induction false} RoundsTape<E, D>(base: Act<E>, obs: (Action, D) -> D, st: Stmt, bound: int, inc: int, s: (E, D), fuel: nat) returns (w: seq<int>)
    requires IsLoop(st)
    ensures var (o, s1) := Rounds(Beside(base, obs), st, bound, inc, s, fuel);
      forall u :: RoundsOn(Drive(obs, false), st, bound, inc, w + u, s.1, fuel, o, u, s1.1)
    decreases fuel, st, 2
  {
    var (act, tape) := (Beside(base, obs), Drive(obs, false));
    var (o, s2) := Rounds(act, st, bound, inc, s, fuel);
    if fuel == 0 {
      w := [];
      forall u: seq<int> ensures RoundsOn(tape, st, bound, inc, w + u, s.1, fuel, o, u, s2.1) { assert w + u == u; }
    } else {
      RoundsUnroll(act, st, bound, inc, s, fuel);
      var (o1, s1) := Round(act, st, bound, inc, s, fuel);
      var w1 := RoundTape(base, obs, st, bound, inc, s, fuel);
      var w2 := [];
      if o1 == Normal { w2 := RoundsTape(base, obs, st, bound, inc, s1, fuel - 1); }
      w := w1 + w2;
      forall u ensures RoundsOn(tape, st, bound, inc, w + u, s.1, fuel, o, u, s2.1) {
        Concat(w1, w2, u);
        RoundsUnroll(tape, st, bound, inc, Driven(Some(w + u), s.1), fuel);
        assert RoundOn(tape, st, bound, inc, w1 + (w2 + u), s.1, fuel, o1, w2 + u, s1.1);
        if o1 == Normal { assert RoundsOn(tape, st, bound, inc, w2 + u, s1.1, fuel - 1, o, u, s2.1); } else { assert w2 + u == u; }
      }
    }
  }

  ghost predicate ProbeOn<D>(act: Act<Driven<D>>, st: Stmt, bound: int, t: seq<int>, d: D, v: int, u: seq<int>, d2: D)
    requires IsLoop(st)
  {
    Test(act, st, bound, Driven(Some(t), d)) == (v, Driven(Some(u), d2))
  }

  lemma {:induction false} ProbeTape<E, D>(base: Act<E>, obs: (Action, D) -> D, st: Stmt, bound: int, s: (E, D)) returns (w: seq<int>)
    requires IsLoop(st)
    ensures var (v, s1) := Test(Beside(base, obs), st, bound, s); forall u :: ProbeOn(Drive(obs, false), st, bound, w + u, s.1, v, u, s1.1)
  {
    var tape := Drive(obs, false);
    var (v, s1) := Test(Beside(base, obs), st, bound, s);
    if st.While? {
      w := EvalTape(base, obs, st.cond, Val, s);
      forall u ensures ProbeOn(tape, st, bound, w + u, s.1, v, u, s1.1) { assert ValueOn(tape, st.cond, Val, w + u, s.1, v, u, s1.1); }
    } else if st.For? {
      w := [v];
      forall u ensures ProbeOn(tape, st, bound, w + u, s.1, v, u, s1.1) { ActionTape(base, obs, ForMore(st.v, st.dir), [bound], s, u); }
    } else {
      w := [];
      forall u: seq<int> ensures ProbeOn(tape, st, bound, w + u, s.1, v, u, s1.1) { assert w + u == u; }
    }
  }

  lemma {:induction false} RoundTape<E, D>(base: Act<E>, obs: (Action, D) -> D, st: Stmt, bound: int, inc: int, s: (E, D), fuel: nat) returns (w: seq<int>)
    requires IsLoop(st) && fuel > 0
    ensures var (o, s1) := Round(Beside(base, obs), st, bound, inc, s, fuel);
      forall u :: RoundOn(Drive(obs, false), st, bound, inc, w + u, s.1, fuel, o, u, s1.1)
    decreases fuel, st, 0
  {
    var (act, tape) := (Beside(base, obs), Drive(obs, false));
    var (o, s3) := Round(act, st, bound, inc, s, fuel);
    var (v, s1) := Test(act, st, bound, s);
    var w1 := ProbeTape(base, obs, st, bound, s);
    if v == 0 {
      w := w1;
      forall u ensures RoundOn(tape, st, bound, inc, w + u, s.1, fuel, o, u, s3.1) { assert ProbeOn(tape, st, bound, w + u, s.1, v, u, s1.1); }
    } else {
      var (o2, s2) := ExecBlock(act, st.body, s1, fuel - 1);
      var w2 := BlockTape(base, obs, st.body, s1, fuel - 1);
      var steps := st.For? && RoundOutcome(o2) == Normal;
      var last := if steps then [act(ForStep(st.v, st.dir), [inc], s2).0] else [];
      w := w1 + (w2 + last);
      forall u ensures RoundOn(tape, st, bound, inc, w + u, s.1, fuel, o, u, s3.1) {
        Concat(w1, w2 + last, u);
        Concat(w2, last, u);
        assert ProbeOn(tape, st, bound, w1 + (w2 + (last + u)), s.1, v, w2 + (last + u), s1.1);
        assert BlockOn(tape, st.body, w2 + (last + u), s1.1, fuel - 1, o2, last + u, s2.1);
        if steps { ActionTape(base, obs, ForStep(st.v, st.dir), [inc], s2, u); } else { assert last + u == u; }
      }
    }
  }

  // --- the theorem ---

  // A run of any kind is, as far as it is observed, the run on a tape.
  lemma {:induction false} EveryRunIsOnATape<E, D>(base: Act<E>, obs: (Action, D) -> D, b: Block, s: (E, D), fuel: nat) returns (t: seq<int>)
    ensures var (o, s1) := ExecBlock(Beside(base, obs), b, s, fuel);
      ExecBlock(Drive(obs, false), b, Driven(Some(t), s.1), fuel) == (o, Driven(Some([]), s1.1))
  {
    t := BlockTape(base, obs, b, s, fuel);
    var (o, s1) := ExecBlock(Beside(base, obs), b, s, fuel);
    assert t + [] == t && BlockOn(Drive(obs, false), b, t + [], s.1, fuel, o, [], s1.1);
  }
}
