// Which bodies lose something: a body with a path that ends and evaluates a
// trailing expression has values under which its stripped form ends differently.
module TrailingPaths {
  import opened Ast
  import opened Semantics
  import opened Tapes
  import opened Paths
  import opened Trailing

  function Idle(a: Action, d: ()): () { d }

  // Values are read from a tape, and nothing else changes: what is left of the
  // tape tells how many actions were performed.
  function Reader(): Act<Driven<()>> { Drive(Idle, true) }

  lemma ReaderNegates(e: Expr, v: int, r: Driven<()>)
    ensures Reader()(Node(Unary(Not, e)), [v], r) == (if v == 0 then 1 else 0, r)
  {
    DriveIs(Idle, true, Node(Unary(Not, e)), [v], r);
  }

  function On(t: seq<int>): Driven<()> { Driven(Some(t), ()) }

  lemma Units()
    ensures forall r: Driven<()> :: r.d == ()
  {}

  lemma Unit(d: ())
    ensures d == ()
  {}

  predicate Leaves(x: (Outcome, Driven<()>), o: Outcome, u: seq<int>) { x.0 == o && x.1.tape == Some(u) }

  ghost predicate StmtEnds(st: Stmt, r: Driven<()>, fuel: nat, o: Outcome, u: seq<int>) {
    o != Timeout && Leaves(ExecStmt(Reader(), st, r, fuel), o, u)
  }

  ghost predicate FromEnds(b: Block, i: nat, r: Driven<()>, fuel: nat, o: Outcome, u: seq<int>)
    requires i <= |b.stmts|
  {
    o != Timeout && Leaves(ExecFrom(Reader(), b, i, r, fuel), o, u)
  }

  ghost predicate RoundEnds(st: Stmt, bound: int, inc: int, r: Driven<()>, fuel: nat, o: Outcome, u: seq<int>)
    requires IsLoop(st)
  {
    o != Timeout && fuel > 0 && Leaves(Round(Reader(), st, bound, inc, r, fuel), o, u)
  }

  ghost predicate RoundsEnd(st: Stmt, bound: int, inc: int, r: Driven<()>, fuel: nat, o: Outcome, u: seq<int>)
    requires IsLoop(st)
  {
    o != Timeout && Leaves(Rounds(Reader(), st, bound, inc, r, fuel), o, u)
  }

  ghost predicate ArmsEnd(st: Stmt, i: nat, v: int, r: Driven<()>, fuel: nat, o: Outcome, u: seq<int>)
    requires st.Match? && i <= |st.arms|
  {
    o != Timeout && Leaves(ExecArms(Reader(), st, i, v, r, fuel), o, u)
  }

  // --- what straight code has read ---

  lemma {:induction false} StraightReads(st: Stmt, r: Driven<()>, fuel: nat, o: Outcome, u: seq<int>) returns (w: seq<int>)
    requires Straight(st) && StmtEnds(st, r, fuel, o, u)
    ensures r.tape.Some? && r.tape.value == w + u && StmtTakes(Reader(), st, w, (), 0, o, ())
  {
    Units();
    if st.VarDecl? {
      w := ThenActionReads(st.init, Declare(st.name, st.moves), st, r, fuel, u);
    } else if st.Assign? {
      w := AssignReads(st.target, st.value, st, r, fuel, u);
    } else if st.CompoundAssign? {
      w := AssignReads(st.target, Binary(st.target.ToExpr(), st.op, st.value), st, r, fuel, u);
    } else if st.ExprStmt? {
      w := EvalReads(Idle, true, st.e, Val, r);
      var v := Eval(Reader(), st.e, Val, r).0;
      forall u, fuel: nat ensures StmtOn(Reader(), st, w + u, (), fuel, Normal, u, ()) { assert EvalsOn(Reader(), st.e, Val, w + u, (), v != 0, u, ()); }
    } else if st.Return? && st.result.Some? {
      w := ThenActionReads(st.result.value, Result, st, r, fuel, u);
    } else {
      w := [];
      forall u: seq<int>, fuel: nat ensures StmtOn(Reader(), st, w + u, (), fuel, o, u, ()) { assert w + u == u; }
    }
  }

  lemma {:induction false} ThenActionReads(e: Expr, a: Action, st: Stmt, r: Driven<()>, fuel: nat, u: seq<int>) returns (w: seq<int>)
    requires (st.VarDecl? && e == st.init && a == Declare(st.name, st.moves)) || (st == Return(Some(e)) && a == Result)
    requires StmtEnds(st, r, fuel, StraightOutcome(st), u)
    ensures r.tape.Some? && r.tape.value == w + u && StmtTakes(Reader(), st, w, (), 0, StraightOutcome(st), ())
  {
    Units();
    var act := Reader();
    var (v, r1) := Eval(act, e, Val, r);
    ActionReads(Idle, true, a, [v], r1);
    var last := [Head(r1.tape)];
    var w1 := EvalReads(Idle, true, e, Val, r);
    w := w1 + last;
    Concat(w1, last, u);
    forall u, fuel: nat ensures StmtOn(act, st, w + u, (), fuel, StraightOutcome(st), u, ()) {
      Concat(w1, last, u);
      assert EvalsOn(act, e, Val, w1 + (last + u), (), v != 0, last + u, ());
      OneAction(Idle, true, a, [Eval(act, e, Val, On(w + u)).0], last[0], u, ());
    }
  }

  lemma {:induction false} AssignReads(lv: LValue, value: Expr, st: Stmt, r: Driven<()>, fuel: nat, u: seq<int>) returns (w: seq<int>)
    requires st == Assign(lv, value) || (st.CompoundAssign? && st.target == lv && value == Binary(lv.ToExpr(), st.op, st.value))
    requires StmtEnds(st, r, fuel, Normal, u)
    ensures r.tape.Some? && r.tape.value == w + u && StmtTakes(Reader(), st, w, (), 0, Normal, ())
  {
    Units();
    var act, ps := Reader(), TargetParts(lv);
    var (v, r1) := Eval(act, value, Val, r);
    var (vs, r2) := EvalTarget(act, ps, r1);
    ActionReads(Idle, true, Store(lv), vs + [v], r2);
    var last := [Head(r2.tape)];
    var w2 := TargetReads(Idle, true, ps, r1);
    var w1 := EvalReads(Idle, true, value, Val, r);
    w := w1 + (w2 + last);
    Concat(w1, w2 + last, u);
    Concat(w2, last, u);
    forall u, fuel: nat ensures StmtOn(act, st, w + u, (), fuel, Normal, u, ()) {
      Concat(w1, w2 + last, u);
      Concat(w2, last, u);
      assert EvalsOn(act, value, Val, w1 + (w2 + (last + u)), (), v != 0, w2 + (last + u), ());
      assert TargetOn(act, ps, w2 + (last + u), (), last + u, ());
      var (v', r1') := Eval(act, value, Val, On(w + u));
      OneAction(Idle, true, Store(lv), EvalTarget(act, ps, r1').0 + [v'], last[0], u, ());
    }
  }

  lemma {:induction false} EntryReads(st: Stmt, r: Driven<()>) returns (w: seq<int>)
    requires IsLoop(st) && Entry(Reader(), st, r).2.tape.Some?
    ensures r.tape.Some? && r.tape.value == w + Entry(Reader(), st, r).2.tape.value && forall u :: EntryOn(Reader(), st, w + u, (), u, ())
  {
    Units();
    var act := Reader();
    if !st.For? {
      w := [];
      forall u: seq<int> ensures EntryOn(act, st, w + u, (), u, ()) { assert w + u == u; }
    } else {
      var (v, r1) := Eval(act, st.start, Val, r);
      var (z, r2) := Eval(act, st.end, Val, r1);
      var r3 := EvalStep(act, st.step, r2).1;
      ActionReads(Idle, true, ForInit(st.v), [v], r3);
      var last := [Head(r3.tape)];
      var w3 := OptReads(Idle, true, st.step, r2);
      var w2 := EvalReads(Idle, true, st.end, Val, r1);
      var w1 := EvalReads(Idle, true, st.start, Val, r);
      w := w1 + (w2 + (w3 + last));
      var t := Entry(act, st, r).2.tape.value;
      Concat(w1, w2 + (w3 + last), t);
      Concat(w2, w3 + last, t);
      Concat(w3, last, t);
      forall u ensures EntryOn(act, st, w + u, (), u, ()) {
        Concat(w1, w2 + (w3 + last), u);
        Concat(w2, w3 + last, u);
        Concat(w3, last, u);
        assert EvalsOn(act, st.start, Val, w1 + (w2 + (w3 + (last + u))), (), v != 0, w2 + (w3 + (last + u)), ());
        assert EvalsOn(act, st.end, Val, w2 + (w3 + (last + u)), (), z != 0, w3 + (last + u), ());
        assert OptOn(act, st.step, w3 + (last + u), (), last + u, ());
        OneAction(Idle, true, ForInit(st.v), [Eval(act, st.start, Val, On(w + u)).0], last[0], u, ());
      }
    }
  }

  lemma {:induction false} TestReads(st: Stmt, bound: int, r: Driven<()>) returns (w: seq<int>)
    requires IsLoop(st) && Test(Reader(), st, bound, r).1.tape.Some?
    ensures var (v, r1) := Test(Reader(), st, bound, r); r.tape.Some? && r.tape.value == w + r1.tape.value && Tests(Reader(), st, w, (), v != 0, ())
  {
    Units();
    var act := Reader();
    var (v, r1) := Test(act, st, bound, r);
    var want := v != 0;
    if st.While? {
      w := EvalReads(Idle, true, st.cond, Val, r);
      forall u, bound ensures TestOn(act, st, bound, w + u, (), want, u, ()) { assert EvalsOn(act, st.cond, Val, w + u, (), want, u, ()); }
    } else if st.For? {
      ActionReads(Idle, true, ForMore(st.v, st.dir), [bound], r);
      DriveIs(Idle, true, ForMore(st.v, st.dir), [bound], r);
      w := [v];
      forall u, bound ensures TestOn(act, st, bound, w + u, (), want, u, ()) { OneAction(Idle, true, ForMore(st.v, st.dir), [bound], v, u, ()); }
    } else {
      w := [];
      forall u: seq<int>, bound ensures TestOn(act, st, bound, w + u, (), want, u, ()) { assert w + u == u; }
    }
  }

  // --- deleting what trailing expressions read ---

  // A run that ends on its tape, without what its trailing expressions read, is
  // a path of the stripped code.
  lemma {:induction false} FromDelete(b: Block, i: nat, r: Driven<()>, fuel: nat, o: Outcome, u: seq<int>) returns (w: seq<int>, k: nat)
    requires i <= |b.stmts| && FromEnds(b, i, r, fuel, o, u)
    ensures r.tape.Some? && FromTakes(Reader(), Strip(b), i, w, (), k, o, ()) && |w| + |u| <= |r.tape.value|
    decreases fuel, b, |b.stmts| - i
  {
    Units();
    if i == |b.stmts| {
      var _ := OptReads(Idle, true, b.trailing, r);
      w := NoEnd(b);
      k := 0;
    } else {
      var st := b.stmts[i];
      assert Strip(b).stmts[i] == StripStmt(st);
      var (o1, r1) := ExecStmt(Reader(), st, r, fuel);
      if o1 == Normal {
        var w2, k2 := FromDelete(b, i + 1, r1, fuel, o, u);
        var w1, k1 := StmtDelete(st, r, fuel, Normal, r1.tape.value);
        Sequence(Reader(), Strip(b), i, w1, (), k1, (), w2, k2, o, ());
        w, k := w1 + w2, Max(k1, k2);
      } else {
        w, k := StmtDelete(st, r, fuel, o, u);
        Jumps(Reader(), Strip(b), i, w, (), k, o, ());
      }
    }
  }

  // A stripped block ends without reading.
  lemma NoEnd(b: Block) returns (w: seq<int>)
    ensures w == [] && FromTakes(Reader(), Strip(b), |b.stmts|, w, (), 0, Normal, ())
  {
    Units();
    w := [];
    forall u: seq<int>, fuel: nat ensures FromOn(Reader(), Strip(b), |b.stmts|, w + u, (), fuel, Normal, u, ()) { assert w + u == u; }
  }

  lemma {:induction false} StmtDelete(st: Stmt, r: Driven<()>, fuel: nat, o: Outcome, u: seq<int>) returns (w: seq<int>, k: nat)
    requires StmtEnds(st, r, fuel, o, u)
    ensures r.tape.Some? && StmtTakes(Reader(), StripStmt(st), w, (), k, o, ()) && |w| + |u| <= |r.tape.value|
    decreases fuel, st, 3
  {
    Units();
    var act, st' := Reader(), StripStmt(st);
    if Straight(st) {
      w := StraightReads(st, r, fuel, o, u);
      k := 0;
    } else if IsLoop(st) {
      w, k := LoopDelete(st, r, fuel, o, u);
    } else if st.If? {
      var (v, r1) := Eval(act, st.cond, Val, r);
      var w2;
      var b := if v != 0 then st.thn else st.els;
      assert ExecBlock(act, b, r1, fuel) == ExecFrom(act, b, 0, r1, fuel);
      w2, k := FromDelete(b, 0, r1, fuel, o, u);
      var w1 := EvalReads(Idle, true, st.cond, Val, r);
      Branch(act, st', v != 0, w1, (), (), w2, k, o, ());
      w := w1 + w2;
    } else if st.Match? {
      var (v, r1) := Eval(act, st.scrutinee, Val, r);
      var w2;
      w2, k := ArmsDelete(st, 0, v, r1, fuel, o, u);
      var w1 := EvalReads(Idle, true, st.scrutinee, Val, r);
      MatchTakes(act, st', v != 0, w1, (), (), w2, k, o, ());
      w := w1 + w2;
    } else if st.BlockStmt? {
      assert ExecBlock(act, st.b, r, fuel) == ExecFrom(act, st.b, 0, r, fuel);
      w, k := FromDelete(st.b, 0, r, fuel, o, u);
      Nested(act, st', w, (), k, o, ());
    } else {
      w, k := WindowDelete(st, r, fuel, o, u);
    }
  }

  lemma {:induction false} WindowDelete(st: Stmt, r: Driven<()>, fuel: nat, o: Outcome, u: seq<int>) returns (w: seq<int>, k: nat)
    requires st.Claim? && StmtEnds(st, r, fuel, o, u)
    ensures r.tape.Some? && StmtTakes(Reader(), StripStmt(st), w, (), k, o, ()) && |w| + |u| <= |r.tape.value|
    decreases fuel, st, 2
  {
    Units();
    var r1 := Reader()(Enter(st.name), [], r).1;
    var (o1, r2) := ExecBlock(Reader(), st.body, r1, fuel);
    if o == Normal { ActionReads(Idle, true, Leave(st.name), [], r2); }
    w, k := FromDelete(st.body, 0, r1, fuel, o, r2.tape.value);
    ActionReads(Idle, true, Enter(st.name), [], r);
    w := Window(Idle, true, StripStmt(st), w, (), k, o, ());
  }

  lemma {:induction false} LoopDelete(st: Stmt, r: Driven<()>, fuel: nat, o: Outcome, u: seq<int>) returns (w: seq<int>, k: nat)
    requires IsLoop(st) && StmtEnds(st, r, fuel, o, u)
    ensures r.tape.Some? && StmtTakes(Reader(), StripStmt(st), w, (), k, o, ()) && |w| + |u| <= |r.tape.value|
    decreases fuel, st, 2
  {
    Units();
    LoopIsRounds(Reader(), st, r, fuel);
    var (bound, inc, r1) := Entry(Reader(), st, r);
    var w2;
    w2, k := RoundsDelete(st, bound, inc, r1, fuel, o, u);
    var w1 := EntryReads(st, r);
    SameEntry(st, w1);
    LoopTakes(Reader(), StripStmt(st), w1, (), (), w2, k, o, ());
    w := w1 + w2;
  }

  // Stripping leaves the head of a loop alone.
  lemma SameEntry(st: Stmt, w: seq<int>)
    requires IsLoop(st) && forall u :: EntryOn(Reader(), st, w + u, (), u, ())
    ensures forall u :: EntryOn(Reader(), StripStmt(st), w + u, (), u, ())
  {
    Units();
    forall u ensures EntryOn(Reader(), StripStmt(st), w + u, (), u, ()) { assert EntryOn(Reader(), st, w + u, (), u, ()); }
  }

  lemma SameTests(st: Stmt, w: seq<int>, want: bool)
    requires IsLoop(st) && Tests(Reader(), st, w, (), want, ())
    ensures Tests(Reader(), StripStmt(st), w, (), want, ())
  {
    Units();
    forall u, bound ensures TestOn(Reader(), StripStmt(st), bound, w + u, (), want, u, ()) { assert TestOn(Reader(), st, bound, w + u, (), want, u, ()); }
  }

  lemma {:induction false} RoundsDelete(st: Stmt, bound: int, inc: int, r: Driven<()>, fuel: nat, o: Outcome, u: seq<int>) returns (w: seq<int>, k: nat)
    requires IsLoop(st) && RoundsEnd(st, bound, inc, r, fuel, o, u)
    ensures r.tape.Some? && RoundsTake(Reader(), StripStmt(st), w, (), k, o, ()) && |w| + |u| <= |r.tape.value|
    decreases fuel, st, 1
  {
    Units();
    var act, st' := Reader(), StripStmt(st);
    assert fuel > 0;
    RoundsUnroll(act, st, bound, inc, r, fuel);
    var (o1, r1) := Round(act, st, bound, inc, r, fuel);
    if o1 == Normal {
      var w2, k2 := RoundsDelete(st, bound, inc, r1, fuel - 1, o, u);
      var w1, k1 := RoundDelete(st, bound, inc, r, fuel, Normal, r1.tape.value);
      FirstRound(act, st', w1, (), k1, (), w2, k2, o, ());
      w, k := w1 + w2, Max(k1, k2) + 1;
    } else {
      w, k := RoundDelete(st, bound, inc, r, fuel, o1, u);
      LastRound(act, st', w, (), k, o1, ());
      k := k + 1;
    }
  }

  lemma {:induction false} RoundDelete(st: Stmt, bound: int, inc: int, r: Driven<()>, fuel: nat, o: Outcome, u: seq<int>) returns (w: seq<int>, k: nat)
    requires IsLoop(st) && RoundEnds(st, bound, inc, r, fuel, o, u)
    ensures r.tape.Some? && RoundTakes(Reader(), StripStmt(st), w, (), k, o, ()) && |w| + |u| <= |r.tape.value|
    decreases fuel, st, 0
  {
    Units();
    var act, st' := Reader(), StripStmt(st);
    var (v, r1) := Test(act, st, bound, r);
    if v == 0 {
      w := TestReads(st, bound, r);
      k := 1;
      SameTests(st, w, false);
      TestFails(act, st', w, (), ());
    } else {
      var (o2, r2) := ExecBlock(act, st.body, r1, fuel - 1);
      if st.For? && o == Normal { ActionReads(Idle, true, ForStep(st.v, st.dir), [inc], r2); }
      var w2;
      w2, k := FromDelete(st.body, 0, r1, fuel - 1, o2, r2.tape.value);
      var w1 := TestReads(st, bound, r);
      SameTests(st, w1, true);
      w := BodyRuns(Idle, true, st', w1, (), (), w2, k, o2, ());
      k := k + 1;
    }
  }

  lemma {:induction false} ArmsDelete(st: Stmt, i: nat, v: int, r: Driven<()>, fuel: nat, o: Outcome, u: seq<int>) returns (w: seq<int>, k: nat)
    requires st.Match? && i <= |st.arms| && ArmsEnd(st, i, v, r, fuel, o, u)
    ensures r.tape.Some? && ArmsTake(Reader(), StripStmt(st), i, w, (), k, o, ()) && |w| + |u| <= |r.tape.value|
    decreases fuel, st, 1, |st.arms| - i
  {
    Units();
    var act, st' := Reader(), StripStmt(st);
    assert st' == Match(st.scrutinee, StripArms(st.arms));
    if i == |st.arms| {
      w, k := [], 0;
      NoArm(act, st', ());
    } else {
      var arm := st.arms[i];
      assert st'.arms[i] == Arm(arm.patterns, Strip(arm.body));
      var (hit, r1) := act(Select(arm.patterns), [v], r);
      var r2 := if PWild in arm.patterns then r else r1;
      assert ExecBlock(act, arm.body, r2, fuel) == ExecFrom(act, arm.body, 0, r2, fuel);
      if PWild in arm.patterns {
        w, k := FromDelete(arm.body, 0, r, fuel, o, u);
        WildArm(act, st', i, w, (), k, o, ());
      } else {
        if hit != 0 { w, k := FromDelete(arm.body, 0, r1, fuel, o, u); } else { w, k := ArmsDelete(st, i + 1, v, r1, fuel, o, u); }
        ActionReads(Idle, true, Select(arm.patterns), [v], r);
        w := TestedArm(Idle, true, st', i, hit != 0, w, (), k, o, ());
      }
    }
  }

  // --- no way around ---

  // However the tape goes on after `p`, a run that ends has a path of the
  // stripped code beside it that begins with `p` and leaves out something.
  ghost predicate FromCut(b: Block, i: nat, p: seq<int>, v: seq<int>, o: Outcome, u: seq<int>)
    requires i <= |b.stmts|
  {
    exists x: seq<int>, k: nat :: FromTakes(Reader(), Strip(b), i, p + x, (), k, o, ()) && |x| + |u| < |v|
  }

  ghost predicate FromAvoids(b: Block, i: nat, p: seq<int>, k: nat)
    requires i <= |b.stmts|
  {
    forall v: seq<int>, fuel: nat, o, u :: fuel >= k && FromEnds(b, i, On(p + v), fuel, o, u) ==> FromCut(b, i, p, v, o, u)
  }

  ghost predicate StmtCut(st: Stmt, p: seq<int>, v: seq<int>, o: Outcome, u: seq<int>) {
    exists x: seq<int>, k: nat :: StmtTakes(Reader(), StripStmt(st), p + x, (), k, o, ()) && |x| + |u| < |v|
  }

  ghost predicate StmtAvoids(st: Stmt, p: seq<int>, k: nat) {
    forall v: seq<int>, fuel: nat, o, u :: fuel >= k && StmtEnds(st, On(p + v), fuel, o, u) ==> StmtCut(st, p, v, o, u)
  }

  ghost predicate RoundCut(st: Stmt, p: seq<int>, v: seq<int>, o: Outcome, u: seq<int>)
    requires IsLoop(st)
  {
    exists x: seq<int>, k: nat :: RoundTakes(Reader(), StripStmt(st), p + x, (), k, o, ()) && |x| + |u| < |v|
  }

  ghost predicate RoundAvoids(st: Stmt, p: seq<int>, k: nat)
    requires IsLoop(st)
  {
    forall v: seq<int>, bound, inc, fuel: nat, o, u ::
      fuel >= k && RoundEnds(st, bound, inc, On(p + v), fuel, o, u) ==> RoundCut(st, p, v, o, u)
  }

  ghost predicate RoundsCut(st: Stmt, p: seq<int>, v: seq<int>, o: Outcome, u: seq<int>)
    requires IsLoop(st)
  {
    exists x: seq<int>, k: nat :: RoundsTake(Reader(), StripStmt(st), p + x, (), k, o, ()) && |x| + |u| < |v|
  }

  ghost predicate RoundsAvoid(st: Stmt, p: seq<int>, k: nat)
    requires IsLoop(st)
  {
    forall v: seq<int>, bound, inc, fuel: nat, o, u ::
      fuel >= k && RoundsEnd(st, bound, inc, On(p + v), fuel, o, u) ==> RoundsCut(st, p, v, o, u)
  }

  ghost predicate ArmsCut(st: Stmt, i: nat, p: seq<int>, v: seq<int>, o: Outcome, u: seq<int>)
    requires st.Match? && i <= |st.arms|
  {
    exists x: seq<int>, k: nat :: ArmsTake(Reader(), StripStmt(st), i, p + x, (), k, o, ()) && |x| + |u| < |v|
  }

  ghost predicate ArmsAvoid(st: Stmt, i: nat, p: seq<int>, k: nat)
    requires st.Match? && i <= |st.arms|
  {
    forall v: seq<int>, c, fuel: nat, o, u ::
      fuel >= k && ArmsEnd(st, i, c, On(p + v), fuel, o, u) ==> ArmsCut(st, i, p, v, o, u)
  }

  // A trailing expression reads at least once.
  lemma {:induction false} EndAvoids(b: Block)
    requires b.trailing.Some?
    ensures FromAvoids(b, |b.stmts|, [], 0)
  {
    Units();
    forall v: seq<int>, fuel: nat, o, u | FromEnds(b, |b.stmts|, On([] + v), fuel, o, u) ensures FromCut(b, |b.stmts|, [], v, o, u) {
      assert [] + v == v;
      var w := OptReads(Idle, true, b.trailing, On(v));
      var x := NoEnd(b);
      assert [] + x == x;
      assert FromTakes(Reader(), Strip(b), |b.stmts|, [] + x, (), 0, Normal, ());
    }
  }

  lemma {:induction false} FirstAvoids(b: Block, i: nat, p: seq<int>, k: nat)
    requires i < |b.stmts| && StmtAvoids(b.stmts[i], p, k)
    ensures FromAvoids(b, i, p, k)
  {
    Units();
    var st := b.stmts[i];
    assert Strip(b).stmts[i] == StripStmt(st);
    forall v: seq<int>, fuel: nat, o, u | fuel >= k && FromEnds(b, i, On(p + v), fuel, o, u) ensures FromCut(b, i, p, v, o, u) {
      var (o1, r1) := ExecStmt(Reader(), st, On(p + v), fuel);
      if o1 == Normal {
        var w2, k2 := FromDelete(b, i + 1, r1, fuel, o, u);
        assert StmtEnds(st, On(p + v), fuel, o1, r1.tape.value);
        var x, k1: nat :| StmtTakes(Reader(), StripStmt(st), p + x, (), k1, o1, ()) && |x| + |r1.tape.value| < |v|;
        Sequence(Reader(), Strip(b), i, p + x, (), k1, (), w2, k2, o, ());
        Concat(p, x, w2);
        assert FromTakes(Reader(), Strip(b), i, p + (x + w2), (), Max(k1, k2), o, ());
      } else {
        assert StmtEnds(st, On(p + v), fuel, o1, u);
        var x, k1: nat :| StmtTakes(Reader(), StripStmt(st), p + x, (), k1, o, ()) && |x| + |u| < |v|;
        Jumps(Reader(), Strip(b), i, p + x, (), k1, o, ());
      }
    }
  }

  lemma {:induction false} LaterAvoids(b: Block, i: nat, w: seq<int>, k1: nat, p: seq<int>, k2: nat)
    requires i < |b.stmts| && StmtTakes(Reader(), b.stmts[i], w, (), k1, Normal, ()) && StmtTakes(Reader(), StripStmt(b.stmts[i]), w, (), k1, Normal, ())
    requires FromAvoids(b, i + 1, p, k2)
    ensures FromAvoids(b, i, w + p, Max(k1, k2))
  {
    Units();
    var st := b.stmts[i];
    assert Strip(b).stmts[i] == StripStmt(st);
    forall v: seq<int>, fuel: nat, o, u | fuel >= Max(k1, k2) && FromEnds(b, i, On(w + p + v), fuel, o, u) ensures FromCut(b, i, w + p, v, o, u) {
      Concat(w, p, v);
      assert StmtOn(Reader(), st, w + (p + v), (), fuel, Normal, p + v, ());
      assert FromEnds(b, i + 1, On(p + v), fuel, o, u);
      var x, k: nat :| FromTakes(Reader(), Strip(b), i + 1, p + x, (), k, o, ()) && |x| + |u| < |v|;
      Sequence(Reader(), Strip(b), i, w, (), k1, (), p + x, k, o, ());
      Concat(w, p, x);
      assert FromTakes(Reader(), Strip(b), i, w + p + x, (), Max(k1, k), o, ());
    }
  }

  lemma {:induction false} BranchAvoids(st: Stmt, want: bool, w: seq<int>, p: seq<int>, k: nat)
    requires st.If? && Evals(Reader(), st.cond, Val, w, (), want, ()) && FromAvoids(if want then st.thn else st.els, 0, p, k)
    ensures StmtAvoids(st, w + p, k)
  {
    Units();
    var b := if want then st.thn else st.els;
    forall v: seq<int>, fuel: nat, o, u | fuel >= k && StmtEnds(st, On(w + p + v), fuel, o, u) ensures StmtCut(st, w + p, v, o, u) {
      Concat(w, p, v);
      assert EvalsOn(Reader(), st.cond, Val, w + (p + v), (), want, p + v, ());
      assert ExecBlock(Reader(), b, On(p + v), fuel) == ExecFrom(Reader(), b, 0, On(p + v), fuel);
      assert FromEnds(b, 0, On(p + v), fuel, o, u);
      var x, k1: nat :| FromTakes(Reader(), Strip(b), 0, p + x, (), k1, o, ()) && |x| + |u| < |v|;
      Branch(Reader(), StripStmt(st), want, w, (), (), p + x, k1, o, ());
      Concat(w, p, x);
      assert StmtTakes(Reader(), StripStmt(st), w + p + x, (), k1, o, ());
    }
  }

  lemma {:induction false} MatchAvoids(st: Stmt, w: seq<int>, p: seq<int>, k: nat)
    requires st.Match? && Evals(Reader(), st.scrutinee, Val, w, (), true, ()) && ArmsAvoid(st, 0, p, k)
    ensures StmtAvoids(st, w + p, k)
  {
    Units();
    forall v: seq<int>, fuel: nat, o, u | fuel >= k && StmtEnds(st, On(w + p + v), fuel, o, u) ensures StmtCut(st, w + p, v, o, u) {
      Concat(w, p, v);
      assert EvalsOn(Reader(), st.scrutinee, Val, w + (p + v), (), true, p + v, ());
      var c := Eval(Reader(), st.scrutinee, Val, On(w + p + v)).0;
      assert ArmsEnd(st, 0, c, On(p + v), fuel, o, u);
      var x, k1: nat :| ArmsTake(Reader(), StripStmt(st), 0, p + x, (), k1, o, ()) && |x| + |u| < |v|;
      MatchTakes(Reader(), StripStmt(st), true, w, (), (), p + x, k1, o, ());
      Concat(w, p, x);
      assert StmtTakes(Reader(), StripStmt(st), w + p + x, (), k1, o, ());
    }
  }

  lemma {:induction false} NestedAvoids(st: Stmt, p: seq<int>, k: nat)
    requires st.BlockStmt? && FromAvoids(st.b, 0, p, k)
    ensures StmtAvoids(st, p, k)
  {
    Units();
    forall v: seq<int>, fuel: nat, o, u | fuel >= k && StmtEnds(st, On(p + v), fuel, o, u) ensures StmtCut(st, p, v, o, u) {
      assert ExecBlock(Reader(), st.b, On(p + v), fuel) == ExecFrom(Reader(), st.b, 0, On(p + v), fuel);
      assert FromEnds(st.b, 0, On(p + v), fuel, o, u);
      var x, k1: nat :| FromTakes(Reader(), Strip(st.b), 0, p + x, (), k1, o, ()) && |x| + |u| < |v|;
      Nested(Reader(), StripStmt(st), p + x, (), k1, o, ());
    }
  }

  lemma {:induction false} WindowAvoids(st: Stmt, p: seq<int>, k: nat)
    requires st.Claim? && FromAvoids(st.body, 0, p, k)
    ensures StmtAvoids(st, [0] + p, k)
  {
    Units();
    forall v: seq<int>, fuel: nat, o, u | fuel >= k && StmtEnds(st, On([0] + p + v), fuel, o, u) ensures StmtCut(st, [0] + p, v, o, u) {
      Concat([0], p, v);
      OneAction(Idle, true, Enter(st.name), [], 0, p + v, ());
      var (o1, r2) := ExecBlock(Reader(), st.body, On(p + v), fuel);
      assert (o1, r2) == ExecFrom(Reader(), st.body, 0, On(p + v), fuel);
      if o1 == Normal { ActionReads(Idle, true, Leave(st.name), [], r2); }
      assert FromEnds(st.body, 0, On(p + v), fuel, o1, r2.tape.value);
      var x, k1: nat :| FromTakes(Reader(), Strip(st.body), 0, p + x, (), k1, o, ()) && |x| + |r2.tape.value| < |v|;
      var w := Window(Idle, true, StripStmt(st), p + x, (), k1, o, ());
      assert w == [0] + p + (x + CloseTape(o));
      assert StmtTakes(Reader(), StripStmt(st), [0] + p + (x + CloseTape(o)), (), k1, o, ());
    }
  }

  lemma {:induction false} LoopAvoids(st: Stmt, w: seq<int>, p: seq<int>, k: nat)
    requires IsLoop(st) && (forall u :: EntryOn(Reader(), st, w + u, (), u, ())) && RoundsAvoid(st, p, k)
    ensures StmtAvoids(st, w + p, k)
  {
    Units();
    SameEntry(st, w);
    forall v: seq<int>, fuel: nat, o, u | fuel >= k && StmtEnds(st, On(w + p + v), fuel, o, u) ensures StmtCut(st, w + p, v, o, u) {
      Concat(w, p, v);
      assert EntryOn(Reader(), st, w + (p + v), (), p + v, ());
      LoopIsRounds(Reader(), st, On(w + p + v), fuel);
      var (bound, inc, r1) := Entry(Reader(), st, On(w + p + v));
      assert RoundsEnd(st, bound, inc, On(p + v), fuel, o, u);
      var x, k1: nat :| RoundsTake(Reader(), StripStmt(st), p + x, (), k1, o, ()) && |x| + |u| < |v|;
      LoopTakes(Reader(), StripStmt(st), w, (), (), p + x, k1, o, ());
      Concat(w, p, x);
      assert StmtTakes(Reader(), StripStmt(st), w + p + x, (), k1, o, ());
    }
  }

  lemma {:induction false} RoundsAvoidToo(st: Stmt, p: seq<int>, k: nat)
    requires IsLoop(st) && RoundAvoids(st, p, k)
    ensures RoundsAvoid(st, p, k + 1)
  {
    Units();
    var act, st' := Reader(), StripStmt(st);
    forall v: seq<int>, bound, inc, fuel: nat, o, u | fuel >= k + 1 && RoundsEnd(st, bound, inc, On(p + v), fuel, o, u) ensures RoundsCut(st, p, v, o, u) {
      RoundsUnroll(act, st, bound, inc, On(p + v), fuel);
      var (o1, r1) := Round(act, st, bound, inc, On(p + v), fuel);
      if o1 == Normal {
        var w2, k2 := RoundsDelete(st, bound, inc, r1, fuel - 1, o, u);
        assert RoundEnds(st, bound, inc, On(p + v), fuel, o1, r1.tape.value);
        var x, k1: nat :| RoundTakes(act, st', p + x, (), k1, o1, ()) && |x| + |r1.tape.value| < |v|;
        FirstRound(act, st', p + x, (), k1, (), w2, k2, o, ());
        Concat(p, x, w2);
        assert RoundsTake(act, st', p + (x + w2), (), Max(k1, k2) + 1, o, ());
      } else {
        assert RoundEnds(st, bound, inc, On(p + v), fuel, o1, u);
        var x, k1: nat :| RoundTakes(act, st', p + x, (), k1, o1, ()) && |x| + |u| < |v|;
        LastRound(act, st', p + x, (), k1, o1, ());
      }
    }
  }

  lemma {:induction false} BodyAvoids(st: Stmt, w: seq<int>, p: seq<int>, k: nat)
    requires IsLoop(st) && Tests(Reader(), st, w, (), true, ()) && FromAvoids(st.body, 0, p, k)
    ensures RoundAvoids(st, w + p, k + 1)
  {
    Units();
    var act, st' := Reader(), StripStmt(st);
    SameTests(st, w, true);
    forall v: seq<int>, bound, inc, fuel: nat, o, u | fuel >= k + 1 && RoundEnds(st, bound, inc, On(w + p + v), fuel, o, u) ensures RoundCut(st, w + p, v, o, u) {
      Concat(w, p, v);
      assert TestOn(act, st, bound, w + (p + v), (), true, p + v, ());
      var (o2, r2) := ExecBlock(act, st.body, On(p + v), fuel - 1);
      assert (o2, r2) == ExecFrom(act, st.body, 0, On(p + v), fuel - 1);
      if st.For? && RoundOutcome(o2) == Normal { ActionReads(Idle, true, ForStep(st.v, st.dir), [inc], r2); }
      assert FromEnds(st.body, 0, On(p + v), fuel - 1, o2, r2.tape.value);
      var x, k1: nat :| FromTakes(act, Strip(st.body), 0, p + x, (), k1, o2, ()) && |x| + |r2.tape.value| < |v|;
      var w' := BodyRuns(Idle, true, st', w, (), (), p + x, k1, o2, ());
      assert w' == w + p + (x + StepTape(st', o2));
      assert RoundTakes(act, st', w + p + (x + StepTape(st', o2)), (), k1 + 1, o, ());
    }
  }

  lemma {:induction false} WildAvoids(st: Stmt, i: nat, p: seq<int>, k: nat)
    requires st.Match? && i < |st.arms| && PWild in st.arms[i].patterns && FromAvoids(st.arms[i].body, 0, p, k)
    ensures ArmsAvoid(st, i, p, k)
  {
    Units();
    var act, st', arm := Reader(), StripStmt(st), st.arms[i];
    assert st' == Match(st.scrutinee, StripArms(st.arms));
    assert st'.arms[i] == Arm(arm.patterns, Strip(arm.body));
    forall v: seq<int>, c, fuel: nat, o, u | fuel >= k && ArmsEnd(st, i, c, On(p + v), fuel, o, u) ensures ArmsCut(st, i, p, v, o, u) {
      assert ExecBlock(act, arm.body, On(p + v), fuel) == ExecFrom(act, arm.body, 0, On(p + v), fuel);
      assert FromEnds(arm.body, 0, On(p + v), fuel, o, u);
      var x, k1: nat :| FromTakes(act, Strip(arm.body), 0, p + x, (), k1, o, ()) && |x| + |u| < |v|;
      WildArm(act, st', i, p + x, (), k1, o, ());
    }
  }

  lemma {:induction false} TestedAvoids(st: Stmt, i: nat, hit: bool, p: seq<int>, k: nat)
    requires st.Match? && i < |st.arms| && PWild !in st.arms[i].patterns
    requires if hit then FromAvoids(st.arms[i].body, 0, p, k) else ArmsAvoid(st, i + 1, p, k)
    ensures ArmsAvoid(st, i, [Sign(hit)] + p, k)
  {
    Units();
    var act, st', arm := Reader(), StripStmt(st), st.arms[i];
    assert st' == Match(st.scrutinee, StripArms(st.arms));
    assert st'.arms[i] == Arm(arm.patterns, Strip(arm.body));
    forall v: seq<int>, c, fuel: nat, o, u | fuel >= k && ArmsEnd(st, i, c, On([Sign(hit)] + p + v), fuel, o, u)
      ensures ArmsCut(st, i, [Sign(hit)] + p, v, o, u)
    {
      Concat([Sign(hit)], p, v);
      OneAction(Idle, true, Select(arm.patterns), [c], Sign(hit), p + v, ());
      var x, k1: nat;
      if hit {
        assert ExecBlock(act, arm.body, On(p + v), fuel) == ExecFrom(act, arm.body, 0, On(p + v), fuel);
        assert FromEnds(arm.body, 0, On(p + v), fuel, o, u);
        x, k1 :| FromTakes(act, Strip(arm.body), 0, p + x, (), k1, o, ()) && |x| + |u| < |v|;
      } else {
        assert ArmsEnd(st, i + 1, c, On(p + v), fuel, o, u);
        x, k1 :| ArmsTake(act, st', i + 1, p + x, (), k1, o, ()) && |x| + |u| < |v|;
      }
      var w := TestedArm(Idle, true, st', i, hit, p + x, (), k1, o, ());
      Concat([Sign(hit)], p, x);
      assert ArmsTake(act, st', i, [Sign(hit)] + p + x, (), k1, o, ());
    }
  }

  // --- a path for every way out ---

  // A path that leaves with outcome `o`; if the analysis says that such a path
  // can evaluate a trailing expression, this one does, and no run whose tape
  // begins with `p` gets around it.
  lemma {:induction false} FromTrap(b: Block, i: nat, o: Outcome) returns (w: seq<int>, k: nat, p: seq<int>)
    requires i <= |b.stmts| && FromWays(b, i).At(o).Some?
    ensures FromTakes(Reader(), b, i, w, (), k, o, ()) && (FromWays(b, i).At(o).value ==> p <= w && FromAvoids(b, i, p, k))
    decreases b, |b.stmts| - i
  {
    Units();
    var act := Reader();
    if i == |b.stmts| {
      Unit(FullOpt(Idle, b.trailing, ()));
      w := EndPath(Idle, true, b, ());
      k, p := 0, [];
      if b.trailing.Some? { EndAvoids(b); }
    } else {
      var st := b.stmts[i];
      var (a, x) := (StmtWays(st), FromWays(b, i));
      if o != Normal && a.At(o).Some? && (x.At(o).value ==> a.At(o).value) {
        w, k, p := StmtTrap(st, o);
        Jumps(act, b, i, w, (), k, o, ());
        if a.At(o).value { FirstAvoids(b, i, p, k); }
      } else {
        var w1, k1, p1 := StmtTrap(st, Normal);
        var w2, k2, p2 := FromTrap(b, i + 1, o);
        Sequence(act, b, i, w1, (), k1, (), w2, k2, o, ());
        w, k, p := w1 + w2, Max(k1, k2), if a.normal.value then p1 else w1 + p2;
        if a.normal.value {
          FirstAvoids(b, i, p1, k1);
        } else if FromWays(b, i + 1).At(o).value {
          CleanPath(st, w1, k1);
          LaterAvoids(b, i, w1, k1, p2, k2);
        }
      }
    }
  }

  // A path past no trailing expression is a path of the stripped statement.
  lemma {:induction false} CleanPath(st: Stmt, w: seq<int>, k: nat)
    requires StmtTakes(Reader(), st, w, (), k, Normal, ()) && StmtWays(st).normal == Some(false)
    ensures StmtTakes(Reader(), StripStmt(st), w, (), k, Normal, ())
  {
    forall u, fuel: nat | fuel >= k ensures StmtOn(Reader(), StripStmt(st), w + u, (), fuel, Normal, u, ()) {
      assert StmtOn(Reader(), st, w + u, (), fuel, Normal, u, ());
      StmtAlike(Reader(), st, On(w + u), fuel);
    }
  }

  lemma {:induction false} StmtTrap(st: Stmt, o: Outcome) returns (w: seq<int>, k: nat, p: seq<int>)
    requires StmtWays(st).At(o).Some?
    ensures StmtTakes(Reader(), st, w, (), k, o, ()) && (StmtWays(st).At(o).value ==> p <= w && StmtAvoids(st, p, k))
    decreases st, 4
  {
    Units();
    var act, flagged := Reader(), StmtWays(st).At(o).value;
    if Straight(st) {
      Unit(StraightDone(Idle, st, ()));
      w := StraightPath(Idle, true, st, ());
      k, p := 0, [];
    } else if IsLoop(st) {
      Unit(EntryDone(Idle, st, ()));
      var w1 := EntryPath(Idle, true, st, ());
      var w2;
      w2, k, p := RoundsTrap(st, o);
      LoopTakes(act, st, w1, (), (), w2, k, o, ());
      if flagged { LoopAvoids(st, w1, p, k); }
      w, p := w1 + w2, w1 + p;
    } else if st.If? {
      w, k, p := IfTrap(st, o);
    } else if st.Match? {
      w, k, p := MatchTrap(st, o);
    } else if st.BlockStmt? {
      w, k, p := FromTrap(st.b, 0, o);
      Nested(act, st, w, (), k, o, ());
      if flagged { NestedAvoids(st, p, k); }
    } else {
      var w2;
      w2, k, p := FromTrap(st.body, 0, o);
      w := Window(Idle, true, st, w2, (), k, o, ());
      if flagged { WindowAvoids(st, p, k); }
      p := [0] + p;
    }
  }

  lemma {:induction false} IfTrap(st: Stmt, o: Outcome) returns (w: seq<int>, k: nat, p: seq<int>)
    requires st.If? && StmtWays(st).At(o).Some?
    ensures StmtTakes(Reader(), st, w, (), k, o, ()) && (StmtWays(st).At(o).value ==> p <= w && StmtAvoids(st, p, k))
    decreases st, 3
  {
    var (x, flagged) := (BlockWays(st.thn).At(o), StmtWays(st).At(o).value);
    var want := x.Some? && (flagged ==> x.value);
    Unit(Full(Idle, st.cond, Val, ()));
    var w1 := ExprPath(Idle, true, st.cond, Val, (), want);
    var w2;
    w2, k, p := FromTrap(if want then st.thn else st.els, 0, o);
    Branch(Reader(), st, want, w1, (), (), w2, k, o, ());
    if flagged { BranchAvoids(st, want, w1, p, k); }
    w, p := w1 + w2, w1 + p;
  }

  lemma {:induction false} MatchTrap(st: Stmt, o: Outcome) returns (w: seq<int>, k: nat, p: seq<int>)
    requires st.Match? && StmtWays(st).At(o).Some?
    ensures StmtTakes(Reader(), st, w, (), k, o, ()) && (StmtWays(st).At(o).value ==> p <= w && StmtAvoids(st, p, k))
    decreases st, 3
  {
    Unit(Full(Idle, st.scrutinee, Val, ()));
    var w1 := ExprPath(Idle, true, st.scrutinee, Val, (), true);
    var w2;
    w2, k, p := ArmsTrap(st, 0, o);
    MatchTakes(Reader(), st, true, w1, (), (), w2, k, o, ());
    if StmtWays(st).At(o).value { MatchAvoids(st, w1, p, k); }
    w, p := w1 + w2, w1 + p;
  }

  // The first round is the one that evaluates it.
  lemma {:induction false} RoundsTrap(st: Stmt, o: Outcome) returns (w: seq<int>, k: nat, p: seq<int>)
    requires IsLoop(st) && RoundsWays(st).At(o).Some?
    ensures RoundsTake(Reader(), st, w, (), k, o, ()) && (RoundsWays(st).At(o).value ==> p <= w && RoundsAvoid(st, p, k))
    decreases st, 1
  {
    var act, r, last := Reader(), RoundWays(st), if o == Normal then Broke else o;
    var w2, k2, p2 := RoundTrap(st, last);
    LastRound(act, st, w2, (), k2, last, ());
    if Flagged(r.normal) {
      var w1, k1, p1 := RoundTrap(st, Normal);
      FirstRound(act, st, w1, (), k1, (), w2, k2 + 1, o, ());
      RoundsAvoidToo(st, p1, k1);
      w, k, p := w1 + w2, Max(k1, k2 + 1) + 1, p1;
    } else {
      if r.At(last).value { RoundsAvoidToo(st, p2, k2); }
      w, k, p := w2, k2 + 1, p2;
    }
  }

  lemma {:induction false} RoundTrap(st: Stmt, o: Outcome) returns (w: seq<int>, k: nat, p: seq<int>)
    requires IsLoop(st) && RoundWays(st).At(o).Some?
    ensures RoundTakes(Reader(), st, w, (), k, o, ()) && (RoundWays(st).At(o).value ==> p <= w && RoundAvoids(st, p, k))
    decreases st, 0
  {
    var act, x, flagged := Reader(), BlockWays(st.body), RoundWays(st).At(o).value;
    Unit(TestDone(Idle, st, ()));
    if o == Broke && !st.Loop? && !flagged {
      w := TestPath(Idle, true, st, (), false);
      TestFails(act, st, w, (), ());
      k, p := 1, [];
    } else {
      var inner := if o == Normal && !(x.normal.Some? && (flagged ==> x.normal.value)) then Continued else o;
      var w1 := TestPath(Idle, true, st, (), true);
      var w2;
      w2, k, p := FromTrap(st.body, 0, inner);
      w := BodyRuns(Idle, true, st, w1, (), (), w2, k, inner, ());
      if flagged { BodyAvoids(st, w1, p, k); }
      k, p := k + 1, w1 + p;
    }
  }

  lemma {:induction false} ArmsTrap(st: Stmt, i: nat, o: Outcome) returns (w: seq<int>, k: nat, p: seq<int>)
    requires st.Match? && i <= |st.arms| && ArmsWays(st, i).At(o).Some?
    ensures ArmsTake(Reader(), st, i, w, (), k, o, ()) && (ArmsWays(st, i).At(o).value ==> p <= w && ArmsAvoid(st, i, p, k))
    decreases st, 1, |st.arms| - i
  {
    Units();
    var act, flagged := Reader(), ArmsWays(st, i).At(o).value;
    if i == |st.arms| {
      w, k, p := [], 0, [];
      NoArm(act, st, ());
    } else {
      var x := BlockWays(st.arms[i].body).At(o);
      if PWild in st.arms[i].patterns {
        w, k, p := FromTrap(st.arms[i].body, 0, o);
        WildArm(act, st, i, w, (), k, o, ());
        if flagged { WildAvoids(st, i, p, k); }
      } else {
        var hit := x.Some? && (flagged ==> x.value);
        if hit { w, k, p := FromTrap(st.arms[i].body, 0, o); } else { w, k, p := ArmsTrap(st, i + 1, o); }
        w := TestedArm(Idle, true, st, i, hit, w, (), k, o, ());
        if flagged { TestedAvoids(st, i, hit, p, k); }
        p := [Sign(hit)] + p;
      }
    }
  }

  // --- the theorem ---

  // Under every tape the body and its stripped form finish alike.
  ghost predicate SameEnds(body: Block) {
    forall t: seq<int>, x :: Ends(Reader(), body, On(t), x) <==> Ends(Reader(), Strip(body), On(t), x)
  }

  // Were they to finish alike, each path into the trap would lead to a shorter
  // one.
  lemma {:induction false} Descends(body: Block, p: seq<int>, k: nat, v: seq<int>, fuel: nat)
    requires SameEnds(body) && FromAvoids(body, 0, p, k)
    ensures !Finishes(Reader(), body, On(p + v), fuel, On([]))
    decreases |v|
  {
    Units();
    if Finishes(Reader(), body, On(p + v), fuel, On([])) {
      var (o, r) := ExecBlock(Reader(), body, On(p + v), fuel);
      MoreFuel(Reader(), body, 0, On(p + v), fuel, Max(fuel, k));
      assert FromEnds(body, 0, On(p + v), Max(fuel, k), o, []);
      var x, j: nat :| FromTakes(Reader(), Strip(body), 0, p + x, (), j, o, ()) && |x| + 0 < |v|;
      assert FromOn(Reader(), Strip(body), 0, p + x + [], (), j, o, [], ());
      assert p + x + [] == p + x;
      assert Finishes(Reader(), Strip(body), On(p + x), j, On([]));
      assert Ends(Reader(), body, On(p + x), On([]));
      var more: nat :| Finishes(Reader(), body, On(p + x), more, On([]));
      Descends(body, p, k, x, more);
    }
  }

  // A body and its stripped form finish alike under every choice of values
  // exactly when no path that ends evaluates a trailing expression.
  lemma {:induction false} SameEndsExactly(body: Block)
    ensures SameEnds(body) <==> !DropsTrailing(body)
  {
    if DropsTrailing(body) {
      var o := if Flagged(BlockWays(body).normal) then Normal else Returned;
      var w, k, p := FromTrap(body, 0, o);
      assert w + [] == w && FromOn(Reader(), body, 0, w + [], (), k, o, [], ());
      assert p + w[|p|..] == w;
      assert Finishes(Reader(), body, On(p + w[|p|..]), k, On([]));
      if SameEnds(body) { Descends(body, p, k, w[|p|..], k); }
    } else {
      forall t: seq<int>, x
        ensures Ends(Reader(), body, On(t), x) <==> Ends(Reader(), Strip(body), On(t), x)
      {
        FinishesAlike(Reader(), body, On(t), x);
      }
    }
  }
}
