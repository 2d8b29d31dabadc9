// The analysis is exact: every way out it knows, and every use it reports, is
// taken by some run.
module MoveExactness {
  import opened Ast
  import opened Semantics
  import opened Tapes
  import opened Paths
  import opened MoveTracking
  import opened MoveTrackingSound

  // --- faults stay ---

  lemma {:induction false} EvalStays(negates: bool, y: string, e: Expr, mode: Mode, r: Run)
    requires y in r.d.faulted
    ensures y in Eval(MoveAct(negates), e, mode, r).1.d.faulted
    decreases e, 1
  {
    var act := MoveAct(negates);
    if e.Ident? {
      ActIs(negates, if mode == Val then Read(e.name) else Addr(e.name), [], r);
    } else if e.Group? {
      EvalStays(negates, y, e.inner, mode, r);
    } else if Logical(e) {
      EvalStays(negates, y, e.left, Val, r);
      EvalStays(negates, y, e.right, Val, Eval(act, e.left, Val, r).1);
    } else {
      PartsStay(negates, y, e, Parts(e, mode), r);
      var (vs, r1) := EvalParts(act, e, Parts(e, mode), r);
      ActIs(negates, Node(e), vs, r1);
    }
  }

  lemma {:induction false} PartsStay(negates: bool, y: string, whole: Expr, ps: seq<(Expr, Mode)>, r: Run)
    requires (forall p <- ps :: p.0 < whole) && y in r.d.faulted
    ensures y in EvalParts(MoveAct(negates), whole, ps, r).1.d.faulted
    decreases whole, 0, |ps|
  {
    if ps != [] {
      EvalStays(negates, y, ps[0].0, ps[0].1, r);
      PartsStay(negates, y, whole, ps[1..], Eval(MoveAct(negates), ps[0].0, ps[0].1, r).1);
    }
  }

  lemma {:induction false} TargetStays(negates: bool, y: string, ps: seq<(Expr, Mode)>, r: Run)
    requires y in r.d.faulted
    ensures y in EvalTarget(MoveAct(negates), ps, r).1.d.faulted
    decreases |ps|
  {
    if ps != [] {
      EvalStays(negates, y, ps[0].0, ps[0].1, r);
      TargetStays(negates, y, ps[1..], Eval(MoveAct(negates), ps[0].0, ps[0].1, r).1);
    }
  }

  lemma OptStays(negates: bool, y: string, e: Option<Expr>, r: Run)
    requires y in r.d.faulted
    ensures y in EvalOpt(MoveAct(negates), e, r).d.faulted && y in EvalStep(MoveAct(negates), e, r).1.d.faulted
  {
    if e.Some? { EvalStays(negates, y, e.value, Val, r); }
  }

  lemma AssignStays(negates: bool, y: string, lv: LValue, value: Expr, r: Run)
    requires y in r.d.faulted
    ensures y in ExecAssign(MoveAct(negates), lv, value, r).1.d.faulted
  {
    var act := MoveAct(negates);
    EvalStays(negates, y, value, Val, r);
    var (v, r1) := Eval(act, value, Val, r);
    TargetStays(negates, y, TargetParts(lv), r1);
    var (vs, r2) := EvalTarget(act, TargetParts(lv), r1);
    ActIs(negates, Store(lv), vs + [v], r2);
  }

  lemma {:induction false} FromStays(negates: bool, y: string, b: Block, i: nat, r: Run, fuel: nat)
    requires i <= |b.stmts| && y in r.d.faulted
    ensures y in ExecFrom(MoveAct(negates), b, i, r, fuel).1.d.faulted
    decreases fuel, b, |b.stmts| - i
  {
    if i == |b.stmts| {
      OptStays(negates, y, b.trailing, r);
    } else {
      StmtStays(negates, y, b.stmts[i], r, fuel);
      var (o, r1) := ExecStmt(MoveAct(negates), b.stmts[i], r, fuel);
      if o == Normal { FromStays(negates, y, b, i + 1, r1, fuel); }
    }
  }

  lemma {:induction false} StmtStays(negates: bool, y: string, st: Stmt, r: Run, fuel: nat)
    requires y in r.d.faulted
    ensures y in ExecStmt(MoveAct(negates), st, r, fuel).1.d.faulted
    decreases fuel, st, 3
  {
    var act := MoveAct(negates);
    if Straight(st) {
      StraightStays(negates, y, st, r, fuel);
    } else if IsLoop(st) {
      EntryStays(negates, y, st, r);
      LoopIsRounds(act, st, r, fuel);
      var (bound, inc, r1) := Entry(act, st, r);
      RoundsStay(negates, y, st, bound, inc, r1, fuel);
    } else if st.If? {
      EvalStays(negates, y, st.cond, Val, r);
      var (v, r1) := Eval(act, st.cond, Val, r);
      FromStays(negates, y, if v != 0 then st.thn else st.els, 0, r1, fuel);
    } else if st.Match? {
      EvalStays(negates, y, st.scrutinee, Val, r);
      var (v, r1) := Eval(act, st.scrutinee, Val, r);
      ArmsStay(negates, y, st, 0, v, r1, fuel);
    } else if st.BlockStmt? {
      FromStays(negates, y, st.b, 0, r, fuel);
    } else {
      ActIs(negates, Enter(st.name), [], r);
      var r1 := act(Enter(st.name), [], r).1;
      FromStays(negates, y, st.body, 0, r1, fuel);
      ActIs(negates, Leave(st.name), [], ExecBlock(act, st.body, r1, fuel).1);
    }
  }

  lemma {:induction false} StraightStays(negates: bool, y: string, st: Stmt, r: Run, fuel: nat)
    requires Straight(st) && y in r.d.faulted
    ensures y in ExecStmt(MoveAct(negates), st, r, fuel).1.d.faulted
  {
    var act := MoveAct(negates);
    match st
    case VarDecl(x, moves, init) =>
      EvalStays(negates, y, init, Val, r);
      var (v, r1) := Eval(act, init, Val, r);
      ActIs(negates, Declare(x, moves), [v], r1);
    case Assign(lv, value) => AssignStays(negates, y, lv, value, r);
    case CompoundAssign(lv, op, value) => AssignStays(negates, y, lv, Binary(lv.ToExpr(), op, value), r);
    case ExprStmt(e) => EvalStays(negates, y, e, Val, r);
    case Return(Some(e)) =>
      EvalStays(negates, y, e, Val, r);
      var (v, r1) := Eval(act, e, Val, r);
      ActIs(negates, Result, [v], r1);
    case Return(None) =>
    case Break =>
    case Continue =>
  }

  lemma EntryStays(negates: bool, y: string, st: Stmt, r: Run)
    requires IsLoop(st) && y in r.d.faulted
    ensures y in Entry(MoveAct(negates), st, r).2.d.faulted
  {
    if st.For? {
      var act := MoveAct(negates);
      EvalStays(negates, y, st.start, Val, r);
      var (v, r1) := Eval(act, st.start, Val, r);
      EvalStays(negates, y, st.end, Val, r1);
      var r2 := Eval(act, st.end, Val, r1).1;
      OptStays(negates, y, st.step, r2);
      ActIs(negates, ForInit(st.v), [v], EvalStep(act, st.step, r2).1);
    }
  }

  lemma {:induction false} RoundsStay(negates: bool, y: string, st: Stmt, bound: int, inc: int, r: Run, fuel: nat)
    requires IsLoop(st) && y in r.d.faulted
    ensures y in Rounds(MoveAct(negates), st, bound, inc, r, fuel).1.d.faulted
    decreases fuel, st, 1
  {
    if fuel > 0 {
      RoundsUnroll(MoveAct(negates), st, bound, inc, r, fuel);
      RoundStays(negates, y, st, bound, inc, r, fuel);
      var (o, r1) := Round(MoveAct(negates), st, bound, inc, r, fuel);
      if o == Normal { RoundsStay(negates, y, st, bound, inc, r1, fuel - 1); }
    }
  }

  lemma {:induction false} RoundStays(negates: bool, y: string, st: Stmt, bound: int, inc: int, r: Run, fuel: nat)
    requires IsLoop(st) && fuel > 0 && y in r.d.faulted
    ensures y in Round(MoveAct(negates), st, bound, inc, r, fuel).1.d.faulted
    decreases fuel, st, 0
  {
    var act := MoveAct(negates);
    var (v, r1) := Test(act, st, bound, r);
    if st.While? { EvalStays(negates, y, st.cond, Val, r); } else if st.For? { ActIs(negates, ForMore(st.v, st.dir), [bound], r); }
    if v != 0 {
      FromStays(negates, y, st.body, 0, r1, fuel - 1);
      if st.For? { ActIs(negates, ForStep(st.v, st.dir), [inc], ExecBlock(act, st.body, r1, fuel - 1).1); }
    }
  }

  lemma {:induction false} ArmsStay(negates: bool, y: string, st: Stmt, i: nat, v: int, r: Run, fuel: nat)
    requires st.Match? && i <= |st.arms| && y in r.d.faulted
    ensures y in ExecArms(MoveAct(negates), st, i, v, r, fuel).1.d.faulted
    decreases fuel, st, 1, |st.arms| - i
  {
    if i < |st.arms| {
      var arm := st.arms[i];
      ActIs(negates, Select(arm.patterns), [v], r);
      var (hit, r1) := MoveAct(negates)(Select(arm.patterns), [v], r);
      FromStays(negates, y, arm.body, 0, if PWild in arm.patterns then r else r1, fuel);
      ArmsStay(negates, y, st, i + 1, v, r1, fuel);
    }
  }

  // --- completeness: expressions ---

  // The run's view of the local is the tracked one.
  ghost predicate Sees(m: Moved, y: string, f: bool, typ: bool, known: set<string>) {
    y in known ==> (y in m.consumed <==> f) && (y in m.typed <==> typ)
  }

  // From `m` to `m2` the flag goes to `g`, and `bad` uses are recorded.
  ghost predicate Follows(m: Moved, m2: Moved, y: string, g: bool, bad: bool, typ: bool, known: set<string>) {
    Sees(m2, y, g, typ, known) && (bad ==> y in m2.faulted)
  }

  lemma {:induction false} FullFollows(y: string, e: Expr, mode: Mode, m: Moved, f: bool, typ: bool, known: set<string>, before: bool)
    requires Sees(m, y, f, typ, known) && ScopedExpr(e, known) && (before ==> y in m.faulted)
    ensures var (g, bad) := TrackExpr(y, e, mode, f, typ); Follows(m, Full(Observe, e, mode, m), y, g, bad || before, typ, known)
    decreases e, 1
  {
    match e
    case Ident(x) =>
    case Group(i) => FullFollows(y, i, mode, m, f, typ, known, before);
    case Binary(l, op, r) =>
      TrackBinary(y, l, op, r, mode, f, typ);
      if op == And || op == Or {
        FullFollows(y, l, Val, m, f, typ, known, before);
        var (g, bad) := TrackExpr(y, l, Val, f, typ);
        FullFollows(y, r, Val, Full(Observe, l, Val, m), g, typ, known, bad || before);
      } else {
        FullNodeFollows(y, e, mode, m, f, typ, known, before);
      }
    case _ => FullNodeFollows(y, e, mode, m, f, typ, known, before);
  }

  lemma {:induction false} FullNodeFollows(y: string, e: Expr, mode: Mode, m: Moved, f: bool, typ: bool, known: set<string>, before: bool)
    requires !e.Ident? && !e.Group? && !Logical(e)
    requires Sees(m, y, f, typ, known) && ScopedExpr(e, known) && (before ==> y in m.faulted)
    ensures var (g, bad) := TrackExpr(y, e, mode, f, typ); Follows(m, Full(Observe, e, mode, m), y, g, bad || before, typ, known)
    decreases e, 0
  {
    PartNames(e, mode);
    FullPartsFollow(y, e, Parts(e, mode), m, f, typ, known, before);
    var m1 := FullParts(Observe, e, Parts(e, mode), m);
    assert Observe(Node(e), m1) == m1;
  }

  lemma {:induction false} FullPartsFollow(y: string, whole: Expr, ps: seq<(Expr, Mode)>, m: Moved, f: bool, typ: bool, known: set<string>, before: bool)
    requires forall p <- ps :: p.0 < whole && ScopedExpr(p.0, known)
    requires Sees(m, y, f, typ, known) && (before ==> y in m.faulted)
    ensures var (g, bad) := TrackParts(y, whole, ps, f, typ); Follows(m, FullParts(Observe, whole, ps, m), y, g, bad || before, typ, known)
    decreases whole, 0, |ps|
  {
    if ps != [] {
      FullFollows(y, ps[0].0, ps[0].1, m, f, typ, known, before);
      var (g, bad) := TrackExpr(y, ps[0].0, ps[0].1, f, typ);
      FullPartsFollow(y, whole, ps[1..], Full(Observe, ps[0].0, ps[0].1, m), g, typ, known, bad || before);
    }
  }

  lemma {:induction false} FullTargetFollows(y: string, ps: seq<(Expr, Mode)>, m: Moved, f: bool, typ: bool, known: set<string>, before: bool)
    requires (forall p <- ps :: ScopedExpr(p.0, known)) && Sees(m, y, f, typ, known) && (before ==> y in m.faulted)
    ensures var (g, bad) := TrackTarget(y, ps, f, typ); Follows(m, FullTarget(Observe, ps, m), y, g, bad || before, typ, known)
    decreases |ps|
  {
    if ps != [] {
      FullFollows(y, ps[0].0, ps[0].1, m, f, typ, known, before);
      var (g, bad) := TrackExpr(y, ps[0].0, ps[0].1, f, typ);
      FullTargetFollows(y, ps[1..], Full(Observe, ps[0].0, ps[0].1, m), g, typ, known, bad || before);
    }
  }

  lemma FullOptFollows(y: string, e: Option<Expr>, m: Moved, f: bool, typ: bool, known: set<string>, before: bool)
    requires Sees(m, y, f, typ, known) && ScopedOpt(e, known) && (before ==> y in m.faulted)
    ensures var (g, bad) := TrackOpt(y, e, f, typ); Follows(m, FullOpt(Observe, e, m), y, g, bad || before, typ, known)
  {
    if e.Some? { FullFollows(y, e.value, Val, m, f, typ, known, before); }
  }

  lemma FullAssignFollows(y: string, lv: LValue, value: Expr, m: Moved, f: bool, typ: bool, known: set<string>)
    requires Sees(m, y, f, typ, known) && LNames(lv) <= known && ScopedExpr(value, known)
    ensures var x := TrackAssign(y, lv, value, f, typ); Follows(m, AssignDone(Observe, lv, value, m), y, x.normal.value, x.bad, typ, known)
  {
    FullFollows(y, value, Val, m, f, typ, known, false);
    var (g, bad) := TrackExpr(y, value, Val, f, typ);
    var m1 := Full(Observe, value, Val, m);
    StoredFollows(y, lv, m1, g, typ, known, bad);
    assert TrackAssign(y, lv, value, f, typ) == TrackStore(y, lv, g, typ, bad);
    assert AssignDone(Observe, lv, value, m) == Observe(Store(lv), FullTarget(Observe, TargetParts(lv), m1));
  }

  lemma StoredFollows(y: string, lv: LValue, m: Moved, f: bool, typ: bool, known: set<string>, before: bool)
    requires Sees(m, y, f, typ, known) && LNames(lv) <= known && (before ==> y in m.faulted)
    ensures var x := TrackStore(y, lv, f, typ, before);
      Follows(m, Observe(Store(lv), FullTarget(Observe, TargetParts(lv), m)), y, x.normal.value, x.bad, typ, known)
  {
    TargetPartNames(lv);
    var ps := TargetParts(lv);
    FullTargetFollows(y, ps, m, f, typ, known, before);
    StoreFollows(y, lv, FullTarget(Observe, ps, m), TrackTarget(y, ps, f, typ).0, typ, known);
  }

  lemma StoreFollows(y: string, lv: LValue, m: Moved, f: bool, typ: bool, known: set<string>)
    requires Sees(m, y, f, typ, known)
    ensures Sees(Observe(Store(lv), m), y, f && lv != LName(y), typ, known) && Observe(Store(lv), m).faulted == m.faulted
  {}

  // A straight statement does what the analysis says.
  lemma {:induction false} StraightFollows(y: string, st: Stmt, m: Moved, f: bool, typ: bool, known: set<string>)
    requires Straight(st) && Sees(m, y, f, typ, known) && ScopedStmt(st, known)
    ensures var (x, m2) := (TrackStmt(y, st, f, typ), StraightDone(Observe, st, m));
      && (x.bad ==> y in m2.faulted)
      && (StraightOutcome(st) != Returned ==> x.At(StraightOutcome(st)).Some? && Sees(m2, y, x.At(StraightOutcome(st)).value, TypeAfter(y, st, typ), KnownAfter(st, known)))
  {
    match st
    case VarDecl(x, moves, init) => FullFollows(y, init, Val, m, f, typ, known, false);
    case Assign(lv, value) => FullAssignFollows(y, lv, value, m, f, typ, known);
    case CompoundAssign(lv, op, value) =>
      ToExprNames(lv);
      FullAssignFollows(y, lv, Binary(lv.ToExpr(), op, value), m, f, typ, known);
    case ExprStmt(e) => FullFollows(y, e, Val, m, f, typ, known, false);
    case Return(e) => FullOptFollows(y, e, m, f, typ, known, false);
    case Break =>
    case Continue =>
  }

  // --- completeness: paths ---

  // Every way out the analysis knows is taken by some path, with its flag.
  lemma {:induction false} BlockPath(negates: bool, y: string, b: Block, m: Moved, f: bool, typ: bool, known: set<string>, o: Outcome) returns (w: seq<int>, k: nat, m2: Moved)
    requires Sees(m, y, f, typ, known) && ScopedBlock(b, known) && TrackBlock(y, b, f, typ).At(o).Some?
    ensures BlockTakes(MoveAct(negates), b, w, m, k, o, m2) && Sees(m2, y, TrackBlock(y, b, f, typ).At(o).value, typ, known)
    decreases b, |b.stmts| + 1
  {
    w, k, m2 := FromPath(negates, y, b, 0, m, f, typ, known, known, o);
  }

  lemma {:induction false} FromPath(negates: bool, y: string, b: Block, i: nat, m: Moved, f: bool, typ: bool, outer: set<string>, known: set<string>, o: Outcome)
    returns (w: seq<int>, k: nat, m2: Moved)
    requires i <= |b.stmts| && outer <= known
    requires Sees(m, y, f, typ, known) && ScopedFrom(b, i, known) && TrackFrom(y, b, i, f, typ).At(o).Some?
    ensures FromTakes(MoveAct(negates), b, i, w, m, k, o, m2) && Sees(m2, y, TrackFrom(y, b, i, f, typ).At(o).value, typ, outer)
    decreases b, |b.stmts| - i
  {
    var act := MoveAct(negates);
    if i == |b.stmts| {
      w := EndPath(Observe, negates, b, m);
      k, m2 := 0, FullOpt(Observe, b.trailing, m);
      FullOptFollows(y, b.trailing, m, f, typ, known, false);
    } else {
      var st := b.stmts[i];
      var (a, x) := (TrackStmt(y, st, f, typ), TrackFrom(y, b, i, f, typ));
      if o != Normal && a.At(o) == x.At(o) {
        w, k, m2 := StmtPath(negates, y, st, m, f, typ, known, o);
        Jumps(act, b, i, w, m, k, o, m2);
      } else {
        var w1, k1, m1 := StmtPath(negates, y, st, m, f, typ, known, Normal);
        var w2, k2, m3 := FromPath(negates, y, b, i + 1, m1, a.normal.value, TypeAfter(y, st, typ), outer, KnownAfter(st, known), o);
        Sequence(act, b, i, w1, m, k1, m1, w2, k2, o, m3);
        w, k, m2 := w1 + w2, Max(k1, k2), m3;
      }
    }
  }

  lemma {:induction false} StmtPath(negates: bool, y: string, st: Stmt, m: Moved, f: bool, typ: bool, known: set<string>, o: Outcome) returns (w: seq<int>, k: nat, m2: Moved)
    requires Sees(m, y, f, typ, known) && ScopedStmt(st, known) && TrackStmt(y, st, f, typ).At(o).Some?
    ensures StmtTakes(MoveAct(negates), st, w, m, k, o, m2)
    ensures Sees(m2, y, TrackStmt(y, st, f, typ).At(o).value, TypeAfter(y, st, typ), KnownAfter(st, known))
    decreases st, 4
  {
    var act := MoveAct(negates);
    if Straight(st) {
      w := StraightPath(Observe, negates, st, m);
      k, m2 := 0, StraightDone(Observe, st, m);
      StraightFollows(y, st, m, f, typ, known);
      assert o == StraightOutcome(st);
    } else if IsLoop(st) {
      w, k, m2 := LoopPath(negates, y, st, m, f, typ, known, o);
    } else if st.If? {
      w, k, m2 := IfPath(negates, y, st, m, f, typ, known, o);
    } else if st.Match? {
      FullFollows(y, st.scrutinee, Val, m, f, typ, known, false);
      var w1 := ExprPath(Observe, negates, st.scrutinee, Val, m, true);
      var m1 := Full(Observe, st.scrutinee, Val, m);
      var w2;
      w2, k, m2 := ArmsPath(negates, y, st, 0, m1, TrackExpr(y, st.scrutinee, Val, f, typ).0, typ, known, o);
      MatchTakes(act, st, true, w1, m, m1, w2, k, o, m2);
      w := w1 + w2;
    } else if st.BlockStmt? {
      w, k, m2 := BlockPath(negates, y, st.b, m, f, typ, known, o);
      Nested(act, st, w, m, k, o, m2);
    } else {
      w, k, m2 := BlockPath(negates, y, st.body, m, f, typ, known, o);
      w := Window(Observe, negates, st, w, m, k, o, m2);
    }
  }

  lemma {:induction false} IfPath(negates: bool, y: string, st: Stmt, m: Moved, f: bool, typ: bool, known: set<string>, o: Outcome) returns (w: seq<int>, k: nat, m2: Moved)
    requires st.If? && Sees(m, y, f, typ, known) && ScopedStmt(st, known) && TrackStmt(y, st, f, typ).At(o).Some?
    ensures StmtTakes(MoveAct(negates), st, w, m, k, o, m2) && Sees(m2, y, TrackStmt(y, st, f, typ).At(o).value, typ, known)
    decreases st, 3
  {
    FullFollows(y, st.cond, Val, m, f, typ, known, false);
    var g := TrackExpr(y, st.cond, Val, f, typ).0;
    var m1 := Full(Observe, st.cond, Val, m);
    var want := TrackBlock(y, st.thn, g, typ).At(o) == TrackStmt(y, st, f, typ).At(o);
    var w1 := ExprPath(Observe, negates, st.cond, Val, m, want);
    var w2;
    w2, k, m2 := BlockPath(negates, y, if want then st.thn else st.els, m1, g, typ, known, o);
    Branch(MoveAct(negates), st, want, w1, m, m1, w2, k, o, m2);
    w := w1 + w2;
  }

  lemma {:induction false} ArmsPath(negates: bool, y: string, st: Stmt, i: nat, m: Moved, f: bool, typ: bool, known: set<string>, o: Outcome) returns (w: seq<int>, k: nat, m2: Moved)
    requires st.Match? && i <= |st.arms| && Sees(m, y, f, typ, known) && (forall arm <- st.arms :: ScopedBlock(arm.body, known)) && TrackArms(y, st, i, f, typ).At(o).Some?
    ensures ArmsTake(MoveAct(negates), st, i, w, m, k, o, m2) && Sees(m2, y, TrackArms(y, st, i, f, typ).At(o).value, typ, known)
    decreases st, 1, |st.arms| - i
  {
    var act := MoveAct(negates);
    if i == |st.arms| {
      w, k, m2 := [], 0, m;
      NoArm(act, st, m);
    } else {
      var arm := st.arms[i];
      assert arm in st.arms;
      if PWild in arm.patterns {
        w, k, m2 := BlockPath(negates, y, arm.body, m, f, typ, known, o);
        WildArm(act, st, i, w, m, k, o, m2);
      } else {
        var hit := TrackBlock(y, arm.body, f, typ).At(o) == TrackArms(y, st, i, f, typ).At(o);
        if hit {
          w, k, m2 := BlockPath(negates, y, arm.body, m, f, typ, known, o);
        } else {
          w, k, m2 := ArmsPath(negates, y, st, i + 1, m, f, typ, known, o);
        }
        w := TestedArm(Observe, negates, st, i, hit, w, m, k, o, m2);
      }
    }
  }

  // The tracked state of a loop where its first round begins.
  function EntryFlag(y: string, st: Stmt, f: bool, typ: bool): bool
    requires IsLoop(st)
  {
    if st.For? then TrackEntry(y, st, f, typ).0 && st.v != y else f
  }

  function EntryType(y: string, st: Stmt, typ: bool): bool { if st.For? then typ && st.v != y else typ }

  lemma EntryFollows(y: string, st: Stmt, m: Moved, f: bool, typ: bool, known: set<string>)
    requires IsLoop(st) && Sees(m, y, f, typ, known) && ScopedStmt(st, known)
    ensures Sees(EntryDone(Observe, st, m), y, EntryFlag(y, st, f, typ), EntryType(y, st, typ), KnownInside(st, known))
    ensures st.For? && TrackEntry(y, st, f, typ).1 ==> y in EntryDone(Observe, st, m).faulted
  {
    if st.For? {
      FullFollows(y, st.start, Val, m, f, typ, known, false);
      var (g1, b1) := TrackExpr(y, st.start, Val, f, typ);
      var m1 := Full(Observe, st.start, Val, m);
      FullFollows(y, st.end, Val, m1, g1, typ, known, b1);
      var (g2, b2) := TrackExpr(y, st.end, Val, g1, typ);
      FullOptFollows(y, st.step, Full(Observe, st.end, Val, m1), g2, typ, known, b1 || b2);
    }
  }

  lemma {:induction false} LoopPath(negates: bool, y: string, st: Stmt, m: Moved, f: bool, typ: bool, known: set<string>, o: Outcome) returns (w: seq<int>, k: nat, m2: Moved)
    requires IsLoop(st) && Sees(m, y, f, typ, known) && ScopedStmt(st, known) && TrackStmt(y, st, f, typ).At(o).Some?
    ensures StmtTakes(MoveAct(negates), st, w, m, k, o, m2) && Sees(m2, y, TrackStmt(y, st, f, typ).At(o).value, typ, known)
    decreases st, 3
  {
    var (g, t) := (EntryFlag(y, st, f, typ), EntryType(y, st, typ));
    EntryFollows(y, st, m, f, typ, known);
    var w1 := EntryPath(Observe, negates, st, m);
    var m1 := EntryDone(Observe, st, m);
    assert TrackStmt(y, st, f, typ).At(o) == TrackRounds(y, st, g, t).At(o);
    var w2;
    w2, k, m2 := RoundsPath(negates, y, st, m1, g, t, KnownInside(st, known));
    LoopTakes(MoveAct(negates), st, w1, m, m1, w2, k, Normal, m2);
    w := w1 + w2;
  }

  // To the end of the loop: one round if the flag at its head is already what
  // it becomes, two otherwise.
  lemma {:induction false} RoundsPath(negates: bool, y: string, st: Stmt, m: Moved, f: bool, typ: bool, known: set<string>) returns (w: seq<int>, k: nat, m2: Moved)
    requires IsLoop(st) && Sees(m, y, f, typ, known) && ScopedBlock(st.body, known) && (st.While? ==> ScopedExpr(st.cond, known))
    requires TrackRounds(y, st, f, typ).normal.Some?
    ensures RoundsTake(MoveAct(negates), st, w, m, k, Normal, m2) && Sees(m2, y, TrackRounds(y, st, f, typ).normal.value, typ, known)
    decreases st, 2
  {
    var act := MoveAct(negates);
    var w1, k1, m1 := HeadPath(negates, y, st, m, f, typ, known);
    w, k, m2 := RoundPath(negates, y, st, m1, HeadFlag(y, st, f, typ), typ, known, Broke);
    LastRound(act, st, w, m1, k, Broke, m2);
    k := k + 1;
    if HeadFlag(y, st, f, typ) != f {
      FirstRound(act, st, w1, m, k1, m1, w, k, Normal, m2);
      w, k := w1 + w, Max(k1, k) + 1;
    }
  }

  // To a head at which the flag is what it becomes over all rounds: at once, or
  // after one round.
  lemma {:induction false} HeadPath(negates: bool, y: string, st: Stmt, m: Moved, f: bool, typ: bool, known: set<string>) returns (w: seq<int>, k: nat, m2: Moved)
    requires IsLoop(st) && Sees(m, y, f, typ, known) && ScopedBlock(st.body, known) && (st.While? ==> ScopedExpr(st.cond, known))
    ensures Sees(m2, y, HeadFlag(y, st, f, typ), typ, known)
    ensures if HeadFlag(y, st, f, typ) == f then m2 == m else RoundTakes(MoveAct(negates), st, w, m, k, Normal, m2)
    decreases st, 1
  {
    if HeadFlag(y, st, f, typ) == f {
      w, k, m2 := [], 0, m;
    } else {
      w, k, m2 := RoundPath(negates, y, st, m, f, typ, known, Normal);
    }
  }

  lemma {:induction false} RoundPath(negates: bool, y: string, st: Stmt, m: Moved, f: bool, typ: bool, known: set<string>, o: Outcome) returns (w: seq<int>, k: nat, m2: Moved)
    requires IsLoop(st) && Sees(m, y, f, typ, known) && ScopedBlock(st.body, known) && (st.While? ==> ScopedExpr(st.cond, known))
    requires TrackRound(y, st, f, typ).At(o).Some?
    ensures RoundTakes(MoveAct(negates), st, w, m, k, o, m2) && Sees(m2, y, TrackRound(y, st, f, typ).At(o).value, typ, known)
    decreases st, 0
  {
    var act := MoveAct(negates);
    var m1 := TestDone(Observe, st, m);
    if st.While? { FullFollows(y, st.cond, Val, m, f, typ, known, false); }
    var g := if st.While? then TrackExpr(y, st.cond, Val, f, typ).0 else f;
    var (x, z) := (TrackBlock(y, st.body, g, typ), TrackRound(y, st, f, typ));
    if o == Broke && x.brk != z.brk {
      w := TestPath(Observe, negates, st, m, false);
      TestFails(act, st, w, m, m1);
      k, m2 := 1, m1;
    } else {
      var inner := if o == Broke then Broke else if x.normal == z.normal then Normal else Continued;
      var w1 := TestPath(Observe, negates, st, m, true);
      var w2, k2, m3 := BlockPath(negates, y, st.body, m1, g, typ, known, inner);
      w := BodyRuns(Observe, negates, st, w1, m, m1, w2, k2, inner, m3);
      k, m2 := k2 + 1, m3;
    }
  }

  // --- completeness: uses of a moved local ---

  ghost predicate StmtHits(negates: bool, y: string, st: Stmt, w: seq<int>, m: Moved, k: nat) {
    forall fuel: nat :: fuel >= k ==> y in ExecStmt(MoveAct(negates), st, Driven(Some(w), m), fuel).1.d.faulted
  }

  ghost predicate FromHits(negates: bool, y: string, b: Block, i: nat, w: seq<int>, m: Moved, k: nat)
    requires i <= |b.stmts|
  {
    forall fuel: nat :: fuel >= k ==> y in ExecFrom(MoveAct(negates), b, i, Driven(Some(w), m), fuel).1.d.faulted
  }

  ghost predicate RoundHits(negates: bool, y: string, st: Stmt, w: seq<int>, m: Moved, k: nat)
    requires IsLoop(st)
  {
    forall fuel: nat, bound, inc :: fuel >= k && fuel > 0 ==> y in Round(MoveAct(negates), st, bound, inc, Driven(Some(w), m), fuel).1.d.faulted
  }

  ghost predicate RoundsHit(negates: bool, y: string, st: Stmt, w: seq<int>, m: Moved, k: nat)
    requires IsLoop(st)
  {
    forall fuel: nat, bound, inc :: fuel >= k ==> y in Rounds(MoveAct(negates), st, bound, inc, Driven(Some(w), m), fuel).1.d.faulted
  }

  ghost predicate ArmsHit(negates: bool, y: string, st: Stmt, i: nat, w: seq<int>, m: Moved, k: nat)
    requires st.Match? && i <= |st.arms|
  {
    forall fuel: nat, v :: fuel >= k ==> y in ExecArms(MoveAct(negates), st, i, v, Driven(Some(w), m), fuel).1.d.faulted
  }

  lemma {:induction false} FromFault(negates: bool, y: string, b: Block, i: nat, m: Moved, f: bool, typ: bool, known: set<string>) returns (w: seq<int>, k: nat)
    requires i <= |b.stmts| && Sees(m, y, f, typ, known) && ScopedFrom(b, i, known) && TrackFrom(y, b, i, f, typ).bad
    ensures FromHits(negates, y, b, i, w, m, k)
    decreases b, |b.stmts| - i
  {
    var act := MoveAct(negates);
    if i == |b.stmts| {
      w := EndPath(Observe, negates, b, m);
      k := 0;
      FullOptFollows(y, b.trailing, m, f, typ, known, false);
      forall fuel: nat ensures y in ExecFrom(act, b, i, Driven(Some(w), m), fuel).1.d.faulted {
        assert w + [] == w && FromOn(act, b, i, w + [], m, fuel, Normal, [], FullOpt(Observe, b.trailing, m));
      }
    } else {
      var st := b.stmts[i];
      var a := TrackStmt(y, st, f, typ);
      if a.bad {
        w, k := StmtFault(negates, y, st, m, f, typ, known);
        forall fuel: nat | fuel >= k ensures y in ExecFrom(act, b, i, Driven(Some(w), m), fuel).1.d.faulted {
          var (o, r1) := ExecStmt(act, st, Driven(Some(w), m), fuel);
          if o == Normal { FromStays(negates, y, b, i + 1, r1, fuel); }
        }
      } else {
        var w1, k1, m1 := StmtPath(negates, y, st, m, f, typ, known, Normal);
        var w2, k2 := FromFault(negates, y, b, i + 1, m1, a.normal.value, TypeAfter(y, st, typ), KnownAfter(st, known));
        w, k := w1 + w2, Max(k1, k2);
        forall fuel: nat | fuel >= k ensures y in ExecFrom(act, b, i, Driven(Some(w), m), fuel).1.d.faulted {
          assert StmtOn(act, st, w1 + w2, m, fuel, Normal, w2, m1);
        }
      }
    }
  }

  lemma {:induction false} StmtFault(negates: bool, y: string, st: Stmt, m: Moved, f: bool, typ: bool, known: set<string>) returns (w: seq<int>, k: nat)
    requires Sees(m, y, f, typ, known) && ScopedStmt(st, known) && TrackStmt(y, st, f, typ).bad
    ensures StmtHits(negates, y, st, w, m, k)
    decreases st, 4
  {
    var act := MoveAct(negates);
    if Straight(st) {
      w := StraightPath(Observe, negates, st, m);
      k := 0;
      StraightFollows(y, st, m, f, typ, known);
      forall fuel: nat ensures y in ExecStmt(act, st, Driven(Some(w), m), fuel).1.d.faulted {
        assert w + [] == w && StmtOn(act, st, w + [], m, fuel, StraightOutcome(st), [], StraightDone(Observe, st, m));
      }
    } else if IsLoop(st) {
      w, k := LoopFault(negates, y, st, m, f, typ, known);
    } else if st.If? {
      w, k := IfFault(negates, y, st, m, f, typ, known);
    } else if st.Match? {
      w, k := MatchFault(negates, y, st, m, f, typ, known);
    } else if st.BlockStmt? {
      w, k := FromFault(negates, y, st.b, 0, m, f, typ, known);
      forall fuel: nat | fuel >= k ensures y in ExecStmt(act, st, Driven(Some(w), m), fuel).1.d.faulted {
        assert y in ExecFrom(act, st.b, 0, Driven(Some(w), m), fuel).1.d.faulted;
      }
    } else {
      var w1;
      w1, k := FromFault(negates, y, st.body, 0, m, f, typ, known);
      w := [0] + w1;
      forall fuel: nat | fuel >= k ensures y in ExecStmt(act, st, Driven(Some(w), m), fuel).1.d.faulted {
        OneAction(Observe, negates, Enter(st.name), [], 0, w1, m);
        assert y in ExecFrom(act, st.body, 0, Driven(Some(w1), m), fuel).1.d.faulted;
        var (o, r1) := ExecBlock(act, st.body, Driven(Some(w1), m), fuel);
        ActIs(negates, Leave(st.name), [], r1);
      }
    }
  }

  lemma {:induction false} IfFault(negates: bool, y: string, st: Stmt, m: Moved, f: bool, typ: bool, known: set<string>) returns (w: seq<int>, k: nat)
    requires st.If? && Sees(m, y, f, typ, known) && ScopedStmt(st, known) && TrackStmt(y, st, f, typ).bad
    ensures StmtHits(negates, y, st, w, m, k)
    decreases st, 3
  {
    var act := MoveAct(negates);
    FullFollows(y, st.cond, Val, m, f, typ, known, false);
    var (g, bad) := TrackExpr(y, st.cond, Val, f, typ);
    var m1 := Full(Observe, st.cond, Val, m);
    var want := TrackBlock(y, st.thn, g, typ).bad;
    var w1 := ExprPath(Observe, negates, st.cond, Val, m, want);
    var b := if want then st.thn else st.els;
    var w2 := [];
    k := 0;
    if !bad { w2, k := FromFault(negates, y, b, 0, m1, g, typ, known); }
    w := w1 + w2;
    forall fuel: nat | fuel >= k ensures y in ExecStmt(act, st, Driven(Some(w), m), fuel).1.d.faulted {
      assert EvalsOn(act, st.cond, Val, w1 + w2, m, want, w2, m1);
      if bad { FromStays(negates, y, b, 0, Driven(Some(w2), m1), fuel); }
      assert y in ExecFrom(act, b, 0, Driven(Some(w2), m1), fuel).1.d.faulted;
    }
  }

  lemma {:induction false} MatchFault(negates: bool, y: string, st: Stmt, m: Moved, f: bool, typ: bool, known: set<string>) returns (w: seq<int>, k: nat)
    requires st.Match? && Sees(m, y, f, typ, known) && ScopedStmt(st, known) && TrackStmt(y, st, f, typ).bad
    ensures StmtHits(negates, y, st, w, m, k)
    decreases st, 3
  {
    var act := MoveAct(negates);
    FullFollows(y, st.scrutinee, Val, m, f, typ, known, false);
    var (g, bad) := TrackExpr(y, st.scrutinee, Val, f, typ);
    var m1 := Full(Observe, st.scrutinee, Val, m);
    var w1 := ExprPath(Observe, negates, st.scrutinee, Val, m, true);
    var w2 := [];
    k := 0;
    if !bad { w2, k := ArmsFault(negates, y, st, 0, m1, g, typ, known); }
    w := w1 + w2;
    forall fuel: nat | fuel >= k ensures y in ExecStmt(act, st, Driven(Some(w), m), fuel).1.d.faulted {
      assert EvalsOn(act, st.scrutinee, Val, w1 + w2, m, true, w2, m1);
      var v := Eval(act, st.scrutinee, Val, Driven(Some(w), m)).0;
      if bad { ArmsStay(negates, y, st, 0, v, Driven(Some(w2), m1), fuel); }
    }
  }

  lemma {:induction false} ArmsFault(negates: bool, y: string, st: Stmt, i: nat, m: Moved, f: bool, typ: bool, known: set<string>) returns (w: seq<int>, k: nat)
    requires st.Match? && i <= |st.arms| && Sees(m, y, f, typ, known) && (forall arm <- st.arms :: ScopedBlock(arm.body, known)) && TrackArms(y, st, i, f, typ).bad
    ensures ArmsHit(negates, y, st, i, w, m, k)
    decreases st, 1, |st.arms| - i
  {
    var act, arm := MoveAct(negates), st.arms[i];
    assert arm in st.arms;
    if PWild in arm.patterns {
      w, k := FromFault(negates, y, arm.body, 0, m, f, typ, known);
      forall fuel: nat, v | fuel >= k ensures y in ExecArms(act, st, i, v, Driven(Some(w), m), fuel).1.d.faulted {
        assert y in ExecFrom(act, arm.body, 0, Driven(Some(w), m), fuel).1.d.faulted;
      }
    } else {
      var (hit, a, w1) := (TrackBlock(y, arm.body, f, typ).bad, Select(arm.patterns), []);
      if hit {
        w1, k := FromFault(negates, y, arm.body, 0, m, f, typ, known);
      } else {
        w1, k := ArmsFault(negates, y, st, i + 1, m, f, typ, known);
      }
      w := [Sign(hit)] + w1;
      forall fuel: nat, v | fuel >= k ensures y in ExecArms(act, st, i, v, Driven(Some(w), m), fuel).1.d.faulted {
        OneAction(Observe, negates, a, [v], Sign(hit), w1, m);
        if hit { assert y in ExecFrom(act, arm.body, 0, Driven(Some(w1), m), fuel).1.d.faulted; }
      }
    }
  }

  lemma {:induction false} LoopFault(negates: bool, y: string, st: Stmt, m: Moved, f: bool, typ: bool, known: set<string>) returns (w: seq<int>, k: nat)
    requires IsLoop(st) && Sees(m, y, f, typ, known) && ScopedStmt(st, known) && TrackStmt(y, st, f, typ).bad
    ensures StmtHits(negates, y, st, w, m, k)
    decreases st, 3
  {
    var act := MoveAct(negates);
    var (g, t) := (EntryFlag(y, st, f, typ), EntryType(y, st, typ));
    EntryFollows(y, st, m, f, typ, known);
    var w1 := EntryPath(Observe, negates, st, m);
    var m1 := EntryDone(Observe, st, m);
    var bad := st.For? && TrackEntry(y, st, f, typ).1;
    var w2 := [];
    k := 0;
    if !bad { w2, k := RoundsFault(negates, y, st, m1, g, t, KnownInside(st, known)); }
    w := w1 + w2;
    forall fuel: nat | fuel >= k ensures y in ExecStmt(act, st, Driven(Some(w), m), fuel).1.d.faulted {
      assert EntryOn(act, st, w1 + w2, m, w2, m1);
      var (bound, inc, r1) := Entry(act, st, Driven(Some(w), m));
      LoopIsRounds(act, st, Driven(Some(w), m), fuel);
      if bad { RoundsStay(negates, y, st, bound, inc, r1, fuel); }
    }
  }

  lemma {:induction false} RoundsFault(negates: bool, y: string, st: Stmt, m: Moved, f: bool, typ: bool, known: set<string>) returns (w: seq<int>, k: nat)
    requires IsLoop(st) && Sees(m, y, f, typ, known) && ScopedBlock(st.body, known) && (st.While? ==> ScopedExpr(st.cond, known))
    requires TrackRounds(y, st, f, typ).bad
    ensures RoundsHit(negates, y, st, w, m, k)
    decreases st, 2
  {
    var act := MoveAct(negates);
    var w1, k1, m1 := HeadPath(negates, y, st, m, f, typ, known);
    var w2, k2 := RoundFault(negates, y, st, m1, HeadFlag(y, st, f, typ), typ, known);
    RoundThenRounds(negates, y, st, w2, m1, k2);
    if HeadFlag(y, st, f, typ) == f {
      w, k := w2, k2 + 1;
    } else {
      w, k := w1 + w2, Max(k1, k2 + 1) + 1;
      forall fuel: nat, bound, inc | fuel >= k ensures y in Rounds(act, st, bound, inc, Driven(Some(w), m), fuel).1.d.faulted {
        assert RoundOn(act, st, bound, inc, w1 + w2, m, fuel, Normal, w2, m1);
        RoundsUnroll(act, st, bound, inc, Driven(Some(w), m), fuel);
      }
    }
  }

  lemma RoundThenRounds(negates: bool, y: string, st: Stmt, w: seq<int>, m: Moved, k: nat)
    requires IsLoop(st) && RoundHits(negates, y, st, w, m, k)
    ensures RoundsHit(negates, y, st, w, m, k + 1)
  {
    var act := MoveAct(negates);
    forall fuel: nat, bound, inc | fuel >= k + 1 ensures y in Rounds(act, st, bound, inc, Driven(Some(w), m), fuel).1.d.faulted {
      RoundsUnroll(act, st, bound, inc, Driven(Some(w), m), fuel);
      var (o, r1) := Round(act, st, bound, inc, Driven(Some(w), m), fuel);
      if o == Normal { RoundsStay(negates, y, st, bound, inc, r1, fuel - 1); }
    }
  }

  lemma {:induction false} RoundFault(negates: bool, y: string, st: Stmt, m: Moved, f: bool, typ: bool, known: set<string>) returns (w: seq<int>, k: nat)
    requires IsLoop(st) && Sees(m, y, f, typ, known) && ScopedBlock(st.body, known) && (st.While? ==> ScopedExpr(st.cond, known))
    requires TrackRound(y, st, f, typ).bad
    ensures RoundHits(negates, y, st, w, m, k)
    decreases st, 0
  {
    var act := MoveAct(negates);
    var m1 := TestDone(Observe, st, m);
    if st.While? { FullFollows(y, st.cond, Val, m, f, typ, known, false); }
    var (g, bad) := if st.While? then TrackExpr(y, st.cond, Val, f, typ) else (f, false);
    var w1 := TestPath(Observe, negates, st, m, true);
    var w2 := [];
    k := 0;
    if !bad { w2, k := FromFault(negates, y, st.body, 0, m1, g, typ, known); }
    w, k := w1 + w2, k + 1;
    forall fuel: nat, bound, inc | fuel >= k ensures y in Round(act, st, bound, inc, Driven(Some(w), m), fuel).1.d.faulted {
      assert TestOn(act, st, bound, w1 + w2, m, true, w2, m1);
      if bad { FromStays(negates, y, st.body, 0, Driven(Some(w2), m1), fuel - 1); }
      assert y in ExecFrom(act, st.body, 0, Driven(Some(w2), m1), fuel - 1).1.d.faulted;
      if st.For? { ActIs(negates, ForStep(st.v, st.dir), [inc], ExecBlock(act, st.body, Driven(Some(w2), m1), fuel - 1).1); }
    }
  }

  // --- the theorem ---

  // The analysis is exact: it reports a local exactly when some run, for some
  // values of the leaves and some number of rounds, uses it after a move. Runs
  // cut off in the middle are included.
  lemma {:induction false} ReportedExactly(negates: bool, y: string, body: Block, params: map<string, bool>, globals: set<string>)
    requires WellScoped(body, params, globals)
    ensures UsedAfterMove(y, body, params) <==> exists t, fuel :: FaultsOn(negates, y, body, params, t, fuel)
  {
    var (known, typ) := (params.Keys + globals, y in params && params[y]);
    if UsedAfterMove(y, body, params) {
      var w, k := FromFault(negates, y, body, 0, Entered(params), false, typ, known);
      assert FaultsOn(negates, y, body, params, Some(w), k);
    } else {
      forall t, fuel ensures !FaultsOn(negates, y, body, params, t, fuel) {
        BlockSound(negates, y, body, Driven(t, Entered(params)), false, typ, known, fuel);
      }
    }
  }
}
