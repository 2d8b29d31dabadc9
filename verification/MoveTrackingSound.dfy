// The analysis misses nothing: what it reports for a local covers every run.
module MoveTrackingSound {
  import opened Ast
  import opened Semantics
  import opened Paths
  import opened MoveTracking

  // --- expressions ---

  lemma {:induction false} TrackGrows(y: string, e: Expr, mode: Mode, f: bool, typ: bool)
    ensures f ==> TrackExpr(y, e, mode, f, typ).0
    decreases e
  {
    match e
    case Ident(_) =>
    case Group(i) => TrackGrows(y, i, mode, f, typ);
    case _ => TrackPartsGrow(y, e, Parts(e, mode), f, typ);
  }

  lemma {:induction false} TrackPartsGrow(y: string, whole: Expr, ps: seq<(Expr, Mode)>, f: bool, typ: bool)
    requires forall p <- ps :: p.0 < whole
    ensures f ==> TrackParts(y, whole, ps, f, typ).0
    decreases whole, |ps|
  {
    if ps != [] {
      TrackGrows(y, ps[0].0, ps[0].1, f, typ);
      TrackPartsGrow(y, whole, ps[1..], TrackExpr(y, ps[0].0, ps[0].1, f, typ).0, typ);
    }
  }

  lemma TrackBinary(y: string, l: Expr, op: BinaryOp, r: Expr, mode: Mode, f: bool, typ: bool)
    ensures TrackExpr(y, Binary(l, op, r), mode, f, typ) ==
      var (g, b1) := TrackExpr(y, l, Val, f, typ);
      var (h, b2) := TrackExpr(y, r, Val, g, typ);
      (h, b1 || b2)
  {
    var e := Binary(l, op, r);
    var ps := Parts(e, mode);
    assert ps[0] == (l, Val) && ps[1..][0] == (r, Val) && ps[1..][1..] == [];
    var g := TrackExpr(y, l, Val, f, typ).0;
    var h := TrackExpr(y, r, Val, g, typ).0;
    assert TrackParts(y, e, ps[1..][1..], h, typ) == (h, false);
    assert TrackParts(y, e, ps[1..], g, typ) == TrackExpr(y, r, Val, g, typ);
  }

  // The run's view of the local is at most the tracked one, and it has not been
  // used while moved.
  ghost predicate Below(m: Moved, y: string, f: bool, typ: bool, known: set<string>) {
    y !in m.faulted && (y in known ==> (y in m.consumed ==> f) && (y in m.typed <==> typ))
  }

  lemma {:induction false} ExprSound(negates: bool, y: string, e: Expr, mode: Mode, r: Run, f: bool, typ: bool, known: set<string>)
    requires Below(r.d, y, f, typ, known) && ScopedExpr(e, known) && !TrackExpr(y, e, mode, f, typ).1
    ensures Below(Eval(MoveAct(negates), e, mode, r).1.d, y, TrackExpr(y, e, mode, f, typ).0, typ, known)
    decreases e, 1
  {
    var act := MoveAct(negates);
    if e.Ident? {
      NameSound(negates, y, e.name, mode, r, f, typ, known);
    } else if e.Group? {
      ExprSound(negates, y, e.inner, mode, r, f, typ, known);
    } else if Logical(e) {
      LogicalSound(negates, y, e, mode, r, f, typ, known);
    } else {
      PartNames(e, mode);
      PartsSound(negates, y, e, Parts(e, mode), r, f, typ, known);
      var (vs, r1) := EvalParts(act, e, Parts(e, mode), r);
      ActIs(negates, Node(e), vs, r1);
    }
  }

  lemma NameSound(negates: bool, y: string, x: string, mode: Mode, r: Run, f: bool, typ: bool, known: set<string>)
    requires Below(r.d, y, f, typ, known) && x in known && !TrackExpr(y, Ident(x), mode, f, typ).1
    ensures Below(Eval(MoveAct(negates), Ident(x), mode, r).1.d, y, TrackExpr(y, Ident(x), mode, f, typ).0, typ, known)
  {
    ActIs(negates, if mode == Val then Read(x) else Addr(x), [], r);
  }

  lemma {:induction false} LogicalSound(negates: bool, y: string, e: Expr, mode: Mode, r: Run, f: bool, typ: bool, known: set<string>)
    requires Logical(e) && Below(r.d, y, f, typ, known) && ScopedExpr(e, known) && !TrackExpr(y, e, mode, f, typ).1
    ensures Below(Eval(MoveAct(negates), e, mode, r).1.d, y, TrackExpr(y, e, mode, f, typ).0, typ, known)
    decreases e, 0
  {
    TrackBinary(y, e.left, e.bop, e.right, mode, f, typ);
    ExprSound(negates, y, e.left, Val, r, f, typ, known);
    var g := TrackExpr(y, e.left, Val, f, typ).0;
    var (v, r1) := Eval(MoveAct(negates), e.left, Val, r);
    // The right operand may be skipped: it can only add to the flag.
    TrackGrows(y, e.right, Val, g, typ);
    ExprSound(negates, y, e.right, Val, r1, g, typ, known);
  }

  lemma {:induction false} PartsSound(negates: bool, y: string, whole: Expr, ps: seq<(Expr, Mode)>, r: Run, f: bool, typ: bool, known: set<string>)
    requires forall p <- ps :: p.0 < whole && ScopedExpr(p.0, known)
    requires Below(r.d, y, f, typ, known) && !TrackParts(y, whole, ps, f, typ).1
    ensures Below(EvalParts(MoveAct(negates), whole, ps, r).1.d, y, TrackParts(y, whole, ps, f, typ).0, typ, known)
    decreases whole, 0, |ps|
  {
    if ps != [] {
      ExprSound(negates, y, ps[0].0, ps[0].1, r, f, typ, known);
      PartsSound(negates, y, whole, ps[1..], Eval(MoveAct(negates), ps[0].0, ps[0].1, r).1, TrackExpr(y, ps[0].0, ps[0].1, f, typ).0, typ, known);
    }
  }

  lemma {:induction false} TargetSound(negates: bool, y: string, ps: seq<(Expr, Mode)>, r: Run, f: bool, typ: bool, known: set<string>)
    requires forall p <- ps :: ScopedExpr(p.0, known)
    requires Below(r.d, y, f, typ, known) && !TrackTarget(y, ps, f, typ).1
    ensures Below(EvalTarget(MoveAct(negates), ps, r).1.d, y, TrackTarget(y, ps, f, typ).0, typ, known)
    decreases |ps|
  {
    if ps != [] {
      ExprSound(negates, y, ps[0].0, ps[0].1, r, f, typ, known);
      TargetSound(negates, y, ps[1..], Eval(MoveAct(negates), ps[0].0, ps[0].1, r).1, TrackExpr(y, ps[0].0, ps[0].1, f, typ).0, typ, known);
    }
  }

  lemma OptSound(negates: bool, y: string, e: Option<Expr>, r: Run, f: bool, typ: bool, known: set<string>)
    requires Below(r.d, y, f, typ, known) && ScopedOpt(e, known) && !TrackOpt(y, e, f, typ).1
    ensures Below(EvalOpt(MoveAct(negates), e, r).d, y, TrackOpt(y, e, f, typ).0, typ, known)
    ensures Below(EvalStep(MoveAct(negates), e, r).1.d, y, TrackOpt(y, e, f, typ).0, typ, known)
  {
    if e.Some? { ExprSound(negates, y, e.value, Val, r, f, typ, known); }
  }

  // --- soundness ---

  // Every way out is one the analysis knows, with the flag it gives; a run that
  // has returned or been cut off has used nothing moved.
  ghost predicate Covered(o: Outcome, m: Moved, x: Exits, y: string, typ: bool, known: set<string>) {
    y !in m.faulted && (o == Normal || o == Broke || o == Continued ==> x.At(o).Some? && Below(m, y, x.At(o).value, typ, known))
  }

  lemma {:induction false} BlockSound(negates: bool, y: string, b: Block, r: Run, f: bool, typ: bool, known: set<string>, fuel: nat)
    requires Below(r.d, y, f, typ, known) && ScopedBlock(b, known) && !TrackBlock(y, b, f, typ).bad
    ensures var (o, r') := ExecBlock(MoveAct(negates), b, r, fuel); Covered(o, r'.d, TrackBlock(y, b, f, typ), y, typ, known)
    decreases fuel, b, |b.stmts| + 1
  {
    FromSound(negates, y, b, 0, r, f, typ, known, known, fuel);
  }

  // `outer` is what was known where the block began.
  lemma {:induction false} FromSound(negates: bool, y: string, b: Block, i: nat, r: Run, f: bool, typ: bool, outer: set<string>, known: set<string>, fuel: nat)
    requires i <= |b.stmts| && outer <= known
    requires Below(r.d, y, f, typ, known) && ScopedFrom(b, i, known) && !TrackFrom(y, b, i, f, typ).bad
    ensures var (o, r') := ExecFrom(MoveAct(negates), b, i, r, fuel); Covered(o, r'.d, TrackFrom(y, b, i, f, typ), y, typ, outer)
    decreases fuel, b, |b.stmts| - i
  {
    if i == |b.stmts| {
      OptSound(negates, y, b.trailing, r, f, typ, known);
    } else {
      var st := b.stmts[i];
      var a := TrackStmt(y, st, f, typ);
      StmtSound(negates, y, st, r, f, typ, known, fuel);
      var (o, r1) := ExecStmt(MoveAct(negates), st, r, fuel);
      if o == Normal {
        FromSound(negates, y, b, i + 1, r1, a.normal.value, TypeAfter(y, st, typ), outer, KnownAfter(st, known), fuel);
      }
    }
  }

  lemma {:induction false} StmtSound(negates: bool, y: string, st: Stmt, r: Run, f: bool, typ: bool, known: set<string>, fuel: nat)
    requires Below(r.d, y, f, typ, known) && ScopedStmt(st, known) && !TrackStmt(y, st, f, typ).bad
    ensures var (o, r') := ExecStmt(MoveAct(negates), st, r, fuel); Covered(o, r'.d, TrackStmt(y, st, f, typ), y, TypeAfter(y, st, typ), KnownAfter(st, known))
    decreases fuel, st, 3
  {
    if Straight(st) {
      StraightSound(negates, y, st, r, f, typ, known, fuel);
    } else if IsLoop(st) {
      LoopSound(negates, y, st, r, f, typ, known, fuel);
    } else if st.If? {
      IfSound(negates, y, st, r, f, typ, known, fuel);
    } else if st.Match? {
      ExprSound(negates, y, st.scrutinee, Val, r, f, typ, known);
      var (v, r1) := Eval(MoveAct(negates), st.scrutinee, Val, r);
      ArmsSound(negates, y, st, 0, v, r1, TrackExpr(y, st.scrutinee, Val, f, typ).0, typ, known, fuel);
    } else if st.BlockStmt? {
      BlockSound(negates, y, st.b, r, f, typ, known, fuel);
    } else {
      ClaimSound(negates, y, st, r, f, typ, known, fuel);
    }
  }

  lemma {:induction false} ClaimSound(negates: bool, y: string, st: Stmt, r: Run, f: bool, typ: bool, known: set<string>, fuel: nat)
    requires st.Claim? && Below(r.d, y, f, typ, known) && ScopedStmt(st, known) && !TrackStmt(y, st, f, typ).bad
    ensures var (o, r') := ExecStmt(MoveAct(negates), st, r, fuel); Covered(o, r'.d, TrackStmt(y, st, f, typ), y, typ, known)
    decreases fuel, st, 2
  {
    var act := MoveAct(negates);
    var r1 := act(Enter(st.name), [], r).1;
    ActIs(negates, Enter(st.name), [], r);
    BlockSound(negates, y, st.body, r1, f, typ, known, fuel);
    var (o, r2) := ExecBlock(act, st.body, r1, fuel);
    ActIs(negates, Leave(st.name), [], r2);
  }

  lemma {:induction false} StraightSound(negates: bool, y: string, st: Stmt, r: Run, f: bool, typ: bool, known: set<string>, fuel: nat)
    requires Straight(st) && Below(r.d, y, f, typ, known) && ScopedStmt(st, known) && !TrackStmt(y, st, f, typ).bad
    ensures var (o, r') := ExecStmt(MoveAct(negates), st, r, fuel); Covered(o, r'.d, TrackStmt(y, st, f, typ), y, TypeAfter(y, st, typ), KnownAfter(st, known))
  {
    var act := MoveAct(negates);
    match st
    case VarDecl(x, moves, init) =>
      ExprSound(negates, y, init, Val, r, f, typ, known);
      var (v, r1) := Eval(act, init, Val, r);
      ActIs(negates, Declare(x, moves), [v], r1);
    case Assign(lv, value) => AssignSound(negates, y, lv, value, r, f, typ, known);
    case CompoundAssign(lv, op, value) =>
      ToExprNames(lv);
      AssignSound(negates, y, lv, Binary(lv.ToExpr(), op, value), r, f, typ, known);
    case ExprStmt(e) => ExprSound(negates, y, e, Val, r, f, typ, known);
    case Return(Some(e)) =>
      ExprSound(negates, y, e, Val, r, f, typ, known);
      var (v, r1) := Eval(act, e, Val, r);
      ActIs(negates, Result, [v], r1);
    case Return(None) =>
    case Break =>
    case Continue =>
  }

  lemma {:induction false} AssignSound(negates: bool, y: string, lv: LValue, value: Expr, r: Run, f: bool, typ: bool, known: set<string>)
    requires Below(r.d, y, f, typ, known) && LNames(lv) <= known && ScopedExpr(value, known) && !TrackAssign(y, lv, value, f, typ).bad
    ensures var (o, r') := ExecAssign(MoveAct(negates), lv, value, r); o == Normal && Covered(o, r'.d, TrackAssign(y, lv, value, f, typ), y, typ, known)
  {
    var act := MoveAct(negates);
    TargetPartNames(lv);
    ExprSound(negates, y, value, Val, r, f, typ, known);
    var (v, r1) := Eval(act, value, Val, r);
    TargetSound(negates, y, TargetParts(lv), r1, TrackExpr(y, value, Val, f, typ).0, typ, known);
    var (vs, r2) := EvalTarget(act, TargetParts(lv), r1);
    ActIs(negates, Store(lv), vs + [v], r2);
  }

  lemma {:induction false} IfSound(negates: bool, y: string, st: Stmt, r: Run, f: bool, typ: bool, known: set<string>, fuel: nat)
    requires st.If? && Below(r.d, y, f, typ, known) && ScopedStmt(st, known) && !TrackStmt(y, st, f, typ).bad
    ensures var (o, r') := ExecStmt(MoveAct(negates), st, r, fuel); Covered(o, r'.d, TrackStmt(y, st, f, typ), y, typ, known)
    decreases fuel, st, 2
  {
    ExprSound(negates, y, st.cond, Val, r, f, typ, known);
    var (v, r1) := Eval(MoveAct(negates), st.cond, Val, r);
    var g := TrackExpr(y, st.cond, Val, f, typ).0;
    BlockSound(negates, y, if v != 0 then st.thn else st.els, r1, g, typ, known, fuel);
  }

  lemma {:induction false} ArmsSound(negates: bool, y: string, st: Stmt, i: nat, v: int, r: Run, f: bool, typ: bool, known: set<string>, fuel: nat)
    requires st.Match? && i <= |st.arms| && Below(r.d, y, f, typ, known) && (forall arm <- st.arms :: ScopedBlock(arm.body, known)) && !TrackArms(y, st, i, f, typ).bad
    ensures var (o, r') := ExecArms(MoveAct(negates), st, i, v, r, fuel); Covered(o, r'.d, TrackArms(y, st, i, f, typ), y, typ, known)
    decreases fuel, st, 1, |st.arms| - i
  {
    if i < |st.arms| {
      var arm := st.arms[i];
      assert arm in st.arms;
      if PWild in arm.patterns {
        BlockSound(negates, y, arm.body, r, f, typ, known, fuel);
      } else {
        var (hit, r1) := MoveAct(negates)(Select(arm.patterns), [v], r);
        ActIs(negates, Select(arm.patterns), [v], r);
        if hit != 0 {
          BlockSound(negates, y, arm.body, r1, f, typ, known, fuel);
        } else {
          ArmsSound(negates, y, st, i + 1, v, r1, f, typ, known, fuel);
        }
      }
    }
  }

  // What is known inside the body of a loop.
  function KnownInside(st: Stmt, known: set<string>): set<string> { if st.For? then known + {st.v} else known }

  lemma {:induction false} LoopSound(negates: bool, y: string, st: Stmt, r: Run, f: bool, typ: bool, known: set<string>, fuel: nat)
    requires IsLoop(st) && Below(r.d, y, f, typ, known) && ScopedStmt(st, known) && !TrackStmt(y, st, f, typ).bad
    ensures var (o, r') := ExecStmt(MoveAct(negates), st, r, fuel); Covered(o, r'.d, TrackStmt(y, st, f, typ), y, typ, known)
    decreases fuel, st, 2
  {
    LoopIsRounds(MoveAct(negates), st, r, fuel);
    var (bound, inc, r1) := Entry(MoveAct(negates), st, r);
    if st.For? {
      EntrySound(negates, y, st, r, f, typ, known);
      var (g, t) := (TrackEntry(y, st, f, typ).0 && st.v != y, typ && st.v != y);
      RoundsSound(negates, y, st, bound, inc, r1, HeadFlag(y, st, g, t), g, t, known, fuel);
    } else {
      RoundsSound(negates, y, st, bound, inc, r1, HeadFlag(y, st, f, typ), f, typ, known, fuel);
    }
  }

  lemma {:induction false} EntrySound(negates: bool, y: string, st: Stmt, r: Run, f: bool, typ: bool, known: set<string>)
    requires st.For? && Below(r.d, y, f, typ, known) && ScopedStmt(st, known) && !TrackEntry(y, st, f, typ).1
    ensures Below(Entry(MoveAct(negates), st, r).2.d, y, TrackEntry(y, st, f, typ).0 && st.v != y, typ && st.v != y, known + {st.v})
  {
    var act := MoveAct(negates);
    ExprSound(negates, y, st.start, Val, r, f, typ, known);
    var (v, r1) := Eval(act, st.start, Val, r);
    var g1 := TrackExpr(y, st.start, Val, f, typ).0;
    ExprSound(negates, y, st.end, Val, r1, g1, typ, known);
    var (bound, r2) := Eval(act, st.end, Val, r1);
    OptSound(negates, y, st.step, r2, TrackExpr(y, st.end, Val, g1, typ).0, typ, known);
    var (inc, r3) := EvalStep(act, st.step, r2);
    ActIs(negates, ForInit(st.v), [v], r3);
  }

  // `f0` is the flag before the first round.
  lemma {:induction false} RoundsSound(negates: bool, y: string, st: Stmt, bound: int, inc: int, r: Run, f: bool, f0: bool, typ: bool, known: set<string>, fuel: nat)
    requires IsLoop(st) && ScopedStmt(st, known) && f == HeadFlag(y, st, f0, typ) && !TrackRounds(y, st, f0, typ).bad
    requires Below(r.d, y, f, typ, KnownInside(st, known))
    ensures var (o, r') := Rounds(MoveAct(negates), st, bound, inc, r, fuel); Covered(o, r'.d, TrackRounds(y, st, f0, typ), y, typ, known)
    decreases fuel, st, 1
  {
    if fuel > 0 {
      RoundsUnroll(MoveAct(negates), st, bound, inc, r, fuel);
      RoundSound(negates, y, st, bound, inc, r, f, typ, KnownInside(st, known), fuel);
      var (o, r1) := Round(MoveAct(negates), st, bound, inc, r, fuel);
      if o == Normal { RoundsSound(negates, y, st, bound, inc, r1, f, f0, typ, known, fuel - 1); }
    }
  }

  lemma {:induction false} RoundSound(negates: bool, y: string, st: Stmt, bound: int, inc: int, r: Run, f: bool, typ: bool, known: set<string>, fuel: nat)
    requires IsLoop(st) && fuel > 0 && ScopedBlock(st.body, known) && (st.While? ==> ScopedExpr(st.cond, known))
    requires Below(r.d, y, f, typ, known) && !TrackRound(y, st, f, typ).bad
    ensures var (o, r') := Round(MoveAct(negates), st, bound, inc, r, fuel); Covered(o, r'.d, TrackRound(y, st, f, typ), y, typ, known)
    decreases fuel, st, 0
  {
    var act := MoveAct(negates);
    var (v, r1) := Test(act, st, bound, r);
    if st.While? { ExprSound(negates, y, st.cond, Val, r, f, typ, known); } else if st.For? { ActIs(negates, ForMore(st.v, st.dir), [bound], r); }
    var g := if st.While? then TrackExpr(y, st.cond, Val, f, typ).0 else f;
    if v != 0 {
      BlockSound(negates, y, st.body, r1, g, typ, known, fuel - 1);
      var (o, r2) := ExecBlock(act, st.body, r1, fuel - 1);
      if st.For? { ActIs(negates, ForStep(st.v, st.dir), [inc], r2); }
    }
  }
}
