// Convergence of the loop analysis. Each construct acts on every local
// separately: the flag it leaves depends, monotonically, on the flag it finds.
module MoveLaws {
  import opened Ast
  import opened Moves

  // `a` and `b` have the same shape, and at local (i, x) the flag of `a`
  // implies the flag of `b`.
  ghost predicate Leq(a: Scopes, b: Scopes, i: nat, x: string) {
    SameShape(a, b) && At(a, i, x) && (Flag(a, i, x) ==> Flag(b, i, x))
  }

  lemma {:induction false} ExprPointwise(e: Expr, mode: Mode, a: Scopes, b: Scopes, i: nat, x: string)
    requires Leq(a, b, i, x)
    ensures Leq(EffExpr(e, mode, a).0, EffExpr(e, mode, b).0, i, x)
    decreases e
  {
    match e
    case Ident(y) => IdentPointwise(y, mode, a, b, i, x);
    case Group(g) => ExprPointwise(g, mode, a, b, i, x);
    case _ => PartsPointwise(e, Parts(e, mode), a, b, i, x);
  }

  lemma IdentPointwise(y: string, mode: Mode, a: Scopes, b: Scopes, i: nat, x: string)
    requires Leq(a, b, i, x)
    ensures Leq(EffExpr(Ident(y), mode, a).0, EffExpr(Ident(y), mode, b).0, i, x)
  {
    FindShape(a, b, y);
    ReadFlag(y, mode, a, i, x);
    ReadFlag(y, mode, b, i, x);
  }

  // A read sets at most the flag of the name read.
  lemma ReadFlag(y: string, mode: Mode, sc: Scopes, i: nat, x: string)
    requires At(sc, i, x)
    ensures var r := EffExpr(Ident(y), mode, sc).0;
      SameShape(sc, r) && At(r, i, x) && (Flag(r, i, x) <==> Flag(sc, i, x) || (i == Find(sc, y) && x == y && mode == Val && sc[i][x].moves))
  {}

  lemma {:induction false} PartsPointwise(whole: Expr, ps: seq<(Expr, Mode)>, a: Scopes, b: Scopes, i: nat, x: string)
    requires forall p <- ps :: p.0 < whole
    requires Leq(a, b, i, x)
    ensures Leq(EffParts(whole, ps, a).0, EffParts(whole, ps, b).0, i, x)
    decreases whole, |ps|
  {
    if ps != [] {
      ExprPointwise(ps[0].0, ps[0].1, a, b, i, x);
      PartsPointwise(whole, ps[1..], EffExpr(ps[0].0, ps[0].1, a).0, EffExpr(ps[0].0, ps[0].1, b).0, i, x);
    }
  }

  lemma {:induction false} TargetPointwise(ps: seq<(Expr, Mode)>, a: Scopes, b: Scopes, i: nat, x: string)
    requires Leq(a, b, i, x)
    ensures Leq(EffTarget(ps, a).0, EffTarget(ps, b).0, i, x)
    decreases |ps|
  {
    if ps != [] {
      ExprPointwise(ps[0].0, ps[0].1, a, b, i, x);
      TargetPointwise(ps[1..], EffExpr(ps[0].0, ps[0].1, a).0, EffExpr(ps[0].0, ps[0].1, b).0, i, x);
    }
  }

  lemma {:induction false} OptPointwise(e: Option<Expr>, a: Scopes, b: Scopes, i: nat, x: string)
    requires Leq(a, b, i, x)
    ensures Leq(EffOpt(e, a).0, EffOpt(e, b).0, i, x)
  {
    if e.Some? { ExprPointwise(e.value, Val, a, b, i, x); }
  }

  // The target of an assignment: its parts, then the revival.
  lemma {:induction false} AssignPointwise(lv: LValue, a: Scopes, b: Scopes, i: nat, x: string)
    requires Leq(a, b, i, x)
    ensures Leq(MarkAssigned(lv, EffTarget(TargetParts(lv), a).0), MarkAssigned(lv, EffTarget(TargetParts(lv), b).0), i, x)
  {
    TargetPointwise(TargetParts(lv), a, b, i, x);
    if lv.LName? { FindShape(EffTarget(TargetParts(lv), a).0, EffTarget(TargetParts(lv), b).0, lv.name); }
  }

  lemma {:induction false} BlockPointwise(blk: Block, a: Scopes, b: Scopes, i: nat, x: string)
    requires Leq(a, b, i, x)
    ensures Leq(EffBlock(blk, a).0, EffBlock(blk, b).0, i, x)
    decreases blk, |blk.stmts| + 1
  {
    FromPointwise(blk, 0, Push(a), Push(b), i, x);
    BlockShape(blk, a);
    BlockShape(blk, b);
  }

  lemma {:induction false} FromPointwise(blk: Block, k: nat, a: Scopes, b: Scopes, i: nat, x: string)
    requires k <= |blk.stmts| && a != []
    requires Leq(a, b, i, x)
    ensures Leq(EffFrom(blk, k, a).0, EffFrom(blk, k, b).0, i, x)
    decreases blk, |blk.stmts| - k
  {
    if k == |blk.stmts| {
      OptPointwise(blk.trailing, a, b, i, x);
    } else {
      StmtPointwise(blk.stmts[k], a, b, i, x);
      FromPointwise(blk, k + 1, EffStmt(blk.stmts[k], a).0, EffStmt(blk.stmts[k], b).0, i, x);
    }
  }

  lemma JoinPointwise(a: Scopes, a': Scopes, b: Scopes, b': Scopes, i: nat, x: string)
    requires Leq(a, b, i, x) && Leq(a', b', i, x) && SameShape(a, a')
    ensures Leq(Join(a, a'), Join(b, b'), i, x)
  {
    JoinShape(a, a');
    JoinShape(b, b');
  }

  lemma {:induction false} LoopPointwise(blk: Block, a: Scopes, b: Scopes, i: nat, x: string)
    requires Leq(a, b, i, x)
    ensures Leq(LoopEntry(blk, a), LoopEntry(blk, b), i, x)
    decreases blk, |blk.stmts| + 2
  {
    BlockPointwise(blk, a, b, i, x);
    BlockShape(blk, a);
    BlockShape(blk, b);
    JoinPointwise(a, EffBlock(blk, a).0, b, EffBlock(blk, b).0, i, x);
  }

  lemma {:induction false} ArmsPointwise(arms: seq<Arm>, a: Scopes, b: Scopes, i: nat, x: string)
    requires arms != [] && Leq(a, b, i, x)
    ensures Leq(EffArms(arms, a).0, EffArms(arms, b).0, i, x)
    decreases arms
  {
    var n := |arms| - 1;
    BlockPointwise(arms[n].body, a, b, i, x);
    if n > 0 {
      ArmsPointwise(arms[..n], a, b, i, x);
      ArmsShape(arms[..n], a);
      BlockShape(arms[n].body, a);
      JoinPointwise(EffArms(arms[..n], a).0, EffBlock(arms[n].body, a).0,
                    EffArms(arms[..n], b).0, EffBlock(arms[n].body, b).0, i, x);
    }
  }

  lemma {:induction false} IfPointwise(st: Stmt, a: Scopes, b: Scopes, i: nat, x: string)
    requires st.If? && a != [] && Leq(a, b, i, x)
    ensures Leq(EffStmt(st, a).0, EffStmt(st, b).0, i, x)
    decreases st, 0
  {
    ExprPointwise(st.cond, Val, a, b, i, x);
    var a1, b1 := EffExpr(st.cond, Val, a).0, EffExpr(st.cond, Val, b).0;
    BlockPointwise(st.thn, a1, b1, i, x);
    BlockPointwise(st.els, a1, b1, i, x);
    BlockShape(st.thn, a1);
    BlockShape(st.els, a1);
    JoinPointwise(EffBlock(st.els, a1).0, EffBlock(st.thn, a1).0, EffBlock(st.els, b1).0, EffBlock(st.thn, b1).0, i, x);
  }

  lemma {:induction false} ForPointwise(st: Stmt, a: Scopes, b: Scopes, i: nat, x: string)
    requires st.For? && a != [] && Leq(a, b, i, x)
    ensures Leq(EffStmt(st, a).0, EffStmt(st, b).0, i, x)
    decreases st, 0
  {
    ExprPointwise(st.start, Val, a, b, i, x);
    var a1, b1 := EffExpr(st.start, Val, a).0, EffExpr(st.start, Val, b).0;
    ExprPointwise(st.end, Val, a1, b1, i, x);
    var a2, b2 := EffExpr(st.end, Val, a1).0, EffExpr(st.end, Val, b1).0;
    OptPointwise(st.step, a2, b2, i, x);
    var a3, b3 := Insert(EffOpt(st.step, a2).0, st.v, VarInfo(false, false)), Insert(EffOpt(st.step, b2).0, st.v, VarInfo(false, false));
    LoopPointwise(st.body, a3, b3, i, x);
    assert EffStmt(st, a).0 == LoopEntry(st.body, a3);
    assert EffStmt(st, b).0 == LoopEntry(st.body, b3);
  }

  lemma {:induction false} StmtPointwise(st: Stmt, a: Scopes, b: Scopes, i: nat, x: string)
    requires a != [] && Leq(a, b, i, x)
    ensures Leq(EffStmt(st, a).0, EffStmt(st, b).0, i, x)
    decreases st, 1
  {
    match st
    case VarDecl(_, _, init) => ExprPointwise(init, Val, a, b, i, x);
    case Assign(lv, value) =>
      ExprPointwise(value, Val, a, b, i, x);
      AssignPointwise(lv, EffExpr(value, Val, a).0, EffExpr(value, Val, b).0, i, x);
    case CompoundAssign(lv, op, value) =>
      var e := Binary(lv.ToExpr(), op, value);
      ExprPointwise(e, Val, a, b, i, x);
      AssignPointwise(lv, EffExpr(e, Val, a).0, EffExpr(e, Val, b).0, i, x);
    case ExprStmt(e) => ExprPointwise(e, Val, a, b, i, x);
    case If(_, _, _) => IfPointwise(st, a, b, i, x);
    case Loop(blk) => LoopPointwise(blk, a, b, i, x);
    case While(c, blk) =>
      ExprPointwise(c, Val, a, b, i, x);
      LoopPointwise(blk, EffExpr(c, Val, a).0, EffExpr(c, Val, b).0, i, x);
    case For(_, _, _, _, _, _) => ForPointwise(st, a, b, i, x);
    case Match(e, arms) =>
      ExprPointwise(e, Val, a, b, i, x);
      if arms != [] { ArmsPointwise(arms, EffExpr(e, Val, a).0, EffExpr(e, Val, b).0, i, x); }
    case Return(e) => OptPointwise(e, a, b, i, x);
    case BlockStmt(blk) => BlockPointwise(blk, a, b, i, x);
    case Claim(_, blk) => BlockPointwise(blk, a, b, i, x);
    case _ =>
  }

  // --- consequences for whole states ---

  lemma BlockMonotone(blk: Block, a: Scopes, b: Scopes)
    requires Below(a, b)
    ensures Below(EffBlock(blk, a).0, EffBlock(blk, b).0)
  {
    var a1: Scopes, b1: Scopes := EffBlock(blk, a).0, EffBlock(blk, b).0;
    BlockShape(blk, a);
    BlockShape(blk, b);
    forall i, x | 0 <= i < |a1| && x in a1[i] && a1[i][x].moved ensures b1[i][x].moved {
      BlockPointwise(blk, a, b, i, x);
    }
  }

  // A body's effect distributes over the union of move-states.
  lemma {:induction false} BlockDistributes(blk: Block, a: Scopes, b: Scopes)
    requires SameShape(a, b)
    ensures EffBlock(blk, Join(a, b)).0 == Join(EffBlock(blk, a).0, EffBlock(blk, b).0)
  {
    JoinShape(a, b);
    var ab: Scopes := EffBlock(blk, Join(a, b)).0;
    var a1: Scopes, b1: Scopes := EffBlock(blk, a).0, EffBlock(blk, b).0;
    BlockMonotone(blk, a, Join(a, b));
    BlockMonotone(blk, b, Join(a, b));
    BlockShape(blk, a);
    BlockShape(blk, b);
    JoinShape(a1, b1);
    JoinLeast(a1, b1, ab);
    forall i, x | 0 <= i < |ab| && x in ab[i] && ab[i][x].moved ensures Join(a1, b1)[i][x].moved {
      // The joined flag is one of the two flags it came from.
      if Flag(a, i, x) { BlockPointwise(blk, Join(a, b), a, i, x); }
      else { BlockPointwise(blk, Join(a, b), b, i, x); }
    }
    BelowAntisymmetric(ab, Join(a1, b1));
  }

  // One dry pass is enough to reach the converged entry state: a second one
  // from there adds nothing.
  lemma {:induction false} LoopEntryIsStable(blk: Block, sc: Scopes)
    ensures Below(EffBlock(blk, LoopEntry(blk, sc)).0, LoopEntry(blk, sc))
    ensures Join(LoopEntry(blk, sc), EffBlock(blk, LoopEntry(blk, sc)).0) == LoopEntry(blk, sc)
  {
    var entry, once := LoopEntry(blk, sc), EffBlock(blk, sc).0;
    var again: Scopes := EffBlock(blk, entry).0;
    LoopShape(blk, sc);
    BlockShape(blk, entry);
    forall i, x | 0 <= i < |again| && x in again[i] && again[i][x].moved ensures entry[i][x].moved {
      if !Flag(entry, i, x) { BlockPointwise(blk, entry, sc, i, x); }
    }
    JoinShape(entry, again);
    JoinLeast(entry, again, entry);
    BelowAntisymmetric(Join(entry, again), entry);
  }

  function Iterate(blk: Block, sc: Scopes, n: nat): Scopes {
    if n == 0 then sc else EffBlock(blk, Iterate(blk, sc, n - 1)).0
  }

  // The converged state is exactly the union of the states after every number
  // of iterations: it contains each of them, and every flag in it is already
  // set after zero or one.
  lemma {:induction false} LoopEntryIsUnionOfIterations(blk: Block, sc: Scopes, n: nat)
    ensures Below(Iterate(blk, sc, n), LoopEntry(blk, sc))
    ensures LoopEntry(blk, sc) == Join(Iterate(blk, sc, 0), Iterate(blk, sc, 1))
  {
    LoopShape(blk, sc);
    assert Iterate(blk, sc, 1) == EffBlock(blk, Iterate(blk, sc, 0)).0;
    if n > 0 {
      LoopEntryIsUnionOfIterations(blk, sc, n - 1);
      BlockMonotone(blk, Iterate(blk, sc, n - 1), LoopEntry(blk, sc));
      LoopEntryIsStable(blk, sc);
    }
  }
}
