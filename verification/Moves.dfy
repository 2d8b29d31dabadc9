// The use-after-move analysis as a function on move-states, and its algebra.
//
// A move-state is the checker's stack of scopes. `Eff*` gives the state after
// checking a construct and the number of E304 reports it produced. Everything
// about loops rests on one fact, `Pointwise`: what happens to the flag of one
// local depends, monotonically, on that flag alone.
module Moves {
  import opened Ast

  datatype VarInfo = VarInfo(moves: bool, moved: bool)
  type Scopes = seq<map<string, VarInfo>>

  // The innermost scope that binds `x`, or -1.
  function Find(sc: Scopes, x: string): (i: int)
    ensures -1 <= i < |sc|
    ensures i >= 0 ==> x in sc[i]
    ensures forall k :: i < k < |sc| ==> x !in sc[k]
  {
    if sc == [] then -1
    else if x in sc[|sc| - 1] then |sc| - 1
    else Find(sc[..|sc| - 1], x)
  }

  function SetMoved(sc: Scopes, x: string, flag: bool): Scopes {
    var i := Find(sc, x);
    if i < 0 then sc else sc[i := sc[i][x := sc[i][x].(moved := flag)]]
  }

  function Insert(sc: Scopes, x: string, info: VarInfo): Scopes
    requires sc != []
  {
    sc[|sc| - 1 := sc[|sc| - 1][x := info]]
  }

  function Push(sc: Scopes): Scopes { sc + [map[]] }

  function Pop(sc: Scopes): Scopes
    requires sc != []
  {
    sc[..|sc| - 1]
  }

  // `a` with the moved flags of `b` folded in, per local and scope depth.
  function Join(a: Scopes, b: Scopes): (r: Scopes)
    ensures |r| == |a|
  {
    seq(|a|, i requires 0 <= i < |a| =>
      map x | x in a[i] ::
        if i < |b| && x in b[i] then a[i][x].(moved := a[i][x].moved || b[i][x].moved) else a[i][x])
  }

  // --- the analysis ---

  function EffExpr(e: Expr, mode: Mode, sc: Scopes): (r: (Scopes, nat))
    ensures |r.0| == |sc|
    decreases e
  {
    match e
    case Ident(x) =>
      var i := Find(sc, x);
      if i < 0 then (sc, 0)
      else if sc[i][x].moved then (sc, 1)
      else if mode == Val && sc[i][x].moves then (SetMoved(sc, x, true), 0)
      else (sc, 0)
    case Group(i) => EffExpr(i, mode, sc)
    case _ => EffParts(e, Parts(e, mode), sc)
  }

  function EffParts(whole: Expr, ps: seq<(Expr, Mode)>, sc: Scopes): (r: (Scopes, nat))
    requires forall p <- ps :: p.0 < whole
    ensures |r.0| == |sc|
    decreases whole, |ps|
  {
    if ps == [] then (sc, 0)
    else
      var (sc1, n1) := EffExpr(ps[0].0, ps[0].1, sc);
      var (sc2, n2) := EffParts(whole, ps[1..], sc1);
      (sc2, n1 + n2)
  }

  function EffTarget(ps: seq<(Expr, Mode)>, sc: Scopes): (r: (Scopes, nat))
    ensures |r.0| == |sc|
    decreases |ps|
  {
    if ps == [] then (sc, 0)
    else
      var (sc1, n1) := EffExpr(ps[0].0, ps[0].1, sc);
      var (sc2, n2) := EffTarget(ps[1..], sc1);
      (sc2, n1 + n2)
  }

  function EffOpt(e: Option<Expr>, sc: Scopes): (r: (Scopes, nat))
    ensures |r.0| == |sc|
  {
    match e case None => (sc, 0) case Some(x) => EffExpr(x, Val, sc)
  }

  // Only a whole-name assignment revives a moved local.
  function MarkAssigned(lv: LValue, sc: Scopes): Scopes {
    match lv case LName(x) => SetMoved(sc, x, false) case _ => sc
  }

  function EffBlock(b: Block, sc: Scopes): (r: (Scopes, nat))
    ensures |r.0| == |sc|
    decreases b, |b.stmts| + 1
  {
    var (sc1, n) := EffFrom(b, 0, Push(sc));
    (Pop(sc1), n)
  }

  function EffFrom(b: Block, i: nat, sc: Scopes): (r: (Scopes, nat))
    requires i <= |b.stmts| && sc != []
    ensures |r.0| == |sc|
    decreases b, |b.stmts| - i
  {
    if i == |b.stmts| then EffOpt(b.trailing, sc)
    else
      var (sc1, n1) := EffStmt(b.stmts[i], sc);
      var (sc2, n2) := EffFrom(b, i + 1, sc1);
      (sc2, n1 + n2)
  }

  function EffStmt(st: Stmt, sc: Scopes): (r: (Scopes, nat))
    requires sc != []
    ensures |r.0| == |sc|
    decreases st, 1
  {
    match st
    case VarDecl(x, moves, init) =>
      var (sc1, n) := EffExpr(init, Val, sc);
      (Insert(sc1, x, VarInfo(moves, false)), n)
    case Assign(lv, value) =>
      var (sc1, n1) := EffExpr(value, Val, sc);
      var (sc2, n2) := EffTarget(TargetParts(lv), sc1);
      (MarkAssigned(lv, sc2), n1 + n2)
    case CompoundAssign(lv, op, value) =>
      var (sc1, n1) := EffExpr(Binary(lv.ToExpr(), op, value), Val, sc);
      var (sc2, n2) := EffTarget(TargetParts(lv), sc1);
      (MarkAssigned(lv, sc2), n1 + n2)
    case ExprStmt(e) => EffExpr(e, Val, sc)
    case If(c, t, e) =>
      var (sc1, n1) := EffExpr(c, Val, sc);
      var (a, n2) := EffBlock(t, sc1);
      var (b, n3) := EffBlock(e, sc1);
      (Join(b, a), n1 + n2 + n3)
    case Loop(b) => EffLoop(b, sc)
    case While(c, b) =>
      var (sc1, n1) := EffExpr(c, Val, sc);
      var (sc2, n2) := EffLoop(b, sc1);
      (sc2, n1 + n2)
    case For(x, a, _, z, k, b) =>
      var (sc1, n1) := EffExpr(a, Val, sc);
      var (sc2, n2) := EffExpr(z, Val, sc1);
      var (sc3, n3) := EffOpt(k, sc2);
      var (sc4, n4) := EffLoop(b, Insert(sc3, x, VarInfo(false, false)));
      (sc4, n1 + n2 + n3 + n4)
    case Match(e, arms) =>
      var (sc1, n1) := EffExpr(e, Val, sc);
      if arms == [] then (sc1, n1)
      else
        var (sc2, n2) := EffArms(arms, sc1);
        (sc2, n1 + n2)
    case Return(e) => EffOpt(e, sc)
    case BlockStmt(b) => EffBlock(b, sc)
    case Claim(_, b) => EffBlock(b, sc)
    case _ => (sc, 0)
  }

  // Every arm starts from the same state; the results are folded together.
  function EffArms(arms: seq<Arm>, sc: Scopes): (r: (Scopes, nat))
    requires arms != []
    ensures |r.0| == |sc|
    decreases arms
  {
    var n := |arms| - 1;
    var (last, n2) := EffBlock(arms[n].body, sc);
    if n == 0 then (last, n2)
    else
      var (acc, n1) := EffArms(arms[..n], sc);
      (Join(acc, last), n1 + n2)
  }

  // The state in which a loop body is entered, over all iterations: the closed
  // form that the checker's dry passes converge to.
  function LoopEntry(b: Block, sc: Scopes): (r: Scopes)
    ensures |r| == |sc|
    decreases b, |b.stmts| + 2
  {
    Join(sc, EffBlock(b, sc).0)
  }

  function EffLoop(b: Block, sc: Scopes): (r: (Scopes, nat))
    ensures |r.0| == |sc|
    decreases b, |b.stmts| + 3
  {
    (LoopEntry(b, sc), EffBlock(b, LoopEntry(b, sc)).1)
  }

  // --- shape and order ---

  ghost predicate SameShape(a: Scopes, b: Scopes) {
    |a| == |b| && forall i :: 0 <= i < |a| ==>
      a[i].Keys == b[i].Keys && forall x <- a[i] :: a[i][x].moves == b[i][x].moves
  }

  // Same shape, and every local moved in `a` is moved in `b`.
  ghost predicate Below(a: Scopes, b: Scopes) {
    SameShape(a, b) && forall i, x :: 0 <= i < |a| && x in a[i] && a[i][x].moved ==> b[i][x].moved
  }

  ghost predicate At(sc: Scopes, i: nat, x: string) { i < |sc| && x in sc[i] }

  ghost predicate Flag(sc: Scopes, i: nat, x: string)
    requires i < |sc| && x in sc[i]
  {
    sc[i][x].moved
  }

  lemma FindShape(a: Scopes, b: Scopes, x: string)
    requires SameShape(a, b)
    ensures Find(a, x) == Find(b, x)
  {
    if Find(a, x) < Find(b, x) {} else {}
  }

  lemma JoinShape(a: Scopes, b: Scopes)
    requires SameShape(a, b)
    ensures SameShape(a, Join(a, b)) && Below(a, Join(a, b)) && Below(b, Join(a, b))
  {}

  lemma JoinLeast(a: Scopes, b: Scopes, c: Scopes)
    requires Below(a, c) && Below(b, c)
    ensures Below(Join(a, b), c)
  {}

  lemma BelowAntisymmetric(a: Scopes, b: Scopes)
    requires Below(a, b) && Below(b, a)
    ensures a == b
  {
    forall i | 0 <= i < |a| ensures a[i] == b[i] {
      forall x | x in a[i] ensures a[i][x] == b[i][x] {
        assert a[i][x].moved <==> b[i][x].moved;
      }
    }
  }

  // --- expressions only consume ---

  lemma {:induction false} ExprGrows(e: Expr, mode: Mode, sc: Scopes)
    ensures Below(sc, EffExpr(e, mode, sc).0)
    decreases e
  {
    match e
    case Ident(x) =>
    case Group(i) => ExprGrows(i, mode, sc);
    case _ => PartsGrow(e, Parts(e, mode), sc);
  }

  lemma {:induction false} PartsGrow(whole: Expr, ps: seq<(Expr, Mode)>, sc: Scopes)
    requires forall p <- ps :: p.0 < whole
    ensures Below(sc, EffParts(whole, ps, sc).0)
    decreases whole, |ps|
  {
    if ps != [] {
      ExprGrows(ps[0].0, ps[0].1, sc);
      PartsGrow(whole, ps[1..], EffExpr(ps[0].0, ps[0].1, sc).0);
    }
  }

  lemma {:induction false} TargetGrows(ps: seq<(Expr, Mode)>, sc: Scopes)
    ensures Below(sc, EffTarget(ps, sc).0)
    decreases |ps|
  {
    if ps != [] {
      ExprGrows(ps[0].0, ps[0].1, sc);
      TargetGrows(ps[1..], EffExpr(ps[0].0, ps[0].1, sc).0);
    }
  }

  // The name a statement binds in the scope it stands in.
  function Binds(st: Stmt): set<string> {
    match st
    case VarDecl(x, _, _) => {x}
    case For(x, _, _, _, _, _) => {x}
    case _ => {}
  }

  // A block leaves the shape it found; a statement adds its binding to the
  // innermost scope and nothing else.
  ghost predicate Extends(a: Scopes, b: Scopes, bound: set<string>) {
    |a| == |b| > 0 && SameShape(Pop(a), Pop(b)) && b[|b| - 1].Keys == a[|a| - 1].Keys + bound
  }

  lemma SameShapeExtends(a: Scopes, b: Scopes)
    requires SameShape(a, b) && a != []
    ensures Extends(a, b, {})
  {}

  lemma InsertExtends(a: Scopes, b: Scopes, x: string, info: VarInfo)
    requires SameShape(a, b) && a != []
    ensures Extends(a, Insert(b, x, info), {x})
  {}

  lemma MarkShape(lv: LValue, sc: Scopes)
    ensures SameShape(sc, MarkAssigned(lv, sc))
  {}

  lemma {:induction false} BlockShape(b: Block, sc: Scopes)
    ensures SameShape(sc, EffBlock(b, sc).0)
    decreases b, |b.stmts| + 1
  {
    FromShape(b, 0, Push(sc));
    assert Pop(Push(sc)) == sc;
  }

  lemma {:induction false} FromShape(b: Block, i: nat, sc: Scopes)
    requires i <= |b.stmts| && sc != []
    ensures |EffFrom(b, i, sc).0| == |sc| && SameShape(Pop(sc), Pop(EffFrom(b, i, sc).0))
    decreases b, |b.stmts| - i
  {
    if i == |b.stmts| {
      if b.trailing.Some? { ExprGrows(b.trailing.value, Val, sc); }
    } else {
      StmtShape(b.stmts[i], sc);
      FromShape(b, i + 1, EffStmt(b.stmts[i], sc).0);
    }
  }

  lemma {:induction false} LoopShape(b: Block, sc: Scopes)
    ensures SameShape(sc, LoopEntry(b, sc)) && Below(sc, LoopEntry(b, sc))
    ensures Below(EffBlock(b, sc).0, LoopEntry(b, sc))
    decreases b, |b.stmts| + 2
  {
    BlockShape(b, sc);
    JoinShape(sc, EffBlock(b, sc).0);
  }

  lemma {:induction false} ArmsShape(arms: seq<Arm>, sc: Scopes)
    requires arms != []
    ensures SameShape(sc, EffArms(arms, sc).0)
    decreases arms
  {
    var n := |arms| - 1;
    BlockShape(arms[n].body, sc);
    if n > 0 {
      ArmsShape(arms[..n], sc);
      JoinShape(EffArms(arms[..n], sc).0, EffBlock(arms[n].body, sc).0);
    }
  }

  lemma {:induction false} ForShape(st: Stmt, sc: Scopes)
    requires st.For? && sc != []
    ensures Extends(sc, EffStmt(st, sc).0, Binds(st))
    decreases st, 0
  {
    var sc3 := ForHead(st, sc);
    ForHeadGrows(st, sc);
    InsertExtends(sc, sc3, st.v, VarInfo(false, false));
    LoopShape(st.body, Insert(sc3, st.v, VarInfo(false, false)));
  }

  // The bounds and the step, in order.
  function ForHead(st: Stmt, sc: Scopes): Scopes
    requires st.For?
  {
    EffOpt(st.step, EffExpr(st.end, Val, EffExpr(st.start, Val, sc).0).0).0
  }

  lemma {:induction false} ForHeadGrows(st: Stmt, sc: Scopes)
    requires st.For?
    ensures Below(sc, ForHead(st, sc))
  {
    ExprGrows(st.start, Val, sc);
    var sc1 := EffExpr(st.start, Val, sc).0;
    ExprGrows(st.end, Val, sc1);
    var sc2 := EffExpr(st.end, Val, sc1).0;
    if st.step.Some? { ExprGrows(st.step.value, Val, sc2); }
  }

  lemma {:induction false} AssignShape(lv: LValue, e: Expr, sc: Scopes)
    ensures SameShape(sc, MarkAssigned(lv, EffTarget(TargetParts(lv), EffExpr(e, Val, sc).0).0))
  {
    ExprGrows(e, Val, sc);
    TargetGrows(TargetParts(lv), EffExpr(e, Val, sc).0);
    MarkShape(lv, EffTarget(TargetParts(lv), EffExpr(e, Val, sc).0).0);
  }

  lemma {:induction false} StmtShape(st: Stmt, sc: Scopes)
    requires sc != []
    ensures Extends(sc, EffStmt(st, sc).0, Binds(st))
    decreases st, 1
  {
    match st
    case VarDecl(x, moves, init) =>
      ExprGrows(init, Val, sc);
      InsertExtends(sc, EffExpr(init, Val, sc).0, x, VarInfo(moves, false));
    case For(_, _, _, _, _, _) => ForShape(st, sc);
    case _ =>
      OtherShape(st, sc);
      SameShapeExtends(sc, EffStmt(st, sc).0);
  }

  lemma {:induction false} OtherShape(st: Stmt, sc: Scopes)
    requires sc != [] && !st.VarDecl? && !st.For?
    ensures SameShape(sc, EffStmt(st, sc).0)
    decreases st, 0
  {
    match st
    case Assign(lv, value) => AssignShape(lv, value, sc);
    case CompoundAssign(lv, op, value) => AssignShape(lv, Binary(lv.ToExpr(), op, value), sc);
    case ExprStmt(e) => ExprGrows(e, Val, sc);
    case If(c, t, e) =>
      ExprGrows(c, Val, sc);
      var sc1 := EffExpr(c, Val, sc).0;
      BlockShape(t, sc1);
      BlockShape(e, sc1);
      JoinShape(EffBlock(e, sc1).0, EffBlock(t, sc1).0);
    case Loop(b) => LoopShape(b, sc);
    case While(c, b) =>
      ExprGrows(c, Val, sc);
      LoopShape(b, EffExpr(c, Val, sc).0);
    case Match(e, arms) =>
      ExprGrows(e, Val, sc);
      if arms != [] { ArmsShape(arms, EffExpr(e, Val, sc).0); }
    case Return(e) => if e.Some? { ExprGrows(e.value, Val, sc); }
    case BlockStmt(b) => BlockShape(b, sc);
    case Claim(_, b) => BlockShape(b, sc);
    case _ =>
  }
}
