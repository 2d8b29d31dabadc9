// The checker's use-after-move verdict against the runs of a body: what a clean
// report promises, what it needs for that, and what slips through.
module MoveSoundness {
  import opened Ast
  import opened Semantics
  import opened ControlFlow
  import opened Moves
  import opened MoveLaws
  import Oracles
  import M = MoveTracking
  import X = MoveExactness

  // --- the guard ---

  // What the checker does not look at. A jump leaves a loop with the state of
  // the jump, not with the state at the end of the body: that state must lie
  // below the converged one. A `while` condition runs again on every
  // iteration but is checked once: it must be clean from the converged state.
  ghost predicate GuardedBlock(b: Block, sc: Scopes, lim: Option<Scopes>)
    decreases b, |b.stmts| + 1
  {
    GuardedFrom(b, 0, Push(sc), lim)
  }

  ghost predicate GuardedFrom(b: Block, i: nat, sc: Scopes, lim: Option<Scopes>)
    requires i <= |b.stmts| && sc != []
    decreases b, |b.stmts| - i
  {
    i < |b.stmts| ==> GuardedStmt(b.stmts[i], sc, lim) && GuardedFrom(b, i + 1, EffStmt(b.stmts[i], sc).0, lim)
  }

  ghost predicate GuardedStmt(st: Stmt, sc: Scopes, lim: Option<Scopes>)
    requires sc != []
    decreases st
  {
    match st
    case If(c, t, e) =>
      var sc1 := EffExpr(c, Val, sc).0;
      GuardedBlock(t, sc1, lim) && GuardedBlock(e, sc1, lim)
    case Loop(b) => GuardedBlock(b, LoopEntry(b, sc), Some(LoopEntry(b, sc)))
    case While(c, b) =>
      var entry := LoopEntry(b, EffExpr(c, Val, sc).0);
      EffExpr(c, Val, entry).1 == 0 && Below(EffExpr(c, Val, entry).0, entry) && GuardedBlock(b, entry, Some(entry))
    case For(x, _, _, _, _, b) =>
      var entry := LoopEntry(b, Insert(ForHead(st, sc), x, VarInfo(false, false)));
      GuardedBlock(b, entry, Some(entry))
    case Match(e, arms) => forall arm <- arms :: GuardedBlock(arm.body, EffExpr(e, Val, sc).0, lim)
    case BlockStmt(b) => GuardedBlock(b, sc, lim)
    case Claim(_, b) => GuardedBlock(b, sc, lim)
    case Break => lim.Some? && |lim.value| <= |sc| && Below(sc[..|lim.value|], lim.value)
    case Continue => lim.Some? && |lim.value| <= |sc| && Below(sc[..|lim.value|], lim.value)
    case _ => true
  }

  // --- the checker's state against the tracked one ---

  // The checker's state covers the tracked flag. A known name that no scope
  // binds is a global and never moves.
  ghost predicate Covers(sc: Scopes, y: string, f: bool, typ: bool, known: set<string>) {
    y in known ==>
      var i := Find(sc, y);
      if i >= 0 then (f ==> sc[i][y].moved) && (typ <==> sc[i][y].moves) else !f && !typ
  }

  lemma CoversBelow(a: Scopes, b: Scopes, y: string, f: bool, typ: bool, known: set<string>)
    requires Covers(a, y, f, typ, known) && Below(a, b)
    ensures Covers(b, y, f, typ, known)
  {
    FindShape(a, b, y);
  }

  lemma FindSet(sc: Scopes, x: string, flag: bool, y: string)
    ensures Find(SetMoved(sc, x, flag), y) == Find(sc, y)
    ensures Find(sc, y) >= 0 && y != x ==> SetMoved(sc, x, flag)[Find(sc, y)][y] == sc[Find(sc, y)][y]
    ensures Find(sc, x) >= 0 ==> SetMoved(sc, x, flag)[Find(sc, x)][x] == sc[Find(sc, x)][x].(moved := flag)
  {
    FindShape(sc, SetMoved(sc, x, flag), y);
  }

  lemma FindUnique(sc: Scopes, y: string, i: nat)
    requires i < |sc| && y in sc[i] && forall k :: i < k < |sc| ==> y !in sc[k]
    ensures Find(sc, y) == i
  {}

  lemma FindInsert(sc: Scopes, x: string, info: VarInfo, y: string)
    requires sc != []
    ensures Find(Insert(sc, x, info), x) == |sc| - 1 && Insert(sc, x, info)[|sc| - 1][x] == info
    ensures y != x ==> Find(Insert(sc, x, info), y) == Find(sc, y)
    ensures y != x && Find(sc, y) >= 0 ==> Insert(sc, x, info)[Find(sc, y)][y] == sc[Find(sc, y)][y]
  {
    FindUnique(Insert(sc, x, info), x, |sc| - 1);
    if y != x {
      if Find(sc, y) >= 0 { FindUnique(Insert(sc, x, info), y, Find(sc, y)); }
    }
  }

  lemma CoversFresh(sc: Scopes, x: string, moves: bool, y: string, f: bool, typ: bool, known: set<string>)
    requires sc != [] && Covers(sc, y, f, typ, known) && x !in known
    ensures Covers(Insert(sc, x, VarInfo(moves, false)), y, f && x != y, if x == y then moves else typ, known + {x})
  {
    FindInsert(sc, x, VarInfo(moves, false), y);
  }

  // Scopes opened since the first `n` bind no name of `known`.
  ghost predicate Inside(sc: Scopes, n: nat, known: set<string>) {
    n <= |sc| && forall i :: n <= i < |sc| ==> sc[i].Keys !! known
  }

  lemma CoversPrefix(sc: Scopes, n: nat, y: string, f: bool, typ: bool, known: set<string>, outer: set<string>)
    requires Covers(sc, y, f, typ, known) && outer <= known && Inside(sc, n, outer)
    ensures Covers(sc[..n], y, f, typ, outer)
  {
    if y in outer && Find(sc, y) >= 0 { FindUnique(sc[..n], y, Find(sc, y)); }
  }

  lemma CoversPush(sc: Scopes, y: string, f: bool, typ: bool, known: set<string>)
    requires Covers(sc, y, f, typ, known)
    ensures Covers(Push(sc), y, f, typ, known)
  {
    if Find(sc, y) >= 0 { FindUnique(Push(sc), y, Find(sc, y)); }
  }

  // The loop a jump would leave: its converged entry state, and what is known
  // around it.
  datatype Frame = Frame(lim: Scopes, known: set<string>)

  function Lim(fr: Option<Frame>): Option<Scopes> {
    match fr case None => None case Some(f) => Some(f.lim)
  }

  ghost predicate InFrame(sc: Scopes, known: set<string>, fr: Option<Frame>) {
    fr.Some? ==> fr.value.known <= known && Inside(sc, |fr.value.lim|, fr.value.known)
  }

  // --- expressions ---

  lemma {:induction false} ExprChecked(y: string, e: Expr, mode: Mode, f: bool, typ: bool, sc: Scopes, known: set<string>)
    requires Covers(sc, y, f, typ, known) && M.ScopedExpr(e, known) && EffExpr(e, mode, sc).1 == 0
    ensures var (g, bad) := M.TrackExpr(y, e, mode, f, typ); !bad && Covers(EffExpr(e, mode, sc).0, y, g, typ, known)
    decreases e
  {
    match e
    case Ident(x) => NameChecked(y, x, mode, f, typ, sc, known);
    case Group(i) => ExprChecked(y, i, mode, f, typ, sc, known);
    case _ => PartNames(e, mode); PartsChecked(y, e, Parts(e, mode), f, typ, sc, known);
  }

  lemma NameChecked(y: string, x: string, mode: Mode, f: bool, typ: bool, sc: Scopes, known: set<string>)
    requires Covers(sc, y, f, typ, known) && x in known && EffExpr(Ident(x), mode, sc).1 == 0
    ensures var (g, bad) := M.TrackExpr(y, Ident(x), mode, f, typ); !bad && Covers(EffExpr(Ident(x), mode, sc).0, y, g, typ, known)
  {
    FindSet(sc, x, true, y);
  }

  lemma {:induction false} PartsChecked(y: string, whole: Expr, ps: seq<(Expr, Mode)>, f: bool, typ: bool, sc: Scopes, known: set<string>)
    requires forall p <- ps :: p.0 < whole && M.ScopedExpr(p.0, known)
    requires Covers(sc, y, f, typ, known) && EffParts(whole, ps, sc).1 == 0
    ensures var (g, bad) := M.TrackParts(y, whole, ps, f, typ); !bad && Covers(EffParts(whole, ps, sc).0, y, g, typ, known)
    decreases whole, |ps|
  {
    if ps != [] {
      ExprChecked(y, ps[0].0, ps[0].1, f, typ, sc, known);
      PartsChecked(y, whole, ps[1..], M.TrackExpr(y, ps[0].0, ps[0].1, f, typ).0, typ, EffExpr(ps[0].0, ps[0].1, sc).0, known);
    }
  }

  lemma {:induction false} TargetChecked(y: string, ps: seq<(Expr, Mode)>, f: bool, typ: bool, sc: Scopes, known: set<string>)
    requires (forall p <- ps :: M.ScopedExpr(p.0, known)) && Covers(sc, y, f, typ, known) && EffTarget(ps, sc).1 == 0
    ensures var (g, bad) := M.TrackTarget(y, ps, f, typ); !bad && Covers(EffTarget(ps, sc).0, y, g, typ, known)
    decreases |ps|
  {
    if ps != [] {
      ExprChecked(y, ps[0].0, ps[0].1, f, typ, sc, known);
      TargetChecked(y, ps[1..], M.TrackExpr(y, ps[0].0, ps[0].1, f, typ).0, typ, EffExpr(ps[0].0, ps[0].1, sc).0, known);
    }
  }

  lemma OptChecked(y: string, e: Option<Expr>, f: bool, typ: bool, sc: Scopes, known: set<string>)
    requires Covers(sc, y, f, typ, known) && M.ScopedOpt(e, known) && EffOpt(e, sc).1 == 0
    ensures var (g, bad) := M.TrackOpt(y, e, f, typ); !bad && Covers(EffOpt(e, sc).0, y, g, typ, known)
  {
    if e.Some? { ExprChecked(y, e.value, Val, f, typ, sc, known); }
  }

  lemma AssignChecked(y: string, lv: LValue, value: Expr, f: bool, typ: bool, sc: Scopes, known: set<string>)
    requires Covers(sc, y, f, typ, known) && LNames(lv) <= known && M.ScopedExpr(value, known)
    requires EffExpr(value, Val, sc).1 == 0 && EffTarget(TargetParts(lv), EffExpr(value, Val, sc).0).1 == 0
    ensures var x := M.TrackAssign(y, lv, value, f, typ);
      !x.bad && Covers(MarkAssigned(lv, EffTarget(TargetParts(lv), EffExpr(value, Val, sc).0).0), y, x.normal.value, typ, known)
  {
    TargetPartNames(lv);
    ExprChecked(y, value, Val, f, typ, sc, known);
    var (g, b1) := M.TrackExpr(y, value, Val, f, typ);
    var sc1 := EffExpr(value, Val, sc).0;
    TargetChecked(y, TargetParts(lv), g, typ, sc1, known);
    var (h, b2) := M.TrackTarget(y, TargetParts(lv), g, typ);
    StoreChecked(y, lv, h, typ, EffTarget(TargetParts(lv), sc1).0, known);
    assert M.TrackAssign(y, lv, value, f, typ) == M.Only(h && lv != LName(y), false);
  }

  lemma StoreChecked(y: string, lv: LValue, f: bool, typ: bool, sc: Scopes, known: set<string>)
    requires Covers(sc, y, f, typ, known)
    ensures Covers(MarkAssigned(lv, sc), y, f && lv != LName(y), typ, known)
  {
    if lv.LName? { FindSet(sc, lv.name, false, y); }
  }

  // --- statements ---

  // The tracked ways out are clean, and covered: the normal one by the checker's
  // state, the jumps by the state of the loop they leave.
  ghost predicate Checked(x: M.Exits, y: string, sc: Scopes, typ: bool, known: set<string>, fr: Option<Frame>) {
    && !x.bad
    && (x.normal.Some? ==> Covers(sc, y, x.normal.value, typ, known))
    && (x.brk.Some? ==> fr.Some? && Covers(fr.value.lim, y, x.brk.value, typ, fr.value.known))
    && (x.cont.Some? ==> fr.Some? && Covers(fr.value.lim, y, x.cont.value, typ, fr.value.known))
  }

  lemma {:induction false} BlockChecked(y: string, b: Block, f: bool, typ: bool, sc: Scopes, known: set<string>, fr: Option<Frame>)
    requires Covers(sc, y, f, typ, known) && InFrame(sc, known, fr)
    requires M.ScopedBlock(b, known) && MatchesCoverBlock(b) && GuardedBlock(b, sc, Lim(fr)) && EffBlock(b, sc).1 == 0
    ensures Checked(M.TrackBlock(y, b, f, typ), y, EffBlock(b, sc).0, typ, known, fr)
    decreases b, |b.stmts| + 1
  {
    CoversPush(sc, y, f, typ, known);
    FromChecked(y, b, 0, f, typ, Push(sc), known, known, fr);
  }

  lemma {:induction false} FromChecked(y: string, b: Block, i: nat, f: bool, typ: bool, sc: Scopes, outer: set<string>, known: set<string>, fr: Option<Frame>)
    requires i <= |b.stmts| && sc != [] && outer <= known && Inside(sc, |sc| - 1, outer)
    requires Covers(sc, y, f, typ, known) && InFrame(sc, known, fr) && (fr.Some? ==> |fr.value.lim| < |sc| && fr.value.known <= outer)
    requires M.ScopedFrom(b, i, known) && MatchesCoverBlock(b) && GuardedFrom(b, i, sc, Lim(fr)) && EffFrom(b, i, sc).1 == 0
    ensures Checked(M.TrackFrom(y, b, i, f, typ), y, Pop(EffFrom(b, i, sc).0), typ, outer, fr)
    decreases b, |b.stmts| - i
  {
    if i == |b.stmts| {
      EndChecked(y, b.trailing, f, typ, sc, outer, known);
    } else {
      var st := b.stmts[i];
      StmtChecked(y, st, f, typ, sc, known, fr);
      var (a, sc1, known1) := (M.TrackStmt(y, st, f, typ), EffStmt(st, sc).0, M.KnownAfter(st, known));
      if a.normal.Some? {
        StmtShape(st, sc);
        StepInside(sc, sc1, |sc| - 1, outer, Binds(st));
        if fr.Some? { StepInside(sc, sc1, |fr.value.lim|, fr.value.known, Binds(st)); }
        FromChecked(y, b, i + 1, a.normal.value, M.TypeAfter(y, st, typ), sc1, outer, known1, fr);
      }
    }
  }

  lemma EndChecked(y: string, e: Option<Expr>, f: bool, typ: bool, sc: Scopes, outer: set<string>, known: set<string>)
    requires sc != [] && outer <= known && Inside(sc, |sc| - 1, outer)
    requires Covers(sc, y, f, typ, known) && M.ScopedOpt(e, known) && EffOpt(e, sc).1 == 0
    ensures var (g, bad) := M.TrackOpt(y, e, f, typ); !bad && EffOpt(e, sc).0 != [] && Covers(Pop(EffOpt(e, sc).0), y, g, typ, outer)
  {
    OptChecked(y, e, f, typ, sc, known);
    if e.Some? { ExprGrows(e.value, Val, sc); }
    CoversPrefix(EffOpt(e, sc).0, |sc| - 1, y, M.TrackOpt(y, e, f, typ).0, typ, known, outer);
  }

  lemma StepInside(a: Scopes, b: Scopes, n: nat, outer: set<string>, bound: set<string>)
    requires Extends(a, b, bound) && Inside(a, n, outer) && bound !! outer && n < |a|
    ensures Inside(b, n, outer)
  {
    forall i | n <= i < |b| ensures b[i].Keys !! outer {
      if i < |a| - 1 { assert Pop(a)[i] == a[i] && Pop(b)[i] == b[i]; }
    }
  }

  lemma {:induction false} StmtChecked(y: string, st: Stmt, f: bool, typ: bool, sc: Scopes, known: set<string>, fr: Option<Frame>)
    requires sc != [] && Covers(sc, y, f, typ, known) && InFrame(sc, known, fr) && (fr.Some? ==> |fr.value.lim| < |sc|)
    requires M.ScopedStmt(st, known) && MatchesCoverStmt(st) && GuardedStmt(st, sc, Lim(fr)) && EffStmt(st, sc).1 == 0
    ensures Checked(M.TrackStmt(y, st, f, typ), y, EffStmt(st, sc).0, M.TypeAfter(y, st, typ), M.KnownAfter(st, known), fr)
    decreases st, 3
  {
    match st
    case VarDecl(_, _, _) => DeclChecked(y, st, f, typ, sc, known);
    case Assign(lv, value) => AssignChecked(y, lv, value, f, typ, sc, known);
    case CompoundAssign(lv, op, value) =>
      ToExprNames(lv);
      AssignChecked(y, lv, Binary(lv.ToExpr(), op, value), f, typ, sc, known);
    case ExprStmt(e) => ExprChecked(y, e, Val, f, typ, sc, known);
    case If(_, _, _) => IfChecked(y, st, f, typ, sc, known, fr);
    case Loop(_) => LoopChecked(y, st, f, typ, sc, known, fr);
    case While(_, _) => LoopChecked(y, st, f, typ, sc, known, fr);
    case For(_, _, _, _, _, _) => ForChecked(y, st, f, typ, sc, known, fr);
    case Match(e, arms) =>
      ExprChecked(y, e, Val, f, typ, sc, known);
      ExprGrows(e, Val, sc);
      FrameShape(sc, EffExpr(e, Val, sc).0, known, fr);
      ArmsChecked(y, st, 0, M.TrackExpr(y, e, Val, f, typ).0, typ, EffExpr(e, Val, sc).0, known, fr);
    case Return(e) => OptChecked(y, e, f, typ, sc, known);
    case Break => JumpChecked(y, f, typ, sc, known, fr);
    case Continue => JumpChecked(y, f, typ, sc, known, fr);
    case BlockStmt(b) => BlockChecked(y, b, f, typ, sc, known, fr);
    case Claim(_, b) => BlockChecked(y, b, f, typ, sc, known, fr);
  }

  lemma DeclChecked(y: string, st: Stmt, f: bool, typ: bool, sc: Scopes, known: set<string>)
    requires st.VarDecl? && sc != [] && Covers(sc, y, f, typ, known) && M.ScopedStmt(st, known) && EffStmt(st, sc).1 == 0
    ensures var x := M.TrackStmt(y, st, f, typ);
      x == M.Only(x.normal.value, false) && Covers(EffStmt(st, sc).0, y, x.normal.value, M.TypeAfter(y, st, typ), M.KnownAfter(st, known))
  {
    ExprChecked(y, st.init, Val, f, typ, sc, known);
    CoversFresh(EffExpr(st.init, Val, sc).0, st.name, st.moves, y, M.TrackExpr(y, st.init, Val, f, typ).0, typ, known);
  }

  lemma JumpChecked(y: string, f: bool, typ: bool, sc: Scopes, known: set<string>, fr: Option<Frame>)
    requires Covers(sc, y, f, typ, known) && InFrame(sc, known, fr)
    requires fr.Some? && |fr.value.lim| <= |sc| && Below(sc[..|fr.value.lim|], fr.value.lim)
    ensures Covers(fr.value.lim, y, f, typ, fr.value.known)
  {
    CoversPrefix(sc, |fr.value.lim|, y, f, typ, known, fr.value.known);
    CoversBelow(sc[..|fr.value.lim|], fr.value.lim, y, f, typ, fr.value.known);
  }

  lemma FrameShape(a: Scopes, b: Scopes, known: set<string>, fr: Option<Frame>)
    requires SameShape(a, b) && InFrame(a, known, fr)
    ensures InFrame(b, known, fr)
  {}

  // Two covered ways out, with a state that covers both.
  lemma CheckedBoth(a: M.Exits, b: M.Exits, y: string, sa: Scopes, sb: Scopes, sc: Scopes, typ: bool, known: set<string>, fr: Option<Frame>)
    requires Checked(a, y, sa, typ, known, fr) && Checked(b, y, sb, typ, known, fr) && Below(sa, sc) && Below(sb, sc)
    ensures Checked(M.Either(a, b), y, sc, typ, known, fr)
  {
    if a.normal.Some? { CoversBelow(sa, sc, y, a.normal.value, typ, known); }
    if b.normal.Some? { CoversBelow(sb, sc, y, b.normal.value, typ, known); }
  }

  lemma {:induction false} IfChecked(y: string, st: Stmt, f: bool, typ: bool, sc: Scopes, known: set<string>, fr: Option<Frame>)
    requires st.If? && sc != [] && Covers(sc, y, f, typ, known) && InFrame(sc, known, fr)
    requires M.ScopedStmt(st, known) && MatchesCoverStmt(st) && GuardedStmt(st, sc, Lim(fr)) && EffStmt(st, sc).1 == 0
    ensures Checked(M.TrackStmt(y, st, f, typ), y, EffStmt(st, sc).0, typ, known, fr)
    decreases st, 2
  {
    ExprChecked(y, st.cond, Val, f, typ, sc, known);
    ExprGrows(st.cond, Val, sc);
    var (sc1, g) := (EffExpr(st.cond, Val, sc).0, M.TrackExpr(y, st.cond, Val, f, typ).0);
    FrameShape(sc, sc1, known, fr);
    BlockChecked(y, st.thn, g, typ, sc1, known, fr);
    BlockChecked(y, st.els, g, typ, sc1, known, fr);
    var (thn, els) := (EffBlock(st.thn, sc1).0, EffBlock(st.els, sc1).0);
    BlockShape(st.thn, sc1);
    BlockShape(st.els, sc1);
    JoinShape(els, thn);
    CheckedBoth(M.TrackBlock(y, st.thn, g, typ), M.TrackBlock(y, st.els, g, typ), y, thn, els, Join(els, thn), typ, known, fr);
  }

  lemma {:induction false} ArmBelow(arms: seq<Arm>, sc: Scopes, i: nat)
    requires i < |arms|
    ensures Below(EffBlock(arms[i].body, sc).0, EffArms(arms, sc).0)
    ensures EffArms(arms, sc).1 == 0 ==> EffBlock(arms[i].body, sc).1 == 0
    decreases arms
  {
    var n := |arms| - 1;
    var last := EffBlock(arms[n].body, sc).0;
    BlockShape(arms[n].body, sc);
    if n > 0 {
      ArmsShape(arms[..n], sc);
      JoinShape(EffArms(arms[..n], sc).0, last);
      if i < n { ArmBelow(arms[..n], sc, i); }
    }
  }

  lemma {:induction false} ArmsChecked(y: string, st: Stmt, i: nat, f: bool, typ: bool, sc: Scopes, known: set<string>, fr: Option<Frame>)
    requires st.Match? && i <= |st.arms| && exists arm <- st.arms[i..] :: PWild in arm.patterns
    requires Covers(sc, y, f, typ, known) && InFrame(sc, known, fr) && EffArms(st.arms, sc).1 == 0
    requires forall arm <- st.arms :: M.ScopedBlock(arm.body, known) && MatchesCoverBlock(arm.body) && GuardedBlock(arm.body, sc, Lim(fr))
    ensures Checked(M.TrackArms(y, st, i, f, typ), y, EffArms(st.arms, sc).0, typ, known, fr)
    decreases st, 1, |st.arms| - i
  {
    var (arm, after) := (st.arms[i], EffArms(st.arms, sc).0);
    assert arm in st.arms;
    ArmBelow(st.arms, sc, i);
    BlockChecked(y, arm.body, f, typ, sc, known, fr);
    var (x, sa) := (M.TrackBlock(y, arm.body, f, typ), EffBlock(arm.body, sc).0);
    if PWild in arm.patterns {
      if x.normal.Some? { CoversBelow(sa, after, y, x.normal.value, typ, known); }
    } else {
      assert st.arms[i..] == [arm] + st.arms[i + 1..];
      ArmsChecked(y, st, i + 1, f, typ, sc, known, fr);
      assert Below(after, after);
      CheckedBoth(x, M.TrackArms(y, st, i + 1, f, typ), y, sa, after, after, typ, known, fr);
    }
  }

  lemma {:induction false} LoopChecked(y: string, st: Stmt, f: bool, typ: bool, sc: Scopes, known: set<string>, fr: Option<Frame>)
    requires (st.Loop? || st.While?) && sc != [] && Covers(sc, y, f, typ, known)
    requires M.ScopedStmt(st, known) && MatchesCoverStmt(st) && GuardedStmt(st, sc, Lim(fr)) && EffStmt(st, sc).1 == 0
    ensures Checked(M.TrackStmt(y, st, f, typ), y, EffStmt(st, sc).0, typ, known, fr)
    decreases st, 2
  {
    var sc1 := if st.While? then EffExpr(st.cond, Val, sc).0 else sc;
    if st.While? { ExprGrows(st.cond, Val, sc); }
    var entry := LoopEntry(st.body, sc1);
    LoopShape(st.body, sc1);
    assert Below(sc, entry);
    CoversBelow(sc, entry, y, f, typ, known);
    RoundsChecked(y, st, f, typ, entry, sc1, known);
  }

  lemma {:induction false} ForChecked(y: string, st: Stmt, f: bool, typ: bool, sc: Scopes, known: set<string>, fr: Option<Frame>)
    requires st.For? && sc != [] && Covers(sc, y, f, typ, known)
    requires M.ScopedStmt(st, known) && MatchesCoverStmt(st) && GuardedStmt(st, sc, Lim(fr)) && EffStmt(st, sc).1 == 0
    ensures Checked(M.TrackStmt(y, st, f, typ), y, EffStmt(st, sc).0, typ, known, fr)
    decreases st, 2
  {
    EntryChecked(y, st, f, typ, sc, known);
    var (g, sc3) := (M.TrackEntry(y, st, f, typ).0, ForHead(st, sc));
    CoversFresh(sc3, st.v, false, y, g, typ, known);
    var sc4 := Insert(sc3, st.v, VarInfo(false, false));
    var entry := LoopEntry(st.body, sc4);
    LoopShape(st.body, sc4);
    CoversBelow(sc4, entry, y, g && st.v != y, typ && st.v != y, known + {st.v});
    RoundsChecked(y, st, g && st.v != y, typ && st.v != y, entry, sc4, known + {st.v});
  }

  lemma {:induction false} EntryChecked(y: string, st: Stmt, f: bool, typ: bool, sc: Scopes, known: set<string>)
    requires st.For? && sc != [] && Covers(sc, y, f, typ, known) && M.ScopedStmt(st, known) && EffStmt(st, sc).1 == 0
    ensures var (g, bad) := M.TrackEntry(y, st, f, typ); !bad && Covers(ForHead(st, sc), y, g, typ, known)
  {
    ExprChecked(y, st.start, Val, f, typ, sc, known);
    var (g1, sc1) := (M.TrackExpr(y, st.start, Val, f, typ).0, EffExpr(st.start, Val, sc).0);
    ExprChecked(y, st.end, Val, g1, typ, sc1, known);
    var (g2, sc2) := (M.TrackExpr(y, st.end, Val, g1, typ).0, EffExpr(st.end, Val, sc1).0);
    OptChecked(y, st.step, g2, typ, sc2, known);
  }

  // From the converged state every round stays below it.
  lemma {:induction false} RoundsChecked(y: string, st: Stmt, f: bool, typ: bool, entry: Scopes, sc: Scopes, known: set<string>)
    requires IsLoop(st) && entry == LoopEntry(st.body, sc) && Covers(entry, y, f, typ, known)
    requires M.ScopedBlock(st.body, known) && MatchesCoverBlock(st.body) && EffBlock(st.body, entry).1 == 0 && GuardedBlock(st.body, entry, Some(entry))
    requires st.While? ==> M.ScopedExpr(st.cond, known) && EffExpr(st.cond, Val, entry).1 == 0 && Below(EffExpr(st.cond, Val, entry).0, entry)
    ensures var x := M.TrackRounds(y, st, f, typ); !x.bad && (x.normal.Some? ==> Covers(entry, y, x.normal.value, typ, known))
    decreases st, 1
  {
    RoundChecked(y, st, f, typ, entry, sc, known);
    RoundChecked(y, st, M.HeadFlag(y, st, f, typ), typ, entry, sc, known);
  }

  lemma {:induction false} RoundChecked(y: string, st: Stmt, f: bool, typ: bool, entry: Scopes, sc: Scopes, known: set<string>)
    requires IsLoop(st) && entry == LoopEntry(st.body, sc) && Covers(entry, y, f, typ, known)
    requires M.ScopedBlock(st.body, known) && MatchesCoverBlock(st.body) && EffBlock(st.body, entry).1 == 0 && GuardedBlock(st.body, entry, Some(entry))
    requires st.While? ==> M.ScopedExpr(st.cond, known) && EffExpr(st.cond, Val, entry).1 == 0 && Below(EffExpr(st.cond, Val, entry).0, entry)
    ensures var x := M.TrackRound(y, st, f, typ); !x.bad && (x.normal.Some? ==> Covers(entry, y, x.normal.value, typ, known)) && (x.brk.Some? ==> Covers(entry, y, x.brk.value, typ, known))
    decreases st, 0
  {
    var g := if st.While? then M.TrackExpr(y, st.cond, Val, f, typ).0 else f;
    if st.While? {
      ExprChecked(y, st.cond, Val, f, typ, entry, known);
      CoversBelow(EffExpr(st.cond, Val, entry).0, entry, y, g, typ, known);
    }
    BlockChecked(y, st.body, g, typ, entry, known, Some(Frame(entry, known)));
    LoopEntryIsStable(st.body, sc);
    var x := M.TrackBlock(y, st.body, g, typ);
    if x.normal.Some? { CoversBelow(EffBlock(st.body, entry).0, entry, y, x.normal.value, typ, known); }
  }

  // --- the verdict ---

  // The checker's state on entry to a body.
  function ParamScope(params: map<string, bool>): Scopes { [map x | x in params :: VarInfo(params[x], false)] }

  // What E305, E347 and the match check establish before moves are looked at.
  predicate WellFormed(body: Block, params: map<string, bool>, globals: set<string>) {
    M.WellScoped(body, params, globals) && MatchesCoverBlock(body)
  }

  // No run of the body uses any local after a move.
  ghost predicate MoveSafe(body: Block, params: map<string, bool>) {
    forall negates, y, t, fuel :: !M.FaultsOn(negates, y, body, params, t, fuel)
  }

  // The exact condition: a body is safe exactly when following its paths reports
  // no local.
  lemma SafeExactly(body: Block, params: map<string, bool>, globals: set<string>)
    requires M.WellScoped(body, params, globals)
    ensures MoveSafe(body, params) <==> forall y :: !M.UsedAfterMove(y, body, params)
  {
    forall negates, y { X.ReportedExactly(negates, y, body, params, globals); }
    forall y ensures M.UsedAfterMove(y, body, params) ==> !MoveSafe(body, params) {
      X.ReportedExactly(true, y, body, params, globals);
    }
  }

  // A body the checker reports no E304 for, and in which the jumps and the
  // `while` conditions are guarded, is one in which following the paths reports
  // nothing.
  lemma {:induction false} CleanMeansUntracked(y: string, body: Block, params: map<string, bool>, globals: set<string>)
    requires WellFormed(body, params, globals) && EffBlock(body, ParamScope(params)).1 == 0 && GuardedBlock(body, ParamScope(params), None)
    ensures !M.UsedAfterMove(y, body, params)
  {
    var sc := ParamScope(params);
    assert Find(sc, y) == if y in params then 0 else -1 by { if y in params { FindUnique(sc, y, 0); } }
    BlockChecked(y, body, false, y in params && params[y], sc, params.Keys + globals, None);
  }

  // A safe body is safe whatever the actions compute, from whatever state.
  lemma {:induction false} SafeForEveryMeaning<E>(base: Act<E>, body: Block, params: map<string, bool>, e: E, fuel: nat)
    requires MoveSafe(body, params)
    ensures ExecBlock(Oracles.Beside(base, M.Observe), body, (e, M.Entered(params)), fuel).1.1.faulted == {}
  {
    var t := Oracles.EveryRunIsOnATape(base, M.Observe, body, (e, M.Entered(params)), fuel);
    forall y ensures y !in ExecBlock(Oracles.Beside(base, M.Observe), body, (e, M.Entered(params)), fuel).1.1.faulted {
      assert !M.FaultsOn(false, y, body, params, Some(t), fuel);
    }
  }

  // Move soundness: if the check reports no E304, no run uses a moved-from
  // local, whatever the actions compute, whatever the branches, the iteration
  // counts and the length of the run. Runs cut off in the middle are included.
  lemma {:induction false} NoUseAfterMove<E>(base: Act<E>, body: Block, params: map<string, bool>, globals: set<string>, e: E, fuel: nat)
    requires WellFormed(body, params, globals)
    requires EffBlock(body, ParamScope(params)).1 == 0
    requires GuardedBlock(body, ParamScope(params), None)
    ensures MoveSafe(body, params)
    ensures ExecBlock(Oracles.Beside(base, M.Observe), body, (e, M.Entered(params)), fuel).1.1.faulted == {}
  {
    forall y ensures !M.UsedAfterMove(y, body, params) { CleanMeansUntracked(y, body, params, globals); }
    SafeExactly(body, params, globals);
    SafeForEveryMeaning(base, body, params, e, fuel);
  }

  // --- what slips through ---

  // Functions that make a value of a type that moves, take one, and say when to
  // stop; and a local of that type.
  datatype Setting = Setting(make: string, take: string, done: string, v: string)
  {
    predicate Distinct() { v != make && v != take && v != done }

    function Globals(): set<string> { {make, take, done} }

    function Made(): Expr { Call(Ident(make), []) }

    function Taken(): Expr { Call(Ident(take), [Ident(v)]) }

    function Declared(): Stmt { VarDecl(v, true, Made()) }

    // A `while` whose condition takes the local: checked once, evaluated again on
    // every round.
    function LeakingWhile(): Block { Block([Declared(), While(Taken(), EmptyBlock)], None) }

    // A loop left between the use of the local and its next value.
    function LeakingLoop(): Block {
      Block([ExprStmt(Taken()), If(Call(Ident(done), []), JustBreak, EmptyBlock), Assign(LName(v), Made())], None)
    }

    function LeakingBreak(): Block { Block([Declared(), Loop(LeakingLoop()), ExprStmt(Taken())], None) }
  }

  const JustBreak := Block([Break], None)

  // The checker accepts it, and a run of it uses a moved-from local.
  ghost predicate SlipsThrough(body: Block, globals: set<string>) {
    WellFormed(body, map[], globals) && EffBlock(body, ParamScope(map[])).1 == 0 && !MoveSafe(body, map[])
  }

  lemma {:induction false} WhileConditionCanUseAMovedLocal(c: Setting)
    requires c.Distinct()
    ensures SlipsThrough(c.LeakingWhile(), c.Globals())
  {
    WhileScoped(c);
    WhileUnreported(c);
    WhileTracked(c);
    SafeExactly(c.LeakingWhile(), map[], c.Globals());
  }

  lemma {:induction false} BreakCanLeakAMove(c: Setting)
    requires c.Distinct()
    ensures SlipsThrough(c.LeakingBreak(), c.Globals())
  {
    BreakScoped(c);
    BreakUnreported(c);
    BreakTracked(c);
    SafeExactly(c.LeakingBreak(), map[], c.Globals());
  }

  // The checker sees the local unmoved before the condition.
  lemma {:induction false} WhileUnreported(c: Setting)
    requires c.Distinct()
    ensures EffBlock(c.LeakingWhile(), ParamScope(map[])).1 == 0
  {
    var (b, st) := (c.LeakingWhile(), While(c.Taken(), EmptyBlock));
    assert b.stmts[0] == c.Declared() && b.stmts[1] == st;
    DeclaredEffect(c);
    var (s1, u1) := (OneLocal(c.v, false, 0), OneLocal(c.v, true, 0));
    TakenEffect(c, 0);
    EmptyEffect(u1);
    assert EffStmt(st, s1) == (u1, 0);
    assert EffFrom(b, 2, u1) == (u1, 0);
    assert EffFrom(b, 1, s1) == (u1, 0);
  }

  // The second round finds it moved.
  lemma {:induction false} WhileTracked(c: Setting)
    requires c.Distinct()
    ensures M.UsedAfterMove(c.v, c.LeakingWhile(), map[])
  {
    var (b, st) := (c.LeakingWhile(), While(c.Taken(), EmptyBlock));
    assert b.stmts[0] == c.Declared() && b.stmts[1] == st;
    CallTracked(c, false);
    CallTracked(c, true);
    EmptyTracked(c.v, true);
    assert M.TrackRound(c.v, st, false, true).normal == Some(true);
    assert M.HeadFlag(c.v, st, false, true);
    assert M.TrackRound(c.v, st, true, true).bad;
    assert M.TrackRounds(c.v, st, false, true).bad;
    assert M.TrackStmt(c.v, st, false, true) == M.TrackRounds(c.v, st, false, true);
    assert M.TrackFrom(c.v, b, 1, false, true).bad;
    assert M.TrackFrom(c.v, b, 0, false, false).bad;
  }

  // The checker sees the local back at the end of the loop body.
  lemma {:induction false} BreakUnreported(c: Setting)
    requires c.Distinct()
    ensures EffBlock(c.LeakingBreak(), ParamScope(map[])).1 == 0
  {
    var (b, st) := (c.LeakingBreak(), Loop(c.LeakingLoop()));
    assert b.stmts[0] == c.Declared() && b.stmts[1] == st && b.stmts[2] == ExprStmt(c.Taken());
    DeclaredEffect(c);
    var (s1, u1) := (OneLocal(c.v, false, 0), OneLocal(c.v, true, 0));
    LoopEffect(c);
    TakenEffect(c, 0);
    assert EffStmt(st, s1) == (s1, 0);
    assert EffFrom(b, 3, u1) == (u1, 0);
    assert EffFrom(b, 2, s1) == (u1, 0);
    assert EffFrom(b, 1, s1) == (u1, 0);
  }

  // The break leaves with the local moved.
  lemma {:induction false} BreakTracked(c: Setting)
    requires c.Distinct()
    ensures M.UsedAfterMove(c.v, c.LeakingBreak(), map[])
  {
    var (b, st) := (c.LeakingBreak(), Loop(c.LeakingLoop()));
    assert b.stmts[0] == c.Declared() && b.stmts[1] == st && b.stmts[2] == ExprStmt(c.Taken());
    LoopTracked(c);
    CallTracked(c, false);
    CallTracked(c, true);
    assert M.TrackStmt(c.v, st, false, true) == M.TrackRounds(c.v, st, false, true);
    assert M.TrackFrom(c.v, b, 2, true, true).bad;
    assert M.TrackFrom(c.v, b, 1, false, true).bad;
    assert M.TrackFrom(c.v, b, 0, false, false).bad;
  }

  lemma CallNames(c: Setting)
    ensures Names(c.Made()) == {c.make} && Names(c.Taken()) == {c.take, c.v} && Names(Call(Ident(c.done), [])) == {c.done}
  {
    assert [Ident(c.v)][1..] == [];
    assert NamesOf([Ident(c.v)]) == Names(Ident(c.v)) + NamesOf([]);
  }

  lemma {:induction false} WhileScoped(c: Setting)
    requires c.Distinct()
    ensures WellFormed(c.LeakingWhile(), map[], c.Globals())
  {
    var (b, known) := (c.LeakingWhile(), c.Globals() + {c.v});
    CallNames(c);
    assert b.stmts == [c.Declared(), While(c.Taken(), EmptyBlock)];
    EmptyScoped(known);
    assert M.ScopedStmt(b.stmts[1], known);
    assert M.ScopedFrom(b, 2, known);
    assert M.ScopedFrom(b, 1, known);
    assert MatchesCoverStmt(b.stmts[1]);
    assert M.ScopedStmt(b.stmts[0], c.Globals()) && M.KnownAfter(b.stmts[0], c.Globals()) == known;
    var none: map<string, bool> := map[];
    assert none.Keys + c.Globals() == c.Globals();
    assert M.ScopedFrom(b, 0, c.Globals());
  }

  lemma {:induction false} BreakScoped(c: Setting)
    requires c.Distinct()
    ensures WellFormed(c.LeakingBreak(), map[], c.Globals())
  {
    var (b, l, known) := (c.LeakingBreak(), c.LeakingLoop(), c.Globals() + {c.v});
    CallNames(c);
    assert l.stmts[0] == ExprStmt(c.Taken()) && l.stmts[1] == If(Call(Ident(c.done), []), JustBreak, EmptyBlock) && l.stmts[2] == Assign(LName(c.v), c.Made());
    EmptyScoped(known);
    assert M.ScopedFrom(l, 3, known);
    assert M.ScopedStmt(Assign(LName(c.v), c.Made()), known);
    assert M.ScopedFrom(l, 2, known);
    assert M.ScopedStmt(If(Call(Ident(c.done), []), JustBreak, EmptyBlock), known);
    assert M.ScopedFrom(l, 1, known);
    assert M.ScopedStmt(ExprStmt(c.Taken()), known);
    assert M.ScopedFrom(l, 0, known);
    assert M.ScopedStmt(Loop(l), known);
    assert MatchesCoverStmt(l.stmts[1]);
    assert MatchesCoverStmt(Loop(l));
    assert b.stmts[0] == c.Declared() && b.stmts[1] == Loop(l) && b.stmts[2] == ExprStmt(c.Taken());
    assert M.ScopedFrom(b, 3, known);
    assert M.ScopedFrom(b, 2, known);
    assert M.ScopedFrom(b, 1, known);
    assert M.ScopedStmt(b.stmts[0], c.Globals()) && M.KnownAfter(b.stmts[0], c.Globals()) == known;
    var none: map<string, bool> := map[];
    assert none.Keys + c.Globals() == c.Globals();
    assert M.ScopedFrom(b, 0, c.Globals());
  }

  lemma EmptyScoped(known: set<string>)
    ensures M.ScopedBlock(EmptyBlock, known) && M.ScopedBlock(JustBreak, known) && MatchesCoverBlock(EmptyBlock) && MatchesCoverBlock(JustBreak)
  {
    assert M.ScopedFrom(EmptyBlock, 0, known);
    assert JustBreak.stmts[0] == Break && M.ScopedFrom(JustBreak, 1, known) && M.ScopedFrom(JustBreak, 0, known);
  }

  // --- the two programs, as the checker sees them ---

  // The local in the scope of the body, and `n` scopes opened since.
  function OneLocal(v: string, moved: bool, n: nat): Scopes {
    [map[], map[v := VarInfo(true, moved)]] + seq(n, _ => map[])
  }

  lemma OneLocalFacts(v: string, moved: bool, flag: bool, n: nat)
    ensures Find(OneLocal(v, moved, n), v) == 1
    ensures SetMoved(OneLocal(v, moved, n), v, flag) == OneLocal(v, flag, n)
    ensures Push(OneLocal(v, moved, n)) == OneLocal(v, moved, n + 1)
    ensures Pop(OneLocal(v, moved, n + 1)) == OneLocal(v, moved, n)
    ensures Join(OneLocal(v, moved, n), OneLocal(v, moved, n)) == OneLocal(v, moved, n)
  {
    FindUnique(OneLocal(v, moved, n), v, 1);
    JoinSelf(OneLocal(v, moved, n));
    assert SetMoved(OneLocal(v, moved, n), v, flag)[1] == map[v := VarInfo(true, flag)];
    assert SetMoved(OneLocal(v, moved, n), v, flag) == OneLocal(v, flag, n);
  }

  lemma Unbound(v: string, moved: bool, n: nat, x: string)
    requires x != v
    ensures Find(OneLocal(v, moved, n), x) == -1
  {}

  lemma JoinSelf(sc: Scopes)
    ensures Join(sc, sc) == sc
  {
    assert Below(sc, sc);
    JoinShape(sc, sc);
    JoinLeast(sc, sc, sc);
    BelowAntisymmetric(Join(sc, sc), sc);
  }

  // A call of an unbound name with no arguments.
  lemma CallEffect(f: string, sc: Scopes)
    requires Find(sc, f) == -1
    ensures EffExpr(Call(Ident(f), []), Val, sc) == (sc, 0)
  {
    CallParts(f);
    var e := Call(Ident(f), []);
    assert EffExpr(Ident(f), Val, sc) == (sc, 0);
    assert EffParts(e, [], sc) == (sc, 0);
    assert EffParts(e, [(Ident(f), Val)], sc) == (sc, 0);
  }

  lemma CallParts(f: string)
    ensures Parts(Call(Ident(f), []), Val) == [(Ident(f), Val)] && [(Ident(f), Val)][1..] == []
  {}

  lemma TakenParts(c: Setting)
    ensures Parts(c.Taken(), Val) == [(Ident(c.take), Val), (Ident(c.v), Val)]
    ensures [(Ident(c.take), Val), (Ident(c.v), Val)][1..] == [(Ident(c.v), Val)] && [(Ident(c.v), Val)][1..] == []
  {}

  lemma TakenEffect(c: Setting, n: nat)
    requires c.Distinct()
    ensures EffExpr(c.Taken(), Val, OneLocal(c.v, false, n)) == (OneLocal(c.v, true, n), 0)
  {
    var (e, sc, after) := (c.Taken(), OneLocal(c.v, false, n), OneLocal(c.v, true, n));
    OneLocalFacts(c.v, false, true, n);
    Unbound(c.v, false, n, c.take);
    TakenParts(c);
    assert EffExpr(Ident(c.take), Val, sc) == (sc, 0);
    assert EffExpr(Ident(c.v), Val, sc) == (after, 0);
    assert EffParts(e, [], after) == (after, 0);
    assert EffParts(e, [(Ident(c.v), Val)], sc) == (after, 0);
    assert EffParts(e, [(Ident(c.take), Val), (Ident(c.v), Val)], sc) == (after, 0);
  }

  lemma EmptyEffect(sc: Scopes)
    ensures EffBlock(EmptyBlock, sc) == (sc, 0) && LoopEntry(EmptyBlock, sc) == sc
  {
    assert EffFrom(EmptyBlock, 0, Push(sc)) == (Push(sc), 0);
    assert Pop(Push(sc)) == sc;
    JoinSelf(sc);
  }

  // The declaration every one of the bodies begins with.
  lemma DeclaredEffect(c: Setting)
    requires c.Distinct()
    ensures EffStmt(c.Declared(), Push(ParamScope(map[]))) == (OneLocal(c.v, false, 0), 0)
  {
    var sc := Push(ParamScope(map[]));
    CallEffect(c.make, sc);
    assert Insert(sc, c.v, VarInfo(true, false)) == OneLocal(c.v, false, 0);
  }

  lemma LoopEffect(c: Setting)
    requires c.Distinct()
    ensures EffLoop(c.LeakingLoop(), OneLocal(c.v, false, 0)) == (OneLocal(c.v, false, 0), 0)
  {
    var s0 := OneLocal(c.v, false, 0);
    OneLocalFacts(c.v, false, true, 0);
    RoundEffect(c);
    assert EffBlock(c.LeakingLoop(), s0) == (Pop(OneLocal(c.v, false, 1)), 0);
  }

  // A round: the local is moved, and given a new value.
  lemma {:induction false} RoundEffect(c: Setting)
    requires c.Distinct()
    ensures EffFrom(c.LeakingLoop(), 0, OneLocal(c.v, false, 1)) == (OneLocal(c.v, false, 1), 0)
  {
    var (b, s1, u1) := (c.LeakingLoop(), OneLocal(c.v, false, 1), OneLocal(c.v, true, 1));
    assert b.stmts[0] == ExprStmt(c.Taken()) && b.stmts[1] == If(Call(Ident(c.done), []), JustBreak, EmptyBlock) && b.stmts[2] == Assign(LName(c.v), c.Made());
    TakenEffect(c, 1);
    Unbound(c.v, true, 1, c.done);
    CallEffect(c.done, u1);
    BranchEffect(c, u1);
    RevivalEffect(c);
    assert EffFrom(b, 3, s1) == (s1, 0);
    assert EffFrom(b, 2, u1) == (s1, 0);
    assert EffFrom(b, 1, u1) == (s1, 0);
  }

  // A new value makes the local usable again.
  lemma RevivalEffect(c: Setting)
    requires c.Distinct()
    ensures EffStmt(Assign(LName(c.v), c.Made()), OneLocal(c.v, true, 1)) == (OneLocal(c.v, false, 1), 0)
  {
    var u1 := OneLocal(c.v, true, 1);
    OneLocalFacts(c.v, true, false, 1);
    Unbound(c.v, true, 1, c.make);
    CallEffect(c.make, u1);
  }

  lemma BranchEffect(c: Setting, sc: Scopes)
    requires sc != [] && EffExpr(Call(Ident(c.done), []), Val, sc) == (sc, 0)
    ensures EffStmt(If(Call(Ident(c.done), []), JustBreak, EmptyBlock), sc) == (sc, 0)
  {
    EmptyEffect(sc);
    var sc1 := Push(sc);
    assert EffFrom(JustBreak, 1, sc1) == (sc1, 0);
    assert EffFrom(JustBreak, 0, sc1) == (sc1, 0);
    assert EffBlock(JustBreak, sc) == (sc, 0);
    JoinSelf(sc);
  }

  // --- and as they run ---

  lemma CallTracked(c: Setting, f: bool)
    requires c.Distinct()
    ensures M.TrackExpr(c.v, c.Taken(), Val, f, true) == (true, f)
    ensures M.TrackExpr(c.v, c.Made(), Val, f, false) == (f, false) && M.TrackExpr(c.v, c.Made(), Val, f, true) == (f, false)
    ensures M.TrackExpr(c.v, Call(Ident(c.done), []), Val, f, true) == (f, false)
  {
    var t := c.Taken();
    TakenParts(c);
    assert M.TrackParts(c.v, t, [], true, true) == (true, false);
    assert M.TrackParts(c.v, t, [(Ident(c.v), Val)], f, true) == (true, f);
    assert M.TrackParts(c.v, t, [(Ident(c.take), Val), (Ident(c.v), Val)], f, true) == (true, f);
    OtherCall(c.v, c.make, f, false);
    OtherCall(c.v, c.make, f, true);
    OtherCall(c.v, c.done, f, true);
  }

  lemma OtherCall(v: string, x: string, f: bool, typ: bool)
    requires v != x
    ensures M.TrackExpr(v, Call(Ident(x), []), Val, f, typ) == (f, false)
  {
    CallParts(x);
    var e := Call(Ident(x), []);
    assert M.TrackParts(v, e, [], f, typ) == (f, false);
    assert M.TrackParts(v, e, [(Ident(x), Val)], f, typ) == (f, false);
  }

  lemma EmptyTracked(v: string, f: bool)
    ensures M.TrackBlock(v, EmptyBlock, f, true) == M.Only(f, false)
  {}

  lemma {:induction false} LoopTracked(c: Setting)
    requires c.Distinct()
    ensures M.TrackRounds(c.v, Loop(c.LeakingLoop()), false, true) == M.Exits(Some(true), None, None, false)
  {
    var (b, v) := (c.LeakingLoop(), c.v);
    assert b.stmts[0] == ExprStmt(c.Taken()) && b.stmts[1] == If(Call(Ident(c.done), []), JustBreak, EmptyBlock) && b.stmts[2] == Assign(LName(v), c.Made());
    CallTracked(c, false);
    CallTracked(c, true);
    EmptyTracked(v, true);
    assert JustBreak.stmts[0] == Break;
    assert M.TrackFrom(v, JustBreak, 0, true, true) == M.Exits(None, Some(true), None, false);
    assert M.TrackStmt(v, b.stmts[1], true, true) == M.Exits(Some(true), Some(true), None, false);
    assert M.TrackStmt(v, b.stmts[2], true, true) == M.Only(false, false);
    assert M.TrackFrom(v, b, 3, false, true) == M.Only(false, false);
    assert M.TrackFrom(v, b, 2, true, true) == M.Only(false, false);
    assert M.TrackFrom(v, b, 1, true, true) == M.Exits(Some(false), Some(true), None, false);
    assert M.TrackFrom(v, b, 0, false, true) == M.Exits(Some(false), Some(true), None, false);
    assert M.TrackBlock(v, b, false, true) == M.Exits(Some(false), Some(true), None, false);
    assert M.TrackRound(v, Loop(b), false, true) == M.Exits(Some(false), Some(true), None, false);
    assert !M.HeadFlag(v, Loop(b), false, true);
  }
}
