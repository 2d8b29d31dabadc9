// The checker's move tracking as it runs: a mutable scope stack, a bag of
// diagnostics, and the loop-body fixpoint. Each method is proved against the
// functions of `Moves`.
module MoveChecker {
  import opened Ast
  import opened Moves
  import opened MoveLaws

  class DiagnosticBag {
    var useAfterMove: nat

    constructor ()
      ensures useAfterMove == 0
    {
      useAfterMove := 0;
    }

    method Error()
      modifies this
      ensures useAfterMove == old(useAfterMove) + 1
    {
      useAfterMove := useAfterMove + 1;
    }
  }

  class ScopeStack {
    var scopes: Scopes

    constructor ()
      ensures scopes == [map[]]
    {
      scopes := [map[]];
    }

    method PushScope()
      modifies this
      ensures scopes == Push(old(scopes))
    {
      scopes := scopes + [map[]];
    }

    method PopScope()
      requires scopes != []
      modifies this
      ensures scopes == Pop(old(scopes))
    {
      scopes := scopes[..|scopes| - 1];
    }

    method InsertVar(name: string, info: VarInfo)
      requires scopes != []
      modifies this
      ensures scopes == Insert(old(scopes), name, info)
    {
      var top := |scopes| - 1;
      scopes := scopes[top := scopes[top][name := info]];
    }

    // The innermost scope that binds `name`, searched from the inside out.
    method Lookup(name: string) returns (i: int)
      ensures i == Find(scopes, name)
    {
      i := |scopes| - 1;
      while i >= 0 && name !in scopes[i]
        invariant -1 <= i < |scopes|
        invariant forall k :: i < k < |scopes| ==> name !in scopes[k]
      {
        i := i - 1;
      }
      if i >= 0 && Find(scopes, name) != i { assert false; }
    }

    method SetMovedFlag(name: string, flag: bool)
      modifies this
      ensures scopes == SetMoved(old(scopes), name, flag)
    {
      var i := Lookup(name);
      if i >= 0 {
        scopes := scopes[i := scopes[i][name := scopes[i][name].(moved := flag)]];
      }
    }

    method MergeMoved(other: Scopes)
      modifies this
      ensures scopes == Join(old(scopes), other)
    {
      scopes := Join(scopes, other);
    }
  }

  // Number of moved locals in a snapshot.
  function CountMoved(sc: Scopes): nat {
    if sc == [] then 0 else |MovedIn(sc[0])| + CountMoved(sc[1..])
  }

  function MovedIn(scope: map<string, VarInfo>): set<string> {
    set x | x in scope && scope[x].moved
  }

  lemma SubsetCard(a: set<string>, b: set<string>)
    requires a <= b
    ensures |a| <= |b| && (|a| == |b| ==> a == b)
  {
    assert b == a + (b - a);
    assert |b| == |a| + |b - a|;
  }

  // Comparing counts detects convergence exactly: states that only grow are
  // equal as soon as they have the same number of moved locals.
  lemma {:induction false} SameCountSameState(a: Scopes, b: Scopes)
    requires Below(a, b)
    ensures CountMoved(a) <= CountMoved(b)
    ensures CountMoved(a) == CountMoved(b) <==> a == b
  {
    if a != [] {
      forall x | x in a[0] && a[0][x].moved ensures b[0][x].moved {}
      SubsetCard(MovedIn(a[0]), MovedIn(b[0]));
      SameCountSameState(a[1..], b[1..]);
      if CountMoved(a) == CountMoved(b) {
        forall x | x in a[0] ensures a[0][x] == b[0][x] {
          assert x in MovedIn(a[0]) <==> x in MovedIn(b[0]);
        }
        assert a[0] == b[0];
        assert a == [a[0]] + a[1..] && b == [b[0]] + b[1..];
      }
    }
  }

  method CheckExpr(e: Expr, mode: Mode, scope: ScopeStack, diags: DiagnosticBag)
    modifies scope, diags
    ensures scope.scopes == EffExpr(e, mode, old(scope.scopes)).0
    ensures diags.useAfterMove == old(diags.useAfterMove) + EffExpr(e, mode, old(scope.scopes)).1
    decreases e, 1
  {
    match e
    case Ident(x) =>
      var i := scope.Lookup(x);
      if i >= 0 {
        if scope.scopes[i][x].moved {
          diags.Error();
        } else if mode == Val && scope.scopes[i][x].moves {
          scope.SetMovedFlag(x, true);
        }
      }
    case Group(inner) => CheckExpr(inner, mode, scope, diags);
    case _ => CheckParts(e, Parts(e, mode), scope, diags);
  }

  method CheckParts(whole: Expr, ps: seq<(Expr, Mode)>, scope: ScopeStack, diags: DiagnosticBag)
    requires forall p <- ps :: p.0 < whole
    modifies scope, diags
    ensures scope.scopes == EffParts(whole, ps, old(scope.scopes)).0
    ensures diags.useAfterMove == old(diags.useAfterMove) + EffParts(whole, ps, old(scope.scopes)).1
    decreases whole, 0
  {
    ghost var start, seen := scope.scopes, 0;
    for i := 0 to |ps|
      invariant diags.useAfterMove == old(diags.useAfterMove) + seen
      invariant var rest := EffParts(whole, ps[i..], scope.scopes);
        EffParts(whole, ps, start) == (rest.0, seen + rest.1)
    {
      assert ps[i..][1..] == ps[i + 1..];
      seen := seen + EffExpr(ps[i].0, ps[i].1, scope.scopes).1;
      CheckExpr(ps[i].0, ps[i].1, scope, diags);
    }
  }

  method CheckTarget(ps: seq<(Expr, Mode)>, scope: ScopeStack, diags: DiagnosticBag)
    modifies scope, diags
    ensures scope.scopes == EffTarget(ps, old(scope.scopes)).0
    ensures diags.useAfterMove == old(diags.useAfterMove) + EffTarget(ps, old(scope.scopes)).1
  {
    ghost var start, seen := scope.scopes, 0;
    for i := 0 to |ps|
      invariant diags.useAfterMove == old(diags.useAfterMove) + seen
      invariant var rest := EffTarget(ps[i..], scope.scopes);
        EffTarget(ps, start) == (rest.0, seen + rest.1)
    {
      assert ps[i..][1..] == ps[i + 1..];
      seen := seen + EffExpr(ps[i].0, ps[i].1, scope.scopes).1;
      CheckExpr(ps[i].0, ps[i].1, scope, diags);
    }
  }

  method CheckBlock(b: Block, scope: ScopeStack, diags: DiagnosticBag)
    modifies scope, diags
    ensures scope.scopes == EffBlock(b, old(scope.scopes)).0
    ensures diags.useAfterMove == old(diags.useAfterMove) + EffBlock(b, old(scope.scopes)).1
    decreases b, 0
  {
    scope.PushScope();
    ghost var start, seen := scope.scopes, 0;
    for i := 0 to |b.stmts|
      invariant |scope.scopes| == |start|
      invariant diags.useAfterMove == old(diags.useAfterMove) + seen
      invariant var rest := EffFrom(b, i, scope.scopes);
        EffFrom(b, 0, start) == (rest.0, seen + rest.1)
    {
      seen := seen + EffStmt(b.stmts[i], scope.scopes).1;
      CheckStmt(b.stmts[i], scope, diags);
    }
    if b.trailing.Some? { CheckExpr(b.trailing.value, Val, scope, diags); }
    scope.PopScope();
  }

  method CheckStmt(st: Stmt, scope: ScopeStack, diags: DiagnosticBag)
    requires scope.scopes != []
    modifies scope, diags
    ensures scope.scopes == EffStmt(st, old(scope.scopes)).0
    ensures diags.useAfterMove == old(diags.useAfterMove) + EffStmt(st, old(scope.scopes)).1
    decreases st, 2
  {
    match st
    case VarDecl(x, moves, init) =>
      CheckExpr(init, Val, scope, diags);
      scope.InsertVar(x, VarInfo(moves, false));
    case Assign(lv, value) =>
      CheckExpr(value, Val, scope, diags);
      CheckTarget(TargetParts(lv), scope, diags);
      if lv.LName? { scope.SetMovedFlag(lv.name, false); }
    case CompoundAssign(lv, op, value) =>
      CheckExpr(Binary(lv.ToExpr(), op, value), Val, scope, diags);
      CheckTarget(TargetParts(lv), scope, diags);
      if lv.LName? { scope.SetMovedFlag(lv.name, false); }
    case ExprStmt(e) => CheckExpr(e, Val, scope, diags);
    case If(c, t, e) =>
      CheckExpr(c, Val, scope, diags);
      var before := scope.scopes;
      CheckBlock(t, scope, diags);
      var afterThen := scope.scopes;
      scope.scopes := before;
      CheckBlock(e, scope, diags);
      scope.MergeMoved(afterThen);
    case Loop(b) => CheckLoopBody(b, scope, diags);
    case While(c, b) =>
      CheckExpr(c, Val, scope, diags);
      CheckLoopBody(b, scope, diags);
    case For(x, a, _, z, k, b) =>
      CheckExpr(a, Val, scope, diags);
      CheckExpr(z, Val, scope, diags);
      if k.Some? { CheckExpr(k.value, Val, scope, diags); }
      scope.InsertVar(x, VarInfo(false, false));
      CheckLoopBody(b, scope, diags);
    case Match(e, _) =>
      CheckExpr(e, Val, scope, diags);
      CheckArms(st, scope, diags);
    case Return(e) => if e.Some? { CheckExpr(e.value, Val, scope, diags); }
    case BlockStmt(b) => CheckBlock(b, scope, diags);
    case Claim(_, b) => CheckBlock(b, scope, diags);
    case _ =>
  }

  method CheckArms(st: Stmt, scope: ScopeStack, diags: DiagnosticBag)
    requires st.Match?
    modifies scope, diags
    ensures st.arms == [] ==> scope.scopes == old(scope.scopes) && diags.useAfterMove == old(diags.useAfterMove)
    ensures st.arms != [] ==> scope.scopes == EffArms(st.arms, old(scope.scopes)).0
    ensures st.arms != [] ==> diags.useAfterMove == old(diags.useAfterMove) + EffArms(st.arms, old(scope.scopes)).1
    decreases st, 1
  {
    var before := scope.scopes;
    var merged: Option<Scopes> := None;
    for i := 0 to |st.arms|
      invariant i == 0 ==> merged == None && diags.useAfterMove == old(diags.useAfterMove) && scope.scopes == before
      invariant i > 0 ==> merged == Some(EffArms(st.arms[..i], before).0)
      invariant i > 0 ==> diags.useAfterMove == old(diags.useAfterMove) + EffArms(st.arms[..i], before).1
    {
      assert st.arms[..i + 1][..i] == st.arms[..i];
      scope.scopes := before;
      CheckBlock(st.arms[i].body, scope, diags);
      var after := scope.scopes;
      merged := match merged case None => Some(after) case Some(acc) => Some(Join(acc, after));
    }
    assert st.arms[..|st.arms|] == st.arms;
    if merged.Some? { scope.scopes := merged.value; }
  }

  // Dry passes until the number of moved locals stops growing, then one
  // reporting pass. At most two dry passes are needed, and what they reach is
  // the closed form `LoopEntry`.
  method CheckLoopBody(body: Block, scope: ScopeStack, diags: DiagnosticBag)
    modifies scope, diags
    ensures scope.scopes == EffLoop(body, old(scope.scopes)).0
    ensures diags.useAfterMove == old(diags.useAfterMove) + EffLoop(body, old(scope.scopes)).1
    decreases body, 1
  {
    var entry := scope.scopes;
    ghost var start, passes := entry, 0;
    LoopShape(body, start);
    LoopEntryIsStable(body, start);
    SameCountSameState(start, LoopEntry(body, start));
    while true
      invariant passes <= 1
      invariant entry == if passes == 0 then start else LoopEntry(body, start)
      invariant diags.useAfterMove == old(diags.useAfterMove)
      decreases 2 - passes
    {
      scope.scopes := entry;
      var throwaway := new DiagnosticBag();
      CheckBlock(body, scope, throwaway);
      var prev := CountMoved(entry);
      entry := Join(entry, scope.scopes);
      if CountMoved(entry) == prev { break; }
      passes := passes + 1;
    }
    scope.scopes := entry;
    CheckBlock(body, scope, diags);
    scope.scopes := entry;
  }
}
