// Which contexts each function can run in, and the ceiling each shared static
// therefore needs.
module Ceilings {
  import opened Ast
  import opened Contexts

  datatype Fn = Fn(name: string, context: Context, body: Block)

  // `inits` are the initializers of statics and consts.
  datatype Program = Program(fns: seq<Fn>, inits: seq<Expr>)

  // The signatures in scope. Functions without a body here are externs.
  type Signatures = map<string, Context>

  ghost predicate WellFormed(p: Program, sigs: Signatures) {
    && (forall i, j :: 0 <= i < |p.fns| && 0 <= j < |p.fns| && p.fns[i].name == p.fns[j].name ==> i == j)
    && (forall f <- p.fns :: f.name in sigs && sigs[f.name] == f.context)
  }

  // --- mentions ---

  function OptNames(e: Option<Expr>): set<string> {
    if e.Some? then Names(e.value) else {}
  }

  // Every identifier mentioned in a block, in any position.
  function BlockNames(b: Block): set<string>
    decreases b, |b.stmts| + 1
  {
    NamesUpTo(b, |b.stmts|) + OptNames(b.trailing)
  }

  function NamesUpTo(b: Block, i: nat): set<string>
    requires i <= |b.stmts|
    decreases b, i
  {
    if i == 0 then {} else NamesUpTo(b, i - 1) + StmtNames(b.stmts[i - 1])
  }

  function StmtNames(s: Stmt): set<string>
    decreases s, 0
  {
    match s
    case VarDecl(_, _, init) => Names(init)
    case Assign(lv, v) => LNames(lv) + Names(v)
    case CompoundAssign(lv, _, v) => LNames(lv) + Names(v)
    case ExprStmt(e) => Names(e)
    case If(c, t, e) => Names(c) + BlockNames(t) + BlockNames(e)
    case Loop(b) => BlockNames(b)
    case While(c, b) => Names(c) + BlockNames(b)
    case For(_, a, _, z, k, b) => Names(a) + Names(z) + OptNames(k) + BlockNames(b)
    case Match(e, arms) => Names(e) + ArmNames(s, |arms|)
    case Return(e) => OptNames(e)
    case Break => {}
    case Continue => {}
    case BlockStmt(b) => BlockNames(b)
    case Claim(x, b) => {x} + BlockNames(b)
  }

  function ArmNames(s: Stmt, i: nat): set<string>
    requires s.Match? && i <= |s.arms|
    decreases s, -1, i
  {
    if i == 0 then {} else ArmNames(s, i - 1) + BlockNames(s.arms[i - 1].body)
  }

  // The mention scan: it adds the names it is asked for to one set.
  class Scan {
    const names: set<string>
    var found: set<string>

    constructor (names: set<string>)
      ensures this.names == names && found == {}
    {
      this.names := names;
      found := {};
    }

    method Ident(x: string)
      modifies this
      ensures found == old(found) + {x} * names
    {
      if x in names { found := found + {x}; }
    }

    method ScanExpr(e: Expr)
      modifies this
      ensures found == old(found) + Names(e) * names
      decreases e
    {
      match e
      case IntLit(_) =>
      case BoolLit(_) =>
      case Ident(x) => Ident(x);
      case Unary(_, p) => ScanExpr(p);
      case Binary(l, _, r) => ScanExpr(l); ScanExpr(r);
      case Call(callee, args) => ScanExpr(callee); ScanExprs(args);
      case FieldAccess(b, _) => ScanExpr(b);
      case Index(b, i) => ScanExpr(b); ScanExpr(i);
      case Group(i) => ScanExpr(i);
      case Cast(i, _) => ScanExpr(i);
      case ArrayInit(es) => ScanExprs(es);
      case Build(es) => ScanExprs(es);
    }

    method ScanExprs(es: seq<Expr>)
      modifies this
      ensures found == old(found) + NamesOf(es) * names
      decreases es
    {
      if es != [] {
        ScanExpr(es[0]);
        ScanExprs(es[1..]);
      }
    }

    method ScanLValue(lv: LValue)
      modifies this
      ensures found == old(found) + LNames(lv) * names
      decreases lv
    {
      match lv
      case LName(x) => Ident(x);
      case LField(b, _) => ScanLValue(b);
      case LIndex(b, i) => ScanLValue(b); ScanExpr(i);
      case LDeref(e) => ScanExpr(e);
    }

    method ScanOpt(e: Option<Expr>)
      modifies this
      ensures found == old(found) + OptNames(e) * names
    {
      if e.Some? { ScanExpr(e.value); }
    }

    method ScanBlock(b: Block)
      modifies this
      ensures found == old(found) + BlockNames(b) * names
      decreases b, |b.stmts| + 1
    {
      for i := 0 to |b.stmts|
        invariant found == old(found) + NamesUpTo(b, i) * names
      {
        ScanStmt(b.stmts[i]);
      }
      ScanOpt(b.trailing);
    }

    method ScanStmt(s: Stmt)
      modifies this
      ensures found == old(found) + StmtNames(s) * names
      decreases s, 0
    {
      match s
      case VarDecl(_, _, init) => ScanExpr(init);
      case Assign(lv, v) => ScanLValue(lv); ScanExpr(v);
      case CompoundAssign(lv, _, v) => ScanLValue(lv); ScanExpr(v);
      case ExprStmt(e) => ScanExpr(e);
      case If(c, t, e) => ScanExpr(c); ScanBlock(t); ScanBlock(e);
      case Loop(b) => ScanBlock(b);
      case While(c, b) => ScanExpr(c); ScanBlock(b);
      case For(_, a, _, z, k, b) => ScanExpr(a); ScanExpr(z); ScanOpt(k); ScanBlock(b);
      case Match(e, arms) =>
        ScanExpr(e);
        for i := 0 to |arms|
          invariant found == old(found) + (Names(e) + ArmNames(s, i)) * names
        {
          ScanBlock(arms[i].body);
        }
      case Return(e) => ScanOpt(e);
      case Break =>
      case Continue =>
      case BlockStmt(b) => ScanBlock(b);
      case Claim(x, b) => Ident(x); ScanBlock(b);
    }
  }

  // --- pointer calls ---

  // A call is direct when its callee is the name of a known function.
  predicate DirectCall(e: Expr, fns: set<string>) {
    e.Call? && e.callee.Ident? && e.callee.name in fns
  }

  // Function names used as values: every mention that is neither a direct
  // callee nor an assigned name.
  function Taken(e: Expr, fns: set<string>): set<string>
    decreases e
  {
    match e
    case IntLit(_) => {}
    case BoolLit(_) => {}
    case Ident(x) => {x} * fns
    case Unary(_, p) => Taken(p, fns)
    case Binary(l, _, r) => Taken(l, fns) + Taken(r, fns)
    case Call(callee, args) => (if DirectCall(e, fns) then {} else Taken(callee, fns)) + TakenOf(args, fns)
    case FieldAccess(b, _) => Taken(b, fns)
    case Index(b, i) => Taken(b, fns) + Taken(i, fns)
    case Group(i) => Taken(i, fns)
    case Cast(i, _) => Taken(i, fns)
    case ArrayInit(es) => TakenOf(es, fns)
    case Build(es) => TakenOf(es, fns)
  }

  function TakenOf(es: seq<Expr>, fns: set<string>): set<string>
    decreases es
  {
    if es == [] then {} else Taken(es[0], fns) + TakenOf(es[1..], fns)
  }

  function LTaken(lv: LValue, fns: set<string>): set<string> {
    match lv
    case LName(_) => {}
    case LField(b, _) => LTaken(b, fns)
    case LIndex(b, i) => LTaken(b, fns) + Taken(i, fns)
    case LDeref(e) => Taken(e, fns)
  }

  // Whether an expression holds an indirect call.
  predicate Indirect(e: Expr, fns: set<string>)
    decreases e
  {
    match e
    case IntLit(_) => false
    case BoolLit(_) => false
    case Ident(_) => false
    case Unary(_, p) => Indirect(p, fns)
    case Binary(l, _, r) => Indirect(l, fns) || Indirect(r, fns)
    case Call(_, args) => !DirectCall(e, fns) || exists a <- args :: Indirect(a, fns)
    case FieldAccess(b, _) => Indirect(b, fns)
    case Index(b, i) => Indirect(b, fns) || Indirect(i, fns)
    case Group(i) => Indirect(i, fns)
    case Cast(i, _) => Indirect(i, fns)
    case ArrayInit(es) => exists x <- es :: Indirect(x, fns)
    case Build(es) => exists x <- es :: Indirect(x, fns)
  }

  predicate LIndirect(lv: LValue, fns: set<string>) {
    match lv
    case LName(_) => false
    case LField(b, _) => LIndirect(b, fns)
    case LIndex(b, i) => LIndirect(b, fns) || Indirect(i, fns)
    case LDeref(e) => Indirect(e, fns)
  }

  function OptTaken(e: Option<Expr>, fns: set<string>): set<string> {
    if e.Some? then Taken(e.value, fns) else {}
  }

  predicate OptIndirect(e: Option<Expr>, fns: set<string>) { e.Some? && Indirect(e.value, fns) }

  function BlockTaken(b: Block, fns: set<string>): set<string>
    decreases b, |b.stmts| + 1
  {
    TakenUpTo(b, |b.stmts|, fns) + OptTaken(b.trailing, fns)
  }

  function TakenUpTo(b: Block, i: nat, fns: set<string>): set<string>
    requires i <= |b.stmts|
    decreases b, i
  {
    if i == 0 then {} else TakenUpTo(b, i - 1, fns) + StmtTaken(b.stmts[i - 1], fns)
  }

  function StmtTaken(s: Stmt, fns: set<string>): set<string>
    decreases s, 0
  {
    match s
    case VarDecl(_, _, init) => Taken(init, fns)
    case Assign(lv, v) => LTaken(lv, fns) + Taken(v, fns)
    case CompoundAssign(lv, _, v) => LTaken(lv, fns) + Taken(v, fns)
    case ExprStmt(e) => Taken(e, fns)
    case If(c, t, e) => Taken(c, fns) + BlockTaken(t, fns) + BlockTaken(e, fns)
    case Loop(b) => BlockTaken(b, fns)
    case While(c, b) => Taken(c, fns) + BlockTaken(b, fns)
    case For(_, a, _, z, k, b) => Taken(a, fns) + Taken(z, fns) + OptTaken(k, fns) + BlockTaken(b, fns)
    case Match(e, arms) => Taken(e, fns) + ArmTaken(s, |arms|, fns)
    case Return(e) => OptTaken(e, fns)
    case Break => {}
    case Continue => {}
    case BlockStmt(b) => BlockTaken(b, fns)
    case Claim(_, b) => BlockTaken(b, fns)
  }

  function ArmTaken(s: Stmt, i: nat, fns: set<string>): set<string>
    requires s.Match? && i <= |s.arms|
    decreases s, -1, i
  {
    if i == 0 then {} else ArmTaken(s, i - 1, fns) + BlockTaken(s.arms[i - 1].body, fns)
  }

  predicate BlockIndirect(b: Block, fns: set<string>)
    decreases b, |b.stmts| + 1
  {
    (exists s <- b.stmts :: StmtIndirect(s, fns)) || OptIndirect(b.trailing, fns)
  }

  predicate StmtIndirect(s: Stmt, fns: set<string>)
    decreases s, 0
  {
    match s
    case VarDecl(_, _, init) => Indirect(init, fns)
    case Assign(lv, v) => LIndirect(lv, fns) || Indirect(v, fns)
    case CompoundAssign(lv, _, v) => LIndirect(lv, fns) || Indirect(v, fns)
    case ExprStmt(e) => Indirect(e, fns)
    case If(c, t, e) => Indirect(c, fns) || BlockIndirect(t, fns) || BlockIndirect(e, fns)
    case Loop(b) => BlockIndirect(b, fns)
    case While(c, b) => Indirect(c, fns) || BlockIndirect(b, fns)
    case For(_, a, _, z, k, b) => Indirect(a, fns) || Indirect(z, fns) || OptIndirect(k, fns) || BlockIndirect(b, fns)
    case Match(e, arms) => Indirect(e, fns) || exists arm <- arms :: BlockIndirect(arm.body, fns)
    case Return(e) => OptIndirect(e, fns)
    case Break => false
    case Continue => false
    case BlockStmt(b) => BlockIndirect(b, fns)
    case Claim(_, b) => BlockIndirect(b, fns)
  }

  // The pointer-call walk: names taken are added to one set, an indirect call
  // raises one flag.
  class PointerCalls {
    const fns: set<string>
    var taken: set<string>
    var indirect: bool

    constructor (fns: set<string>)
      ensures this.fns == fns && taken == {} && !indirect
    {
      this.fns := fns;
      taken, indirect := {}, false;
    }

    method WalkExpr(e: Expr)
      modifies this
      ensures taken == old(taken) + Taken(e, fns) && indirect == (old(indirect) || Indirect(e, fns))
      decreases e
    {
      match e
      case IntLit(_) =>
      case BoolLit(_) =>
      case Ident(x) => if x in fns { taken := taken + {x}; }
      case Unary(_, p) => WalkExpr(p);
      case Binary(l, _, r) => WalkExpr(l); WalkExpr(r);
      case Call(callee, args) =>
        if !(callee.Ident? && callee.name in fns) {
          indirect := true;
          WalkExpr(callee);
        }
        WalkExprs(args);
      case FieldAccess(b, _) => WalkExpr(b);
      case Index(b, i) => WalkExpr(b); WalkExpr(i);
      case Group(i) => WalkExpr(i);
      case Cast(i, _) => WalkExpr(i);
      case ArrayInit(es) => WalkExprs(es);
      case Build(es) => WalkExprs(es);
    }

    method WalkExprs(es: seq<Expr>)
      modifies this
      ensures taken == old(taken) + TakenOf(es, fns) && indirect == (old(indirect) || exists x <- es :: Indirect(x, fns))
      decreases es
    {
      if es != [] {
        WalkExpr(es[0]);
        WalkExprs(es[1..]);
        assert es == [es[0]] + es[1..];
      }
    }

    method WalkLValue(lv: LValue)
      modifies this
      ensures taken == old(taken) + LTaken(lv, fns) && indirect == (old(indirect) || LIndirect(lv, fns))
      decreases lv
    {
      match lv
      case LName(_) =>
      case LField(b, _) => WalkLValue(b);
      case LIndex(b, i) => WalkLValue(b); WalkExpr(i);
      case LDeref(e) => WalkExpr(e);
    }

    method WalkOpt(e: Option<Expr>)
      modifies this
      ensures taken == old(taken) + OptTaken(e, fns) && indirect == (old(indirect) || OptIndirect(e, fns))
    {
      if e.Some? { WalkExpr(e.value); }
    }

    method WalkBlock(b: Block)
      modifies this
      ensures taken == old(taken) + BlockTaken(b, fns) && indirect == (old(indirect) || BlockIndirect(b, fns))
      decreases b, |b.stmts| + 1
    {
      for i := 0 to |b.stmts|
        invariant taken == old(taken) + TakenUpTo(b, i, fns)
        invariant indirect == (old(indirect) || exists s <- b.stmts[..i] :: StmtIndirect(s, fns))
      {
        WalkStmt(b.stmts[i]);
        assert b.stmts[..i + 1] == b.stmts[..i] + [b.stmts[i]];
      }
      assert b.stmts[..|b.stmts|] == b.stmts;
      WalkOpt(b.trailing);
    }

    method WalkStmt(s: Stmt)
      modifies this
      ensures taken == old(taken) + StmtTaken(s, fns) && indirect == (old(indirect) || StmtIndirect(s, fns))
      decreases s, 0
    {
      match s
      case VarDecl(_, _, init) => WalkExpr(init);
      case Assign(lv, v) => WalkLValue(lv); WalkExpr(v);
      case CompoundAssign(lv, _, v) => WalkLValue(lv); WalkExpr(v);
      case ExprStmt(e) => WalkExpr(e);
      case If(c, t, e) => WalkExpr(c); WalkBlock(t); WalkBlock(e);
      case Loop(b) => WalkBlock(b);
      case While(c, b) => WalkExpr(c); WalkBlock(b);
      case For(_, a, _, z, k, b) => WalkExpr(a); WalkExpr(z); WalkOpt(k); WalkBlock(b);
      case Match(e, arms) =>
        WalkExpr(e);
        for i := 0 to |arms|
          invariant taken == old(taken) + Taken(e, fns) + ArmTaken(s, i, fns)
          invariant indirect == (old(indirect) || Indirect(e, fns) || exists arm <- arms[..i] :: BlockIndirect(arm.body, fns))
        {
          WalkBlock(arms[i].body);
          assert arms[..i + 1] == arms[..i] + [arms[i]];
        }
        assert arms[..|arms|] == arms;
      case Return(e) => WalkOpt(e);
      case Break =>
      case Continue =>
      case BlockStmt(b) => WalkBlock(b);
      case Claim(_, b) => WalkBlock(b);
    }
  }

  // --- context propagation ---

  // What the propagation works on: mention edges, functions taken as values,
  // functions that call through a pointer.
  datatype Facts = Facts(edges: map<string, set<string>>, taken: set<string>, indirect: set<string>)

  function EdgesOf(fns: seq<Fn>, i: nat, names: set<string>): map<string, set<string>>
    requires i <= |fns|
  {
    if i == 0 then map[] else EdgesOf(fns, i - 1, names)[fns[i - 1].name := BlockNames(fns[i - 1].body) * names]
  }

  function TakenIn(fns: seq<Fn>, i: nat, names: set<string>): set<string>
    requires i <= |fns|
  {
    if i == 0 then {} else TakenIn(fns, i - 1, names) + BlockTaken(fns[i - 1].body, names)
  }

  function IndirectIn(fns: seq<Fn>, i: nat, names: set<string>): set<string>
    requires i <= |fns|
  {
    if i == 0 then {}
    else IndirectIn(fns, i - 1, names) + if BlockIndirect(fns[i - 1].body, names) then {fns[i - 1].name} else {}
  }

  function FactsOf(p: Program, sigs: Signatures): Facts {
    var (n, names) := (|p.fns|, sigs.Keys);
    Facts(EdgesOf(p.fns, n, names), TakenIn(p.fns, n, names) + TakenOf(p.inits, names), IndirectIn(p.fns, n, names))
  }

  // The facts of a program, gathered by the two walks.
  method GatherFacts(p: Program, sigs: Signatures) returns (q: Facts)
    ensures q == FactsOf(p, sigs)
  {
    var names := sigs.Keys;
    var edges: map<string, set<string>> := map[];
    var indirect: set<string> := {};
    var taken: set<string> := {};
    for i := 0 to |p.fns|
      invariant edges == EdgesOf(p.fns, i, names) && taken == TakenIn(p.fns, i, names) && indirect == IndirectIn(p.fns, i, names)
    {
      var f := p.fns[i];
      var scan := new Scan(names);
      scan.ScanBlock(f.body);
      assert scan.found == BlockNames(f.body) * names;
      edges := edges[f.name := scan.found];
      var walk := new PointerCalls(names);
      walk.WalkBlock(f.body);
      assert walk.taken == BlockTaken(f.body, names);
      taken := taken + walk.taken;
      if walk.indirect { indirect := indirect + {f.name}; }
    }
    var walk := new PointerCalls(names);
    walk.WalkExprs(p.inits);
    q := Facts(edges, taken + walk.taken, indirect);
  }

  lemma {:induction false} EdgesAt(fns: seq<Fn>, i: nat, names: set<string>, k: nat)
    requires k < i <= |fns| && forall a, b :: 0 <= a < |fns| && 0 <= b < |fns| && fns[a].name == fns[b].name ==> a == b
    ensures fns[k].name in EdgesOf(fns, i, names) && EdgesOf(fns, i, names)[fns[k].name] == BlockNames(fns[k].body) * names
    decreases i
  {
    if k < i - 1 { EdgesAt(fns, i - 1, names, k); }
  }

  lemma {:induction false} IndirectAt(fns: seq<Fn>, i: nat, names: set<string>, k: nat)
    requires k < i <= |fns|
    ensures BlockIndirect(fns[k].body, names) ==> fns[k].name in IndirectIn(fns, i, names)
    decreases i
  {
    if k < i - 1 { IndirectAt(fns, i - 1, names, k); }
  }

  type Possible = map<string, set<Context>>

  // A run-time call from `f` can enter `g`.
  predicate MayCall(q: Facts, f: string, g: string) {
    (f in q.edges && g in q.edges[f]) || (f in q.indirect && g in q.taken)
  }

  // The rules: a concrete function runs in its own context and no other; an
  // `Any` function runs at least wherever its callers run.
  ghost predicate Solves(sigs: Signatures, q: Facts, m: Possible) {
    && m.Keys == sigs.Keys
    && (forall f <- sigs :: sigs[f] != Any ==> m[f] == {sigs[f]})
    && (forall f <- sigs, g <- sigs :: sigs[g] == Any && MayCall(q, f, g) ==> m[f] <= m[g])
  }

  ghost predicate Below(m: Possible, n: Possible) {
    m.Keys <= n.Keys && forall f <- m :: m[f] <= n[f]
  }

  ghost predicate Least(sigs: Signatures, q: Facts, m: Possible) {
    Solves(sigs, q, m) && forall n :: Solves(sigs, q, n) ==> Below(m, n)
  }

  // The answer does not depend on the order anything is visited in.
  lemma LeastIsUnique(sigs: Signatures, q: Facts, m: Possible, n: Possible)
    requires Least(sigs, q, m) && Least(sigs, q, n)
    ensures m == n
  {
    assert Below(m, n) && Below(n, m);
    forall f | f in m ensures m[f] == n[f] { assert m[f] <= n[f] && n[f] <= m[f]; }
  }

  // --- the loop ---

  function Declared(sigs: Signatures): set<Context> { set f <- sigs :: sigs[f] }

  // The function-context pairs still absent.
  function Missing(sigs: Signatures, m: Possible): set<(string, Context)>
    requires m.Keys == sigs.Keys
  {
    set f <- sigs.Keys, c <- Declared(sigs) | c !in m[f] :: (f, c)
  }

  // A state the loop can be in: no less than the start, no more than any
  // solution, and only contexts that are declared somewhere.
  ghost predicate Sound(sigs: Signatures, q: Facts, m: Possible) {
    && m.Keys == sigs.Keys
    && (forall f <- sigs :: sigs[f] != Any ==> m[f] == {sigs[f]})
    && (forall f <- sigs :: m[f] <= Declared(sigs))
    && (forall n :: Solves(sigs, q, n) ==> Below(m, n))
  }

  ghost predicate Grows(m: Possible, n: Possible, changed: bool) {
    Below(m, n) && (changed <==> m != n) && m.Keys == n.Keys
  }

  lemma GrowingLosesPairs(sigs: Signatures, m: Possible, n: Possible)
    requires m.Keys == sigs.Keys && Grows(m, n, true) && forall f <- sigs :: n[f] <= Declared(sigs)
    ensures Missing(sigs, n) < Missing(sigs, m)
  {
    var f :| f in m && m[f] != n[f];
    var c :| c in n[f] && c !in m[f];
    assert (f, c) in Missing(sigs, m) && (f, c) !in Missing(sigs, n);
  }

  // Contexts that `g` must have in every solution are added to it.
  method Add(sigs: Signatures, q: Facts, ghost m0: Possible, m: Possible, g: string, more: set<Context>, was: bool) returns (n: Possible, changed: bool)
    requires Sound(sigs, q, m) && Grows(m0, m, was) && g in sigs && sigs[g] == Any && more <= Declared(sigs)
    requires forall s :: Solves(sigs, q, s) ==> more <= s[g]
    ensures Sound(sigs, q, n) && Grows(m0, n, changed) && n == m[g := m[g] + more] && (was ==> changed) && (!changed ==> n == m)
  {
    n := m[g := m[g] + more];
    changed := was || !(more <= m[g]);
    forall s | Solves(sigs, q, s) ensures Below(n, s) { assert Below(m, s); }
    if more <= m[g] {
      assert m[g] + more == m[g];
      assert n == m;
    } else {
      var c :| c in more && c !in m[g];
      assert c in n[g] && m0[g] <= m[g];
      assert n != m0;
    }
    if was { GrewStays(m0, m, n); }
  }

  lemma GrewStays(m0: Possible, m: Possible, n: Possible)
    requires Below(m0, m) && Below(m, n) && m0 != m && m0.Keys == m.Keys
    ensures m0 != n
  {
    var f :| f in m && m0[f] != m[f];
    var c :| c in m[f] && c !in m0[f];
    assert c in n[f];
  }

  // Everything a caller runs in, its `Any` callees run in.
  method EdgeRound(sigs: Signatures, q: Facts, m0: Possible) returns (m: Possible, changed: bool)
    requires Sound(sigs, q, m0)
    ensures Sound(sigs, q, m) && Grows(m0, m, changed)
    ensures !changed ==> forall f <- q.edges, g <- q.edges[f] :: f in sigs && g in sigs && sigs[g] == Any ==> m[f] <= m[g]
  {
    m, changed := m0, false;
    var callers := q.edges.Keys;
    while callers != {}
      invariant callers <= q.edges.Keys && Sound(sigs, q, m) && Grows(m0, m, changed)
      invariant !changed ==> forall f <- q.edges.Keys - callers, g <- q.edges[f] :: f in sigs && g in sigs && sigs[g] == Any ==> m[f] <= m[g]
      decreases callers
    {
      var f :| f in callers;
      callers := callers - {f};
      if f in sigs { m, changed := CallerRound(sigs, q, m0, m, f, changed); }
    }
  }

  method CallerRound(sigs: Signatures, q: Facts, ghost m0: Possible, m1: Possible, f: string, was: bool) returns (m: Possible, changed: bool)
    requires Sound(sigs, q, m1) && Grows(m0, m1, was) && f in sigs && f in q.edges
    ensures Sound(sigs, q, m) && Grows(m0, m, changed) && (was ==> changed)
    ensures !changed ==> forall g <- q.edges[f] :: g in sigs && sigs[g] == Any ==> m[f] <= m[g]
  {
    m, changed := m1, was;
    var snapshot := m[f];
    var callees := q.edges[f];
    while callees != {}
      invariant callees <= q.edges[f] && Sound(sigs, q, m) && Grows(m0, m, changed) && (was ==> changed)
      invariant snapshot <= m[f] && (!changed ==> snapshot == m[f])
      invariant !changed ==> forall g <- q.edges[f] - callees :: g in sigs && sigs[g] == Any ==> m[f] <= m[g]
      decreases callees
    {
      var g :| g in callees;
      callees := callees - {g};
      if g in sigs && sigs[g] == Any {
        forall s | Solves(sigs, q, s) ensures snapshot <= s[g] {
          assert Below(m, s) && MayCall(q, f, g);
          assert s[f] <= s[g];
        }
        m, changed := Add(sigs, q, m0, m, g, snapshot, changed);
      }
    }
  }

  // Every function whose address is taken runs wherever pointers are called.
  method PoolRound(sigs: Signatures, q: Facts, ghost m0: Possible, m1: Possible, was: bool) returns (m: Possible, changed: bool)
    requires Sound(sigs, q, m1) && Grows(m0, m1, was)
    ensures Sound(sigs, q, m) && Grows(m0, m, changed) && (was ==> changed)
    ensures !changed ==> forall f <- q.indirect, g <- q.taken :: f in sigs && g in sigs && sigs[g] == Any ==> m[f] <= m[g]
  {
    m, changed := m1, was;
    var pool := GatherPool(sigs, q, m1);
    var todo := q.taken;
    if pool != {} {
      while todo != {}
        invariant todo <= q.taken && Sound(sigs, q, m) && Grows(m0, m, changed) && (was ==> changed)
        invariant !changed ==> m == m1 && forall g <- q.taken - todo :: g in sigs && sigs[g] == Any ==> pool <= m[g]
        decreases todo
      {
        var g :| g in todo;
        todo := todo - {g};
        if g in sigs && sigs[g] == Any {
          forall s | Solves(sigs, q, s) ensures pool <= s[g] { PoolFlows(sigs, q, m1, pool, s, g); }
          m, changed := Add(sigs, q, m0, m, g, pool, changed);
        }
      }
    }
    if !changed { PoolCovers(sigs, q, m, pool); }
  }

  lemma PoolCovers(sigs: Signatures, q: Facts, m: Possible, pool: set<Context>)
    requires m.Keys == sigs.Keys && forall c :: c in pool <==> exists f <- q.indirect :: f in m && c in m[f]
    requires pool != {} ==> forall g <- q.taken :: g in sigs && sigs[g] == Any ==> pool <= m[g]
    ensures forall f <- q.indirect, g <- q.taken :: f in sigs && g in sigs && sigs[g] == Any ==> m[f] <= m[g]
  {
    forall f, g, c | f in q.indirect && g in q.taken && f in sigs && g in sigs && sigs[g] == Any && c in m[f] ensures c in m[g] {
      assert c in pool;
    }
  }

  method GatherPool(sigs: Signatures, q: Facts, m: Possible) returns (pool: set<Context>)
    requires Sound(sigs, q, m)
    ensures forall c :: c in pool <==> exists f <- q.indirect :: f in m && c in m[f]
    ensures pool <= Declared(sigs)
  {
    pool := {};
    var todo := q.indirect;
    while todo != {}
      invariant todo <= q.indirect && pool <= Declared(sigs)
      invariant forall c :: c in pool <==> exists f <- q.indirect - todo :: f in m && c in m[f]
      decreases todo
    {
      var f :| f in todo;
      ghost var done := q.indirect - todo;
      todo := todo - {f};
      assert q.indirect - todo == done + {f};
      if f in m { pool := pool + m[f]; }
    }
    assert q.indirect - todo == q.indirect;
  }

  lemma PoolFlows(sigs: Signatures, q: Facts, m: Possible, pool: set<Context>, s: Possible, g: string)
    requires Sound(sigs, q, m) && Solves(sigs, q, s) && g in q.taken && g in sigs && sigs[g] == Any
    requires forall c :: c in pool ==> exists f <- q.indirect :: f in m && c in m[f]
    ensures pool <= s[g]
  {
    assert Below(m, s);
    forall c | c in pool ensures c in s[g] {
      var f :| f in q.indirect && f in m && c in m[f];
      assert MayCall(q, f, g) && m[f] <= s[f] <= s[g];
    }
  }

  // Rounds until nothing changes. The maps and sets are visited in any order;
  // each round that changes something fills in a missing pair.
  method PropagateContexts(sigs: Signatures, q: Facts) returns (m: Possible)
    ensures Least(sigs, q, m)
  {
    m := map f <- sigs :: if sigs[f] != Any then {sigs[f]} else {};
    forall s | Solves(sigs, q, s) ensures Below(m, s) {}
    var changed := true;
    while changed
      invariant Sound(sigs, q, m) && (!changed ==> Solves(sigs, q, m))
      decreases Missing(sigs, m), changed
    {
      ghost var m0 := m;
      m, changed := EdgeRound(sigs, q, m);
      m, changed := PoolRound(sigs, q, m0, m, changed);
      if changed {
        GrowingLosesPairs(sigs, m0, m);
      } else {
        assert m == m0;
      }
    }
  }

  // --- what the answer means ---

  // A chain of calls from a function declared in context `c` into `f`, through
  // functions of no context of their own.
  ghost predicate Carries(sigs: Signatures, q: Facts, path: seq<string>, c: Context, f: string) {
    && path != [] && path[0] in sigs && sigs[path[0]] == c && c != Any && path[|path| - 1] == f
    && (forall i :: 0 < i < |path| ==> path[i] in sigs && sigs[path[i]] == Any && MayCall(q, path[i - 1], path[i]))
  }

  ghost predicate Carried(sigs: Signatures, q: Facts, c: Context, f: string) {
    exists path :: Carries(sigs, q, path, c, f)
  }

  lemma {:induction false} CarriedIsPossible(sigs: Signatures, q: Facts, m: Possible, path: seq<string>, c: Context, f: string)
    requires Solves(sigs, q, m) && Carries(sigs, q, path, c, f)
    ensures f in sigs && c in m[f]
    decreases |path|
  {
    var n := |path| - 1;
    if n > 0 {
      var front := path[..n];
      assert Carries(sigs, q, front, c, front[n - 1]);
      CarriedIsPossible(sigs, q, m, front, c, path[n - 1]);
      assert MayCall(q, path[n - 1], f);
    }
  }

  lemma CarriedFurther(sigs: Signatures, q: Facts, c: Context, f: string, g: string)
    requires Carried(sigs, q, c, f) && g in sigs && sigs[g] == Any && MayCall(q, f, g)
    ensures Carried(sigs, q, c, g)
  {
    var path :| Carries(sigs, q, path, c, f);
    assert Carries(sigs, q, path + [g], c, g);
  }

  // The propagated set of a function is exactly the contexts some call chain
  // brings to it.
  lemma PossibleIsCarried(sigs: Signatures, q: Facts, m: Possible, c: Context, f: string)
    requires Least(sigs, q, m) && f in sigs
    ensures c in m[f] <==> Carried(sigs, q, c, f)
  {
    if path :| Carries(sigs, q, path, c, f) { CarriedIsPossible(sigs, q, m, path, c, f); }
    // The carried contexts alone solve the rules.
    var n: Possible := map g <- sigs :: set d | d in m[g] && Carried(sigs, q, d, g);
    forall g | g in sigs && sigs[g] != Any ensures n[g] == {sigs[g]} {
      assert Carries(sigs, q, [g], sigs[g], g);
      assert m[g] == {sigs[g]};
    }
    forall g, h | g in sigs && h in sigs && sigs[h] == Any && MayCall(q, g, h) ensures n[g] <= n[h] {
      forall d | d in n[g] ensures d in n[h] { CarriedFurther(sigs, q, d, g, h); }
    }
    assert Solves(sigs, q, n);
    assert Below(m, n);
  }

  // Code that can run only in one context calls no function of another.
  ghost predicate Consistent(sigs: Signatures, q: Facts, m: Possible) {
    m.Keys == sigs.Keys && forall f <- sigs, g <- sigs :: sigs[g] != Any && MayCall(q, f, g) ==> m[f] <= {sigs[g]}
  }

  // On such a graph every chain of calls, through functions of any kind, keeps
  // the context of its root.
  lemma {:induction false} ChainKeepsContext(sigs: Signatures, q: Facts, m: Possible, path: seq<string>)
    requires Solves(sigs, q, m) && Consistent(sigs, q, m)
    requires path != [] && (forall f <- path :: f in sigs) && sigs[path[0]] != Any
    requires forall i :: 0 < i < |path| ==> MayCall(q, path[i - 1], path[i])
    ensures sigs[path[0]] in m[path[|path| - 1]]
    decreases |path|
  {
    var n := |path| - 1;
    if n > 0 {
      ChainKeepsContext(sigs, q, m, path[..n]);
      assert MayCall(q, path[n - 1], path[n]);
    }
  }

  // --- derived ceilings ---

  // Context `c` is one in which some function mentioning the static can run.
  ghost predicate Accessor(p: Program, m: Possible, x: string, c: Context) {
    c != Any && exists f <- p.fns :: x in BlockNames(f.body) && f.name in m && c in m[f.name]
  }

  // `n` is the least level of an accessor, or the thread level if there is none.
  ghost predicate IsCeiling(p: Program, m: Possible, x: string, n: Priority) {
    (forall c :: Accessor(p, m, x, c) ==> n <= c.Level()) && (n == THREAD_LEVEL || exists c :: Accessor(p, m, x, c) && c.Level() == n)
  }

  // The least level among the concrete contexts of a set, if there is one.
  ghost predicate IsLeastLevel(cs: set<Context>, r: Option<Priority>) {
    match r
    case None => forall c <- cs :: c == Any
    case Some(n) => (forall c <- cs :: c != Any ==> n <= c.Level()) && exists c <- cs :: c != Any && c.Level() == n
  }

  method MinLevel(cs: set<Context>) returns (r: Option<Priority>)
    ensures IsLeastLevel(cs, r)
  {
    r := None;
    var todo := cs;
    ghost var done := {};
    while todo != {}
      invariant cs == done + todo && IsLeastLevel(done, r)
      decreases todo
    {
      var c :| c in todo;
      todo := todo - {c};
      done := done + {c};
      if c != Any && (r.None? || c.Level() < r.value) { r := Some(c.Level()); }
    }
    assert cs == done;
  }

  // An accessor among the first `i` functions.
  ghost predicate AccessorUpTo(p: Program, i: nat, m: Possible, x: string, c: Context)
    requires i <= |p.fns|
  {
    c != Any && exists k :: 0 <= k < i && x in BlockNames(p.fns[k].body) && p.fns[k].name in m && c in m[p.fns[k].name]
  }

  ghost predicate CeilingUpTo(p: Program, i: nat, m: Possible, x: string, n: Priority)
    requires i <= |p.fns|
  {
    && (forall c :: AccessorUpTo(p, i, m, x, c) ==> n <= c.Level())
    && (n == THREAD_LEVEL || exists c :: AccessorUpTo(p, i, m, x, c) && c.Level() == n)
  }

  // What function `i` contributes: the least level it can run at, if it
  // mentions the static.
  ghost predicate Contributes(p: Program, i: nat, m: Possible, x: string, low: Option<Priority>)
    requires i < |p.fns|
  {
    var f := p.fns[i];
    if x in BlockNames(f.body) && f.name in m then IsLeastLevel(m[f.name], low) else low.None?
  }

  lemma CeilingStep(p: Program, i: nat, m: Possible, x: string, n: Priority, low: Option<Priority>)
    requires i < |p.fns| && CeilingUpTo(p, i, m, x, n) && Contributes(p, i, m, x, low)
    ensures CeilingUpTo(p, i + 1, m, x, if low.Some? && low.value < n then low.value else n)
  {
    var f := p.fns[i];
    forall c ensures AccessorUpTo(p, i + 1, m, x, c) <==> AccessorUpTo(p, i, m, x, c) || (c != Any && x in BlockNames(f.body) && f.name in m && c in m[f.name]) {}
    if low.Some? && low.value < n {
      var c :| c in m[f.name] && c != Any && c.Level() == low.value;
      assert AccessorUpTo(p, i + 1, m, x, c);
    } else if n != THREAD_LEVEL {
      var c :| AccessorUpTo(p, i, m, x, c) && c.Level() == n;
      assert AccessorUpTo(p, i + 1, m, x, c);
    }
  }

  // Lowers the entries of the mentioned names, in any order.
  method LowerEntries(ceilings: map<string, Priority>, mentioned: set<string>, level: Priority) returns (r: map<string, Priority>)
    requires mentioned <= ceilings.Keys
    ensures r.Keys == ceilings.Keys
    ensures forall x <- r :: r[x] == if x in mentioned && level < ceilings[x] then level else ceilings[x]
  {
    r := ceilings;
    var todo := mentioned;
    while todo != {}
      invariant todo <= mentioned && r.Keys == ceilings.Keys
      invariant forall x <- r :: r[x] == if x in mentioned - todo && level < ceilings[x] then level else ceilings[x]
      decreases todo
    {
      var x :| x in todo;
      todo := todo - {x};
      if level < r[x] { r := r[x := level]; }
    }
  }

  // Starts every ceiling at the thread level and lowers it, function by
  // function, to the least level of a context that function can run in.
  method DeriveSharedCeilings(p: Program, shared: set<string>, m: Possible) returns (ceilings: map<string, Priority>)
    ensures ceilings.Keys == shared
    ensures forall x <- shared :: IsCeiling(p, m, x, ceilings[x])
  {
    ceilings := map x <- shared :: THREAD_LEVEL;
    for i := 0 to |p.fns|
      invariant ceilings.Keys == shared
      invariant forall x <- shared :: CeilingUpTo(p, i, m, x, ceilings[x])
    {
      ceilings := LowerFor(p, i, shared, m, ceilings);
    }
    forall x | x in shared ensures IsCeiling(p, m, x, ceilings[x]) { AllFunctions(p, m, x, ceilings[x]); }
  }

  lemma AllFunctions(p: Program, m: Possible, x: string, n: Priority)
    requires CeilingUpTo(p, |p.fns|, m, x, n)
    ensures IsCeiling(p, m, x, n)
  {
    forall c ensures Accessor(p, m, x, c) <==> AccessorUpTo(p, |p.fns|, m, x, c) {}
  }

  method LowerFor(p: Program, i: nat, shared: set<string>, m: Possible, before: map<string, Priority>) returns (ceilings: map<string, Priority>)
    requires i < |p.fns| && before.Keys == shared && forall x <- shared :: CeilingUpTo(p, i, m, x, before[x])
    ensures ceilings.Keys == shared && forall x <- shared :: CeilingUpTo(p, i + 1, m, x, ceilings[x])
  {
    var f := p.fns[i];
    var low: Option<Priority> := None;
    if f.name in m { low := MinLevel(m[f.name]); }
    var scan := new Scan(shared);
    if low.Some? {
      scan.ScanBlock(f.body);
      ceilings := LowerEntries(before, scan.found, low.value);
    } else {
      ceilings := before;
    }
    forall x | x in shared ensures CeilingUpTo(p, i + 1, m, x, ceilings[x]) {
      CeilingStep(p, i, m, x, before[x], if x in BlockNames(f.body) then low else None);
    }
  }
}
