// The access walk: every use of a static is checked against its storage
// annotations, every direct call against the callee's context.
module Borrow {
  import opened Ast
  import opened Contexts
  import opened Ceilings

  // A ceiling is absent while it is still to be derived.
  datatype Storage = Exclusive(owner: string) | Shared(ceiling: Option<Priority>) | Dma | External | Section | Align

  type Statics = map<string, seq<Storage>>

  datatype Symbols = Symbols(statics: Statics, functions: Signatures, possible: Possible)

  datatype Diag = E401(name: string, fn: string) | E402(name: string, fn: string) | E403(name: string, fn: string) | E404(name: string, fn: string)

  // What the walk stops at, in order.
  datatype Site = Access(name: string) | CallOf(name: string)

  ghost predicate Materialized(statics: Statics) {
    forall x <- statics, a <- statics[x] :: a.Shared? ==> a.ceiling.Some?
  }

  // --- materialization ---

  function Pinned(a: Storage, derived: Priority): Storage {
    if a == Shared(None) then Shared(Some(derived)) else a
  }

  function DerivedFor(x: string, derived: map<string, Priority>): Priority {
    if x in derived then derived[x] else THREAD_LEVEL
  }

  // Bare annotations receive the derived ceiling; pinned ones keep their value.
  method MaterializeCeilings(statics: Statics, derived: map<string, Priority>) returns (r: Statics)
    ensures Materialized(r) && r.Keys == statics.Keys
    ensures forall x <- r :: |r[x]| == |statics[x]|
    ensures forall x <- r, i :: 0 <= i < |r[x]| ==> r[x][i] == Pinned(statics[x][i], DerivedFor(x, derived))
  {
    r := statics;
    var todo := statics.Keys;
    while todo != {}
      invariant todo <= statics.Keys && r.Keys == statics.Keys
      invariant forall x <- r :: |r[x]| == |statics[x]|
      invariant forall x <- r, i :: 0 <= i < |r[x]| ==> r[x][i] == if x in todo then statics[x][i] else Pinned(statics[x][i], DerivedFor(x, derived))
      decreases todo
    {
      var x :| x in todo;
      todo := todo - {x};
      var anns := statics[x];
      for i := 0 to |anns|
        invariant |anns| == |statics[x]|
        invariant forall j :: 0 <= j < |anns| ==> anns[j] == if j < i then Pinned(statics[x][j], DerivedFor(x, derived)) else statics[x][j]
      {
        if anns[i] == Shared(None) { anns := anns[i := Shared(Some(DerivedFor(x, derived)))]; }
      }
      r := r[x := anns];
    }
  }

  // --- the walk ---

  function ExprSites(e: Expr): seq<Site>
    decreases e
  {
    match e
    case IntLit(_) => []
    case BoolLit(_) => []
    case Ident(x) => [Access(x)]
    case Unary(_, p) => ExprSites(p)
    case Binary(l, _, r) => ExprSites(l) + ExprSites(r)
    // The callee itself is not an access.
    case Call(callee, args) => (if callee.Ident? then [CallOf(callee.name)] else []) + SitesOf(args)
    case FieldAccess(b, _) => ExprSites(b)
    case Index(b, i) => ExprSites(b) + ExprSites(i)
    case Group(i) => ExprSites(i)
    case Cast(i, _) => ExprSites(i)
    case ArrayInit(es) => SitesOf(es)
    case Build(es) => SitesOf(es)
  }

  function SitesOf(es: seq<Expr>): seq<Site>
    decreases es
  {
    if es == [] then [] else ExprSites(es[0]) + SitesOf(es[1..])
  }

  function OptSites(e: Option<Expr>): seq<Site> {
    if e.Some? then ExprSites(e.value) else []
  }

  function LSites(lv: LValue): seq<Site> {
    match lv
    case LName(x) => [Access(x)]
    case LField(b, _) => LSites(b)
    case LIndex(b, i) => LSites(b) + ExprSites(i)
    case LDeref(e) => ExprSites(e)
  }

  function BlockSites(b: Block): seq<Site>
    decreases b, |b.stmts| + 1
  {
    SitesUpTo(b, |b.stmts|) + OptSites(b.trailing)
  }

  function SitesUpTo(b: Block, i: nat): seq<Site>
    requires i <= |b.stmts|
    decreases b, i
  {
    if i == 0 then [] else SitesUpTo(b, i - 1) + StmtSites(b.stmts[i - 1])
  }

  function StmtSites(s: Stmt): seq<Site>
    decreases s, 0
  {
    match s
    case VarDecl(_, _, init) => ExprSites(init)
    case Assign(lv, v) => LSites(lv) + ExprSites(v)
    case CompoundAssign(lv, _, v) => LSites(lv) + ExprSites(v)
    case ExprStmt(e) => ExprSites(e)
    case If(c, t, e) => ExprSites(c) + BlockSites(t) + BlockSites(e)
    case Loop(b) => BlockSites(b)
    case While(c, b) => ExprSites(c) + BlockSites(b)
    case For(_, a, _, z, k, b) => ExprSites(a) + ExprSites(z) + OptSites(k) + BlockSites(b)
    case Match(e, arms) => ExprSites(e) + ArmSites(s, |arms|)
    case Return(e) => OptSites(e)
    case Break => []
    case Continue => []
    case BlockStmt(b) => BlockSites(b)
    case Claim(x, b) => [Access(x)] + BlockSites(b)
  }

  function ArmSites(s: Stmt, i: nat): seq<Site>
    requires s.Match? && i <= |s.arms|
    decreases s, -1, i
  {
    if i == 0 then [] else ArmSites(s, i - 1) + BlockSites(s.arms[i - 1].body)
  }

  // --- callees ---

  // The names mentioned in callee position, which the walk passes over.
  function Callees(e: Expr): set<string>
    decreases e
  {
    match e
    case Unary(_, p) => Callees(p)
    case Binary(l, _, r) => Callees(l) + Callees(r)
    case Call(callee, args) => Names(callee) + CalleesOf(args)
    case FieldAccess(b, _) => Callees(b)
    case Index(b, i) => Callees(b) + Callees(i)
    case Group(i) => Callees(i)
    case Cast(i, _) => Callees(i)
    case ArrayInit(es) => CalleesOf(es)
    case Build(es) => CalleesOf(es)
    case _ => {}
  }

  function CalleesOf(es: seq<Expr>): set<string>
    decreases es
  {
    if es == [] then {} else Callees(es[0]) + CalleesOf(es[1..])
  }

  function OptCallees(e: Option<Expr>): set<string> {
    if e.Some? then Callees(e.value) else {}
  }

  function LCallees(lv: LValue): set<string> {
    match lv
    case LName(_) => {}
    case LField(b, _) => LCallees(b)
    case LIndex(b, i) => LCallees(b) + Callees(i)
    case LDeref(e) => Callees(e)
  }

  function BlockCallees(b: Block): set<string>
    decreases b, |b.stmts| + 1
  {
    CalleesUpTo(b, |b.stmts|) + OptCallees(b.trailing)
  }

  function CalleesUpTo(b: Block, i: nat): set<string>
    requires i <= |b.stmts|
    decreases b, i
  {
    if i == 0 then {} else CalleesUpTo(b, i - 1) + StmtCallees(b.stmts[i - 1])
  }

  function StmtCallees(s: Stmt): set<string>
    decreases s, 0
  {
    match s
    case VarDecl(_, _, init) => Callees(init)
    case Assign(lv, v) => LCallees(lv) + Callees(v)
    case CompoundAssign(lv, _, v) => LCallees(lv) + Callees(v)
    case ExprStmt(e) => Callees(e)
    case If(c, t, e) => Callees(c) + BlockCallees(t) + BlockCallees(e)
    case Loop(b) => BlockCallees(b)
    case While(c, b) => Callees(c) + BlockCallees(b)
    case For(_, a, _, z, k, b) => Callees(a) + Callees(z) + OptCallees(k) + BlockCallees(b)
    case Match(e, arms) => Callees(e) + ArmCallees(s, |arms|)
    case Return(e) => OptCallees(e)
    case Break => {}
    case Continue => {}
    case BlockStmt(b) => BlockCallees(b)
    case Claim(_, b) => BlockCallees(b)
  }

  function ArmCallees(s: Stmt, i: nat): set<string>
    requires s.Match? && i <= |s.arms|
    decreases s, -1, i
  {
    if i == 0 then {} else ArmCallees(s, i - 1) + BlockCallees(s.arms[i - 1].body)
  }

  // --- the verdicts ---

  // The interrupt contexts a body can run in: its own, or those its callers
  // bring to it.
  function IsrContexts(fn: string, ctx: Context, m: Possible): set<Context> {
    match ctx
    case Isr(_) => {ctx}
    case Any => if fn in m then set c <- m[fn] | c.Isr? else {}
    case Thread => {}
  }

  // What one annotation has against an access.
  function Against(a: Storage, x: string, fn: string, ctx: Context, isrs: set<Context>): seq<Diag> {
    match a
    case Exclusive(owner) => if owner != fn then [E401(x, fn)] else []
    case Shared(Some(n)) => if !ctx.CanAccess(n) || (exists c <- isrs :: !c.CanAccess(n)) then [E402(x, fn)] else []
    case _ => []
  }

  function AllAgainst(anns: seq<Storage>, i: nat, x: string, fn: string, ctx: Context, isrs: set<Context>): seq<Diag>
    requires i <= |anns|
  {
    if i == 0 then [] else AllAgainst(anns, i - 1, x, fn, ctx, isrs) + Against(anns[i - 1], x, fn, ctx, isrs)
  }

  function AccessVerdict(x: string, fn: string, ctx: Context, sy: Symbols): seq<Diag> {
    if x !in sy.statics then []
    else
      var isrs := IsrContexts(fn, ctx, sy.possible);
      if sy.statics[x] == [] && isrs != {} then [E404(x, fn)]
      else AllAgainst(sy.statics[x], |sy.statics[x]|, x, fn, ctx, isrs)
  }

  // A thread function may not be called from an interrupt, nor an interrupt
  // handler from a thread. Nothing else is refused.
  predicate CallRefused(callee: Context, ctx: Context) {
    (callee == Thread && ctx.Isr?) || (callee.Isr? && ctx == Thread)
  }

  function Verdict(site: Site, fn: string, ctx: Context, sy: Symbols): seq<Diag> {
    match site
    case Access(x) => AccessVerdict(x, fn, ctx, sy)
    case CallOf(g) => if g in sy.functions && CallRefused(sy.functions[g], ctx) then [E403(g, fn)] else []
  }

  function Judge(fn: string, ctx: Context, sy: Symbols): Site -> seq<Diag> {
    site => Verdict(site, fn, ctx, sy)
  }

  // The verdicts of a run of sites, in order.
  function Flat(sites: seq<Site>, judge: Site -> seq<Diag>): seq<Diag> {
    if sites == [] then [] else Flat(sites[..|sites| - 1], judge) + judge(sites[|sites| - 1])
  }

  function Report(sites: seq<Site>, fn: string, ctx: Context, sy: Symbols): seq<Diag> {
    Flat(sites, Judge(fn, ctx, sy))
  }

  lemma OneVerdict(site: Site, fn: string, ctx: Context, sy: Symbols)
    ensures Report([site], fn, ctx, sy) == Verdict(site, fn, ctx, sy)
  {
    assert [site][..0] == [];
    assert Flat([site], Judge(fn, ctx, sy)) == [] + Judge(fn, ctx, sy)(site);
  }

  lemma {:induction false} FlatConcat(a: seq<Site>, b: seq<Site>, judge: Site -> seq<Diag>)
    ensures Flat(a + b, judge) == Flat(a, judge) + Flat(b, judge)
    decreases b
  {
    if b == [] {
      assert a + b == a;
    } else {
      var n := |b| - 1;
      FlatConcat(a, b[..n], judge);
      assert (a + b)[..|a + b| - 1] == a + b[..n] && (a + b)[|a + b| - 1] == b[n];
      assert Flat(a + b, judge) == Flat(a + b[..n], judge) + judge(b[n]);
      assert Flat(b, judge) == Flat(b[..n], judge) + judge(b[n]);
    }
  }

  lemma {:induction false} FlatAt(sites: seq<Site>, judge: Site -> seq<Diag>, d: Diag)
    ensures d in Flat(sites, judge) <==> exists site <- sites :: d in judge(site)
    decreases sites
  {
    if sites != [] {
      var n := |sites| - 1;
      FlatAt(sites[..n], judge, d);
      assert sites == sites[..n] + [sites[n]];
    }
  }

  // The pass over one function body, appending to one bag of diagnostics.
  class BorrowChecker {
    const fn: string
    const ctx: Context
    const sy: Symbols
    var diags: seq<Diag>

    constructor (fn: string, ctx: Context, sy: Symbols, diags: seq<Diag>)
      ensures this.fn == fn && this.ctx == ctx && this.sy == sy && this.diags == diags
    {
      this.fn, this.ctx, this.sy, this.diags := fn, ctx, sy, diags;
    }

    ghost predicate Appended(before: seq<Diag>, sites: seq<Site>)
      reads this
    {
      diags == before + Report(sites, fn, ctx, sy)
    }

    lemma Then(before: seq<Diag>, middle: seq<Diag>, a: seq<Site>, b: seq<Site>)
      requires middle == before + Report(a, fn, ctx, sy) && Appended(middle, b)
      ensures Appended(before, a + b)
    {
      FlatConcat(a, b, Judge(fn, ctx, sy));
    }

    method StaticAccess(x: string)
      requires Materialized(sy.statics)
      modifies this
      ensures Appended(old(diags), [Access(x)])
    {
      OneVerdict(Access(x), fn, ctx, sy);
      if x in sy.statics {
        var isrs := IsrContexts(fn, ctx, sy.possible);
        var anns := sy.statics[x];
        if anns == [] && isrs != {} {
          diags := diags + [E404(x, fn)];
          return;
        }
        for i := 0 to |anns|
          invariant diags == old(diags) + AllAgainst(anns, i, x, fn, ctx, isrs)
        {
          diags := diags + Against(anns[i], x, fn, ctx, isrs);
        }
      }
    }

    method CallSite(g: string)
      modifies this
      ensures Appended(old(diags), [CallOf(g)])
    {
      OneVerdict(CallOf(g), fn, ctx, sy);
      if g in sy.functions && CallRefused(sy.functions[g], ctx) { diags := diags + [E403(g, fn)]; }
    }

    method CheckExpr(e: Expr)
      requires Materialized(sy.statics)
      modifies this
      ensures Appended(old(diags), ExprSites(e))
      decreases e
    {
      ghost var d0 := diags;
      match e
      case IntLit(_) =>
      case BoolLit(_) =>
      case Ident(x) => StaticAccess(x);
      case Unary(_, p) => CheckExpr(p);
      case Binary(l, _, r) =>
        CheckExpr(l);
        ghost var d1 := diags;
        CheckExpr(r);
        Then(d0, d1, ExprSites(l), ExprSites(r));
      case Call(callee, args) =>
        if callee.Ident? { CallSite(callee.name); }
        ghost var d1 := diags;
        CheckExprs(args);
        Then(d0, d1, if callee.Ident? then [CallOf(callee.name)] else [], SitesOf(args));
      case FieldAccess(b, _) => CheckExpr(b);
      case Index(b, i) =>
        CheckExpr(b);
        ghost var d1 := diags;
        CheckExpr(i);
        Then(d0, d1, ExprSites(b), ExprSites(i));
      case Group(i) => CheckExpr(i);
      case Cast(i, _) => CheckExpr(i);
      case ArrayInit(es) => CheckExprs(es);
      case Build(es) => CheckExprs(es);
    }

    method CheckExprs(es: seq<Expr>)
      requires Materialized(sy.statics)
      modifies this
      ensures Appended(old(diags), SitesOf(es))
      decreases es
    {
      if es != [] {
        CheckExpr(es[0]);
        ghost var d1 := diags;
        CheckExprs(es[1..]);
        Then(old(diags), d1, ExprSites(es[0]), SitesOf(es[1..]));
      }
    }

    method CheckOpt(e: Option<Expr>)
      requires Materialized(sy.statics)
      modifies this
      ensures Appended(old(diags), OptSites(e))
    {
      if e.Some? { CheckExpr(e.value); }
    }

    method CheckLValue(lv: LValue)
      requires Materialized(sy.statics)
      modifies this
      ensures Appended(old(diags), LSites(lv))
      decreases lv
    {
      match lv
      case LName(x) => StaticAccess(x);
      case LField(b, _) => CheckLValue(b);
      case LIndex(b, i) =>
        CheckLValue(b);
        ghost var d1 := diags;
        CheckExpr(i);
        Then(old(diags), d1, LSites(b), ExprSites(i));
      case LDeref(e) => CheckExpr(e);
    }

    method CheckBlock(b: Block)
      requires Materialized(sy.statics)
      modifies this
      ensures Appended(old(diags), BlockSites(b))
      decreases b, |b.stmts| + 1
    {
      for i := 0 to |b.stmts|
        invariant Appended(old(diags), SitesUpTo(b, i))
      {
        ghost var d1 := diags;
        CheckStmt(b.stmts[i]);
        Then(old(diags), d1, SitesUpTo(b, i), StmtSites(b.stmts[i]));
      }
      ghost var d1 := diags;
      CheckOpt(b.trailing);
      Then(old(diags), d1, SitesUpTo(b, |b.stmts|), OptSites(b.trailing));
    }

    method CheckStmt(s: Stmt)
      requires Materialized(sy.statics)
      modifies this
      ensures Appended(old(diags), StmtSites(s))
      decreases s, 1
    {
      ghost var d0 := diags;
      match s
      case VarDecl(_, _, init) => CheckExpr(init);
      case Assign(lv, v) =>
        CheckLValue(lv);
        ghost var d1 := diags;
        CheckExpr(v);
        Then(d0, d1, LSites(lv), ExprSites(v));
      case CompoundAssign(lv, _, v) =>
        CheckLValue(lv);
        ghost var d1 := diags;
        CheckExpr(v);
        Then(d0, d1, LSites(lv), ExprSites(v));
      case ExprStmt(e) => CheckExpr(e);
      case If(c, t, e) =>
        CheckExpr(c);
        ghost var d1 := diags;
        CheckBlock(t);
        Then(d0, d1, ExprSites(c), BlockSites(t));
        ghost var d2 := diags;
        CheckBlock(e);
        Then(d0, d2, ExprSites(c) + BlockSites(t), BlockSites(e));
      case Loop(b) => CheckBlock(b);
      case While(c, b) =>
        CheckExpr(c);
        ghost var d1 := diags;
        CheckBlock(b);
        Then(d0, d1, ExprSites(c), BlockSites(b));
      case For(_, _, _, _, _, _) => CheckFor(s);
      case Match(_, _) => CheckMatch(s);
      case Return(e) => CheckOpt(e);
      case Break =>
      case Continue =>
      case BlockStmt(b) => CheckBlock(b);
      case Claim(x, b) =>
        StaticAccess(x);
        ghost var d1 := diags;
        CheckBlock(b);
        Then(d0, d1, [Access(x)], BlockSites(b));
    }

    method CheckFor(s: Stmt)
      requires Materialized(sy.statics) && s.For?
      modifies this
      ensures Appended(old(diags), StmtSites(s))
      decreases s, 0
    {
      ghost var d0 := diags;
      CheckExpr(s.start);
      ghost var d1 := diags;
      CheckExpr(s.end);
      Then(d0, d1, ExprSites(s.start), ExprSites(s.end));
      ghost var d2 := diags;
      CheckOpt(s.step);
      Then(d0, d2, ExprSites(s.start) + ExprSites(s.end), OptSites(s.step));
      ghost var d3 := diags;
      CheckBlock(s.body);
      Then(d0, d3, ExprSites(s.start) + ExprSites(s.end) + OptSites(s.step), BlockSites(s.body));
    }

    method CheckMatch(s: Stmt)
      requires Materialized(sy.statics) && s.Match?
      modifies this
      ensures Appended(old(diags), StmtSites(s))
      decreases s, 0
    {
      CheckExpr(s.scrutinee);
      ghost var d0 := diags;
      for i := 0 to |s.arms|
        invariant Appended(d0, ArmSites(s, i))
      {
        ghost var d1 := diags;
        CheckBlock(s.arms[i].body);
        Then(d0, d1, ArmSites(s, i), BlockSites(s.arms[i].body));
      }
      Then(old(diags), d0, ExprSites(s.scrutinee), ArmSites(s, |s.arms|));
    }
  }

  // --- what the walk visits of what is mentioned ---

  lemma {:induction false} ExprMention(e: Expr, x: string)
    ensures x in Names(e) <==> Access(x) in ExprSites(e) || x in Callees(e)
    decreases e
  {
    match e
    case Unary(_, p) => ExprMention(p, x);
    case Binary(l, _, r) => ExprMention(l, x); ExprMention(r, x);
    case Call(_, args) => MentionsOf(args, x);
    case FieldAccess(b, _) => ExprMention(b, x);
    case Index(b, i) => ExprMention(b, x); ExprMention(i, x);
    case Group(i) => ExprMention(i, x);
    case Cast(i, _) => ExprMention(i, x);
    case ArrayInit(es) => MentionsOf(es, x);
    case Build(es) => MentionsOf(es, x);
    case _ =>
  }

  lemma {:induction false} MentionsOf(es: seq<Expr>, x: string)
    ensures x in NamesOf(es) <==> Access(x) in SitesOf(es) || x in CalleesOf(es)
    decreases es
  {
    if es != [] {
      ExprMention(es[0], x);
      MentionsOf(es[1..], x);
    }
  }

  lemma OptMention(e: Option<Expr>, x: string)
    ensures x in OptNames(e) <==> Access(x) in OptSites(e) || x in OptCallees(e)
  {
    if e.Some? { ExprMention(e.value, x); }
  }

  lemma {:induction false} LMention(lv: LValue, x: string)
    ensures x in LNames(lv) <==> Access(x) in LSites(lv) || x in LCallees(lv)
    decreases lv
  {
    match lv
    case LField(b, _) => LMention(b, x);
    case LIndex(b, i) => LMention(b, x); ExprMention(i, x);
    case LDeref(e) => ExprMention(e, x);
    case LName(_) =>
  }

  // A mention is an access the walk visits, or stands in a callee.
  lemma {:induction false} MentionedExactly(b: Block, x: string)
    ensures x in BlockNames(b) <==> Access(x) in BlockSites(b) || x in BlockCallees(b)
    decreases b, |b.stmts| + 1
  {
    MentionUpTo(b, |b.stmts|, x);
    OptMention(b.trailing, x);
  }

  lemma {:induction false} MentionUpTo(b: Block, i: nat, x: string)
    requires i <= |b.stmts|
    ensures x in NamesUpTo(b, i) <==> Access(x) in SitesUpTo(b, i) || x in CalleesUpTo(b, i)
    decreases b, i
  {
    if i > 0 {
      MentionUpTo(b, i - 1, x);
      StmtMention(b.stmts[i - 1], x);
    }
  }

  lemma {:induction false} StmtMention(s: Stmt, x: string)
    ensures x in StmtNames(s) <==> Access(x) in StmtSites(s) || x in StmtCallees(s)
    decreases s, 0
  {
    match s
    case VarDecl(_, _, init) => ExprMention(init, x);
    case Assign(lv, v) => LMention(lv, x); ExprMention(v, x);
    case CompoundAssign(lv, _, v) => LMention(lv, x); ExprMention(v, x);
    case ExprStmt(e) => ExprMention(e, x);
    case If(c, t, e) => ExprMention(c, x); MentionedExactly(t, x); MentionedExactly(e, x);
    case Loop(b) => MentionedExactly(b, x);
    case While(c, b) => ExprMention(c, x); MentionedExactly(b, x);
    case For(_, a, _, z, k, b) => ExprMention(a, x); ExprMention(z, x); OptMention(k, x); MentionedExactly(b, x);
    case Match(e, arms) => ExprMention(e, x); ArmMention(s, |arms|, x);
    case Return(e) => OptMention(e, x);
    case BlockStmt(b) => MentionedExactly(b, x);
    case Claim(_, b) => MentionedExactly(b, x);
    case _ =>
  }

  lemma {:induction false} ArmMention(s: Stmt, i: nat, x: string)
    requires s.Match? && i <= |s.arms|
    ensures x in ArmNames(s, i) <==> Access(x) in ArmSites(s, i) || x in ArmCallees(s, i)
    decreases s, -1, i
  {
    if i > 0 {
      ArmMention(s, i - 1, x);
      MentionedExactly(s.arms[i - 1].body, x);
    }
  }

  lemma {:induction false} AgainstAt(anns: seq<Storage>, i: nat, x: string, fn: string, ctx: Context, isrs: set<Context>, d: Diag)
    requires i <= |anns|
    ensures d in AllAgainst(anns, i, x, fn, ctx, isrs) <==> exists a <- anns[..i] :: d in Against(a, x, fn, ctx, isrs)
    decreases i
  {
    if i > 0 {
      AgainstAt(anns, i - 1, x, fn, ctx, isrs, d);
      assert anns[..i] == anns[..i - 1] + [anns[i - 1]];
    }
  }

  // --- which mentions are reported ---

  // E402 is reported for `x` in `f` exactly when `f` accesses `x` at a visited
  // site and can run in an interrupt that outranks one of its ceilings.
  lemma {:induction false} OutrankedExactly(b: Block, x: string, fn: string, ctx: Context, sy: Symbols)
    requires Materialized(sy.statics) && x in sy.statics
    ensures E402(x, fn) in Report(BlockSites(b), fn, ctx, sy) <==>
      Access(x) in BlockSites(b)
      && exists a <- sy.statics[x], c <- IsrContexts(fn, ctx, sy.possible) :: a.Shared? && !c.CanAccess(a.ceiling.value)
  {
    FlatAt(BlockSites(b), Judge(fn, ctx, sy), E402(x, fn));
    forall site | site in BlockSites(b) ensures E402(x, fn) in Judge(fn, ctx, sy)(site) <==> site == Access(x) && E402(x, fn) in AccessVerdict(x, fn, ctx, sy) {
      OnlyItsOwnSite(site, x, fn, ctx, sy);
    }
    AccessOutranked(x, fn, ctx, sy);
  }

  lemma {:induction false} AccessOutranked(x: string, fn: string, ctx: Context, sy: Symbols)
    requires Materialized(sy.statics) && x in sy.statics
    ensures E402(x, fn) in AccessVerdict(x, fn, ctx, sy)
      <==> exists a <- sy.statics[x], c <- IsrContexts(fn, ctx, sy.possible) :: a.Shared? && !c.CanAccess(a.ceiling.value)
  {
    var isrs, anns, d := IsrContexts(fn, ctx, sy.possible), sy.statics[x], E402(x, fn);
    AgainstAt(anns, |anns|, x, fn, ctx, isrs, d);
    assert anns[..|anns|] == anns;
    forall a | a in anns ensures d in Against(a, x, fn, ctx, isrs) <==> a.Shared? && exists c <- isrs :: !c.CanAccess(a.ceiling.value) {}
  }

  lemma {:induction false} OnlyItsOwnSite(site: Site, x: string, fn: string, ctx: Context, sy: Symbols)
    ensures E402(x, fn) in Verdict(site, fn, ctx, sy) <==> site == Access(x) && E402(x, fn) in AccessVerdict(x, fn, ctx, sy)
  {
    if site.Access? && site.name in sy.statics {
      var anns := sy.statics[site.name];
      AgainstAt(anns, |anns|, site.name, fn, ctx, IsrContexts(fn, ctx, sy.possible), E402(x, fn));
    }
  }

  // The table the resolver leaves: propagated contexts, and derived ceilings
  // wherever `@shared` was bare.
  ghost predicate Resolved(p: Program, sigs: Signatures, sy: Symbols, bare: set<string>) {
    && WellFormed(p, sigs) && sy.functions == sigs && Least(sigs, FactsOf(p, sigs), sy.possible) && Materialized(sy.statics)
    && forall x <- bare :: x in sy.statics && forall a <- sy.statics[x] :: a.Shared? ==> IsCeiling(p, sy.possible, x, a.ceiling.value)
  }

  // A derived ceiling is never outranked.
  lemma {:induction false} DerivedCeilingAccepts(p: Program, sigs: Signatures, sy: Symbols, bare: set<string>, f: Fn, x: string)
    requires Resolved(p, sigs, sy, bare) && x in bare && f in p.fns
    ensures E402(x, f.name) !in Report(BlockSites(f.body), f.name, f.context, sy)
  {
    OutrankedExactly(f.body, x, f.name, f.context, sy);
    MentionedExactly(f.body, x);
    if Access(x) in BlockSites(f.body) {
      forall a, c | a in sy.statics[x] && a.Shared? && c in IsrContexts(f.name, f.context, sy.possible) ensures c.CanAccess(a.ceiling.value) {
        assert c in sy.possible[f.name];
        assert Accessor(p, sy.possible, x, c);
      }
    }
  }

  // Nor could it be raised: where the least level is that of an interrupt that
  // accesses the static at a visited site, every larger pin rejects that access.
  lemma {:induction false} LargerPinRejects(p: Program, sigs: Signatures, sy: Symbols, f: Fn, x: string, n: Priority, pin: Priority)
    requires Resolved(p, sigs, sy, {}) && f in p.fns && x in sy.statics && Shared(Some(pin)) in sy.statics[x]
    requires IsCeiling(p, sy.possible, x, n) && Isr(n) in sy.possible[f.name] && Access(x) in BlockSites(f.body) && pin > n
    ensures E402(x, f.name) in Report(BlockSites(f.body), f.name, f.context, sy)
  {
    OutrankedExactly(f.body, x, f.name, f.context, sy);
    assert Isr(n) in IsrContexts(f.name, f.context, sy.possible);
    assert !Isr(n).CanAccess(pin);
  }

  // What the walk lets through: a mention of a static that the function outranks
  // goes unreported exactly when it stands in callees and nowhere else.
  lemma {:induction false} EscapesExactly(b: Block, x: string, fn: string, ctx: Context, sy: Symbols, a: Storage, c: Context)
    requires Materialized(sy.statics) && x in sy.statics && a in sy.statics[x] && a.Shared?
    requires c in IsrContexts(fn, ctx, sy.possible) && !c.CanAccess(a.ceiling.value)
    ensures x in BlockNames(b) && E402(x, fn) !in Report(BlockSites(b), fn, ctx, sy) <==> x in BlockCallees(b) && Access(x) !in BlockSites(b)
  {
    OutrankedExactly(b, x, fn, ctx, sy);
    MentionedExactly(b, x);
  }

  // Such a mention: a handler that calls through a static it outranks is not
  // reported at all, and one that only reads it is.
  lemma {:induction false} CalleeIsNotChecked(x: string, fn: string, p: Priority, n: Priority, sy: Symbols)
    requires Materialized(sy.statics) && x in sy.statics && Shared(Some(n)) in sy.statics[x] && p < n && x !in sy.functions
    ensures var b := Block([ExprStmt(Call(Ident(x), []))], None);
      x in BlockNames(b) && Report(BlockSites(b), fn, Isr(p), sy) == []
    ensures var b := Block([ExprStmt(Ident(x))], None);
      E402(x, fn) in Report(BlockSites(b), fn, Isr(p), sy)
  {
    var called := OneStmt(Call(Ident(x), []));
    var read := OneStmt(Ident(x));
    assert Names(Call(Ident(x), [])) == Names(Ident(x)) + NamesOf([]);
    assert ExprSites(Call(Ident(x), [])) == [CallOf(x)] + SitesOf([]);
    assert BlockSites(called) == [CallOf(x)];
    OneVerdict(CallOf(x), fn, Isr(p), sy);
    assert BlockSites(read) == [Access(x)];
    OutrankedExactly(read, x, fn, Isr(p), sy);
    assert !Isr(p).CanAccess(n);
  }

  lemma OneStmt(e: Expr) returns (b: Block)
    ensures b == Block([ExprStmt(e)], None) && BlockNames(b) == Names(e) && BlockSites(b) == ExprSites(e)
  {
    b := Block([ExprStmt(e)], None);
    assert b.stmts[0] == ExprStmt(e);
    assert NamesUpTo(b, 1) == NamesUpTo(b, 0) + StmtNames(b.stmts[0]);
    assert SitesUpTo(b, 1) == SitesUpTo(b, 0) + StmtSites(b.stmts[0]);
    assert [] + ExprSites(e) == ExprSites(e);
  }

  // What the call check leaves open: a call it accepts can still run a concrete
  // function outside its own context exactly when one handler calls another of
  // a different priority, or the caller has no context of its own and a chain of
  // calls brings it another one.
  lemma AcceptedCallsCanStray(sigs: Signatures, q: Facts, m: Possible, f: string, g: string)
    requires Least(sigs, q, m) && f in sigs && g in sigs && sigs[g] != Any && !CallRefused(sigs[g], sigs[f])
    ensures !(m[f] <= {sigs[g]}) <==>
      (sigs[f].Isr? && sigs[g].Isr? && sigs[f] != sigs[g]) || (sigs[f] == Any && exists c :: c != sigs[g] && Carried(sigs, q, c, f))
  {
    forall c ensures c in m[f] <==> Carried(sigs, q, c, f) { PossibleIsCarried(sigs, q, m, c, f); }
    if sigs[f] != Any { assert sigs[f] in m[f]; }
  }
}
