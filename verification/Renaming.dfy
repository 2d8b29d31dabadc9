// Flat renaming of one module's names. The rewrite looks at no scopes; this
// module says what it must preserve, which is lexical resolution, and exactly
// when it does.
module Renaming {
  import opened Ast

  // The module's own top-level names, the qualifier they get, and its imports
  // with what each exports.
  datatype Module = Module(own: set<string>, prefix: string, exports: map<string, set<string>>)
  {
    // An own name gets the prefix, unless the prefix is empty.
    function Map(x: string): string {
      if prefix != "" && x in own then prefix + "." + x else x
    }
  }

  // Names declared in the lexical scopes now open, innermost last.
  type Scopes = seq<set<string>>

  predicate Bound(x: string, sc: Scopes) { exists s <- sc :: x in s }

  // The innermost scope that binds a name.
  function Level(x: string, sc: Scopes): nat
    requires Bound(x, sc)
  {
    var n := |sc| - 1;
    if x in sc[n] then n
    else
      assert sc == sc[..n] + [sc[n]];
      Level(x, sc[..n])
  }

  // What a reference means in the module as written.
  datatype Ref = LocalRef(level: nat, name: string) | OwnRef(name: string) | ImportRef(qualifier: string, name: string) | GlobalRef(name: string)

  // What a reference means in the flattened program, which has no imports.
  datatype FlatRef = FlatLocal(level: nat, name: string) | Flat(name: string)

  // Renaming must take each reference to this.
  function Renamed(m: Module, r: Ref): FlatRef {
    match r
    case LocalRef(k, x) => FlatLocal(k, x)
    case OwnRef(x) => Flat(if m.prefix == "" then x else m.prefix + "." + x)
    case ImportRef(q, x) => Flat(q + "." + x)
    case GlobalRef(x) => Flat(x)
  }

  function RenamedAll(m: Module, rs: seq<Ref>): seq<FlatRef> { seq(|rs|, i requires 0 <= i < |rs| => Renamed(m, rs[i])) }

  // --- references before ---

  function NameRef(m: Module, x: string, sc: Scopes): Ref {
    if Bound(x, sc) then LocalRef(Level(x, sc), x) else if x in m.own then OwnRef(x) else GlobalRef(x)
  }

  // `q.x` is a reference through an import unless `q` is bound here.
  predicate Through(m: Module, q: string, sc: Scopes) { !Bound(q, sc) && q in m.exports }

  function ExprRefs(m: Module, e: Expr, sc: Scopes): seq<Ref>
    decreases e
  {
    match e
    case IntLit(_) => []
    case BoolLit(_) => []
    case Ident(x) => [NameRef(m, x, sc)]
    case Unary(_, p) => ExprRefs(m, p, sc)
    case Binary(l, _, r) => ExprRefs(m, l, sc) + ExprRefs(m, r, sc)
    case Call(callee, args) => ExprRefs(m, callee, sc) + AllRefs(m, args, sc)
    case FieldAccess(b, f) => if b.Ident? && Through(m, b.name, sc) then [ImportRef(b.name, f)] else ExprRefs(m, b, sc)
    case Index(b, i) => ExprRefs(m, b, sc) + ExprRefs(m, i, sc)
    case Group(i) => ExprRefs(m, i, sc)
    case Cast(i, _) => ExprRefs(m, i, sc)
    case ArrayInit(es) => AllRefs(m, es, sc)
    case Build(es) => AllRefs(m, es, sc)
  }

  function AllRefs(m: Module, es: seq<Expr>, sc: Scopes): seq<Ref>
    decreases es
  {
    if es == [] then [] else ExprRefs(m, es[0], sc) + AllRefs(m, es[1..], sc)
  }

  function PlaceRefs(m: Module, lv: LValue, sc: Scopes): seq<Ref> {
    match lv
    case LName(x) => [NameRef(m, x, sc)]
    case LField(b, f) => if b.LName? && Through(m, b.name, sc) then [ImportRef(b.name, f)] else PlaceRefs(m, b, sc)
    case LIndex(b, i) => PlaceRefs(m, b, sc) + ExprRefs(m, i, sc)
    case LDeref(e) => ExprRefs(m, e, sc)
  }

  // --- references after ---

  function FlatNameRef(x: string, sc: Scopes): FlatRef {
    if Bound(x, sc) then FlatLocal(Level(x, sc), x) else Flat(x)
  }

  function FlatRefs(e: Expr, sc: Scopes): seq<FlatRef>
    decreases e
  {
    match e
    case IntLit(_) => []
    case BoolLit(_) => []
    case Ident(x) => [FlatNameRef(x, sc)]
    case Unary(_, p) => FlatRefs(p, sc)
    case Binary(l, _, r) => FlatRefs(l, sc) + FlatRefs(r, sc)
    case Call(callee, args) => FlatRefs(callee, sc) + FlatAll(args, sc)
    case FieldAccess(b, _) => FlatRefs(b, sc)
    case Index(b, i) => FlatRefs(b, sc) + FlatRefs(i, sc)
    case Group(i) => FlatRefs(i, sc)
    case Cast(i, _) => FlatRefs(i, sc)
    case ArrayInit(es) => FlatAll(es, sc)
    case Build(es) => FlatAll(es, sc)
  }

  function FlatAll(es: seq<Expr>, sc: Scopes): seq<FlatRef>
    decreases es
  {
    if es == [] then [] else FlatRefs(es[0], sc) + FlatAll(es[1..], sc)
  }

  function FlatPlace(lv: LValue, sc: Scopes): seq<FlatRef> {
    match lv
    case LName(x) => [FlatNameRef(x, sc)]
    case LField(b, _) => FlatPlace(b, sc)
    case LIndex(b, i) => FlatPlace(b, sc) + FlatRefs(i, sc)
    case LDeref(e) => FlatRefs(e, sc)
  }

  // --- the rewrite ---

  function RwExpr(m: Module, e: Expr): Expr
    decreases e
  {
    match e
    case IntLit(_) => e
    case BoolLit(_) => e
    case Ident(x) => Ident(m.Map(x))
    case Unary(op, p) => Unary(op, RwExpr(m, p))
    case Binary(l, op, r) => Binary(RwExpr(m, l), op, RwExpr(m, r))
    case Call(callee, args) => Call(RwExpr(m, callee), RwAll(m, args))
    case FieldAccess(b, f) => if b.Ident? && b.name in m.exports then Ident(b.name + "." + f) else FieldAccess(RwExpr(m, b), f)
    case Index(b, i) => Index(RwExpr(m, b), RwExpr(m, i))
    case Group(i) => Group(RwExpr(m, i))
    case Cast(i, ty) => Cast(RwExpr(m, i), ty)
    case ArrayInit(es) => ArrayInit(RwAll(m, es))
    case Build(es) => Build(RwAll(m, es))
  }

  function RwAll(m: Module, es: seq<Expr>): seq<Expr>
    decreases es
  {
    if es == [] then [] else [RwExpr(m, es[0])] + RwAll(m, es[1..])
  }

  // The base of a place is rewritten before it is compared with the imports.
  function RwPlace(m: Module, lv: LValue): LValue {
    match lv
    case LName(x) => LName(m.Map(x))
    case LField(b, f) =>
      var r := RwPlace(m, b);
      if r.LName? && r.name in m.exports then LName(r.name + "." + f) else LField(r, f)
    case LIndex(b, i) => LIndex(RwPlace(m, b), RwExpr(m, i))
    case LDeref(e) => LDeref(RwExpr(m, e))
  }

  // --- capture ---

  // The use of a local that the rewrite mistakes for an own item.
  predicate CapturedName(m: Module, x: string, sc: Scopes) { Bound(x, sc) && m.prefix != "" && x in m.own }

  predicate Uncaptured(m: Module, e: Expr, sc: Scopes)
    decreases e
  {
    match e
    case IntLit(_) => true
    case BoolLit(_) => true
    case Ident(x) => !CapturedName(m, x, sc)
    case Unary(_, p) => Uncaptured(m, p, sc)
    case Binary(l, _, r) => Uncaptured(m, l, sc) && Uncaptured(m, r, sc)
    case Call(callee, args) => Uncaptured(m, callee, sc) && forall a <- args :: Uncaptured(m, a, sc)
    case FieldAccess(b, _) => if b.Ident? && b.name in m.exports then !Bound(b.name, sc) else Uncaptured(m, b, sc)
    case Index(b, i) => Uncaptured(m, b, sc) && Uncaptured(m, i, sc)
    case Group(i) => Uncaptured(m, i, sc)
    case Cast(i, _) => Uncaptured(m, i, sc)
    case ArrayInit(es) => forall x <- es :: Uncaptured(m, x, sc)
    case Build(es) => forall x <- es :: Uncaptured(m, x, sc)
  }

  // A target `q.f` through an import whose qualifier is also an own item of the
  // module: its base is rewritten first, and then is no import any more.
  predicate Diverted(m: Module, q: string, f: string) { m.Map(q) != q && m.Map(q) != q + "." + f }

  predicate UncapturedPlace(m: Module, lv: LValue, sc: Scopes) {
    match lv
    case LName(x) => !CapturedName(m, x, sc)
    case LField(b, f) => if b.LName? && b.name in m.exports then !Bound(b.name, sc) && !Diverted(m, b.name, f) else UncapturedPlace(m, b, sc)
    case LIndex(b, i) => UncapturedPlace(m, b, sc) && Uncaptured(m, i, sc)
    case LDeref(e) => Uncaptured(m, e, sc)
  }

  // Source identifiers have no dots.
  predicate DotFree(x: string) { '.' !in x }

  predicate Plain(sc: Scopes) { forall s <- sc, x <- s :: DotFree(x) }

  predicate PlainQualifiers(m: Module) { forall q <- m.exports :: DotFree(q) }

  // No own item that gets a prefix has the name of a qualifier.
  predicate Separate(m: Module) { m.prefix != "" ==> m.own !! m.exports.Keys }

  // The module's own qualifier is not also that of an import, and the name of an
  // own item and of one the import does not export. Qualifiers have no dots.
  predicate NoTwin(m: Module) {
    DotFree(m.prefix) && (m.prefix in m.own && m.prefix in m.exports ==> m.prefix in m.exports[m.prefix])
  }

  lemma DottedIsUnbound(a: string, b: string, sc: Scopes)
    requires Plain(sc)
    ensures !Bound(a + "." + b, sc)
  {
    assert (a + "." + b)[|a|] == '.';
  }

  // --- exports ---

  // The imported references that name something their module does not export.
  function Unexported(m: Module, rs: seq<Ref>): seq<(string, string)> {
    if rs == [] then []
    else
      (if rs[0].ImportRef? && rs[0].qualifier in m.exports && rs[0].name !in m.exports[rs[0].qualifier]
       then [(rs[0].qualifier, rs[0].name)] else [])
      + Unexported(m, rs[1..])
  }

  lemma {:induction false} UnexportedConcat(m: Module, a: seq<Ref>, b: seq<Ref>)
    ensures Unexported(m, a + b) == Unexported(m, a) + Unexported(m, b)
    decreases a
  {
    if a == [] {
      assert a + b == b;
    } else {
      assert (a + b)[0] == a[0] && (a + b)[1..] == a[1..] + b;
      UnexportedConcat(m, a[1..], b);
    }
  }

  // What the walk reports: it looks only at the qualifier.
  function Reported(m: Module, q: string, f: string): seq<(string, string)> {
    if q in m.exports && f !in m.exports[q] then [(q, f)] else []
  }

  function ExprErrors(m: Module, e: Expr): seq<(string, string)>
    decreases e
  {
    match e
    case IntLit(_) => []
    case BoolLit(_) => []
    case Ident(_) => []
    case Unary(_, p) => ExprErrors(m, p)
    case Binary(l, _, r) => ExprErrors(m, l) + ExprErrors(m, r)
    case Call(callee, args) => ExprErrors(m, callee) + AllErrors(m, args)
    case FieldAccess(b, f) => if b.Ident? && b.name in m.exports then Reported(m, b.name, f) else ExprErrors(m, b)
    case Index(b, i) => ExprErrors(m, b) + ExprErrors(m, i)
    case Group(i) => ExprErrors(m, i)
    case Cast(i, _) => ExprErrors(m, i)
    case ArrayInit(es) => AllErrors(m, es)
    case Build(es) => AllErrors(m, es)
  }

  function AllErrors(m: Module, es: seq<Expr>): seq<(string, string)>
    decreases es
  {
    if es == [] then [] else ExprErrors(m, es[0]) + AllErrors(m, es[1..])
  }

  function PlaceErrors(m: Module, lv: LValue): seq<(string, string)> {
    match lv
    case LName(_) => []
    case LField(b, f) =>
      var r := RwPlace(m, b);
      PlaceErrors(m, b) + if r.LName? then Reported(m, r.name, f) else []
    case LIndex(b, i) => PlaceErrors(m, b) + ExprErrors(m, i)
    case LDeref(e) => ExprErrors(m, e)
  }

  // --- faithfulness ---

  // The rewritten piece refers as often; it refers to the right things exactly
  // when `fine` says so, and then the errors are the right ones.
  ghost predicate Faithful(m: Module, before: seq<Ref>, after: seq<FlatRef>, errors: seq<(string, string)>, fine: bool) {
    |after| == |before| && (after == RenamedAll(m, before) <==> fine) && (fine && NoTwin(m) ==> errors == Unexported(m, before))
  }

  lemma FaithfulPair(m: Module, a: seq<Ref>, x: seq<FlatRef>, e: seq<(string, string)>, f: bool,
                     b: seq<Ref>, y: seq<FlatRef>, d: seq<(string, string)>, g: bool)
    requires Faithful(m, a, x, e, f) && Faithful(m, b, y, d, g)
    ensures Faithful(m, a + b, x + y, e + d, f && g)
  {
    assert RenamedAll(m, a + b) == RenamedAll(m, a) + RenamedAll(m, b);
    if x + y == RenamedAll(m, a) + RenamedAll(m, b) {
      assert x == (x + y)[..|x|] && RenamedAll(m, a) == (RenamedAll(m, a) + RenamedAll(m, b))[..|a|];
      assert y == (x + y)[|x|..] && RenamedAll(m, b) == (RenamedAll(m, a) + RenamedAll(m, b))[|a|..];
    }
    UnexportedConcat(m, a, b);
  }

  lemma NameFaithful(m: Module, x: string, sc: Scopes)
    requires Plain(sc)
    ensures Faithful(m, [NameRef(m, x, sc)], [FlatNameRef(m.Map(x), sc)], [], !CapturedName(m, x, sc))
  {
    DottedIsUnbound(m.prefix, x, sc);
    var r := NameRef(m, x, sc);
    assert RenamedAll(m, [r]) == [Renamed(m, r)];
    assert [r][1..] == [];
  }

  lemma ImportFaithful(m: Module, q: string, f: string, r: Ref, sc: Scopes)
    requires Plain(sc) && q in m.exports && r == (if Bound(q, sc) then LocalRef(Level(q, sc), q) else ImportRef(q, f))
    ensures Faithful(m, [r], [FlatNameRef(q + "." + f, sc)], Reported(m, q, f), !Bound(q, sc))
  {
    DottedIsUnbound(q, f, sc);
    assert RenamedAll(m, [r]) == [Renamed(m, r)];
    assert [r][1..] == [];
  }

  lemma ClashFaithful(m: Module, q: string, f: string, r: Ref, sc: Scopes)
    requires Plain(sc) && PlainQualifiers(m) && q in m.exports && m.Map(q) != q && r == (if Bound(q, sc) then LocalRef(Level(q, sc), q) else ImportRef(q, f))
    ensures Faithful(m, [r], [FlatNameRef(m.Map(q), sc)], [], !Bound(q, sc) && !Diverted(m, q, f))
  {
    DottedIsUnbound(m.prefix, q, sc);
    assert RenamedAll(m, [r]) == [Renamed(m, r)];
    if !Diverted(m, q, f) && NoTwin(m) { TwinOnly(m.prefix, q, f); }
    assert [r][1..] == [];
  }

  lemma TwinOnly(p: string, q: string, f: string)
    requires DotFree(p) && DotFree(q) && p + "." + q == q + "." + f
    ensures p == q == f
  {
    var s := p + "." + q;
    assert s[|p|] == '.' && s[|q|] == '.';
    assert (forall i :: 0 <= i < |p| ==> s[i] == p[i]) && (forall i :: 0 <= i < |q| ==> s[i] == q[i]);
    assert |p| == |q|;
    assert p == s[..|p|] && q == (q + "." + f)[..|q|];
    assert q == s[|p| + 1..] && f == (q + "." + f)[|q| + 1..];
  }

  lemma NothingFaithful(m: Module)
    ensures Faithful(m, [], [], [], true)
  {
    assert RenamedAll(m, []) == [];
  }

  lemma {:induction false} ExprFaithful(m: Module, e: Expr, sc: Scopes)
    requires Plain(sc)
    ensures Faithful(m, ExprRefs(m, e, sc), FlatRefs(RwExpr(m, e), sc), ExprErrors(m, e), Uncaptured(m, e, sc))
    decreases e, 1
  {
    match e
    case IntLit(_) => NothingFaithful(m);
    case BoolLit(_) => NothingFaithful(m);
    case Ident(x) => NameFaithful(m, x, sc);
    case Unary(_, p) => ExprFaithful(m, p, sc);
    case Binary(l, _, r) => TwoFaithful(m, e, l, r, sc);
    case Call(_, _) => CallFaithful(m, e, sc);
    case FieldAccess(b, f) =>
      if b.Ident? && b.name in m.exports { ImportFaithful(m, b.name, f, ExprRefs(m, e, sc)[0], sc); } else { ExprFaithful(m, b, sc); }
    case Index(b, i) => TwoFaithful(m, e, b, i, sc);
    case Group(i) => ExprFaithful(m, i, sc);
    case Cast(i, _) => ExprFaithful(m, i, sc);
    case ArrayInit(es) => AllFaithful(m, es, sc);
    case Build(es) => AllFaithful(m, es, sc);
  }

  lemma {:induction false} CallFaithful(m: Module, e: Expr, sc: Scopes)
    requires Plain(sc) && e.Call?
    ensures Faithful(m, ExprRefs(m, e, sc), FlatRefs(RwExpr(m, e), sc), ExprErrors(m, e), Uncaptured(m, e, sc))
    decreases e, 0
  {
    ExprFaithful(m, e.callee, sc);
    AllFaithful(m, e.args, sc);
    FaithfulPair(m, ExprRefs(m, e.callee, sc), FlatRefs(RwExpr(m, e.callee), sc), ExprErrors(m, e.callee), Uncaptured(m, e.callee, sc),
                 AllRefs(m, e.args, sc), FlatAll(RwAll(m, e.args), sc), AllErrors(m, e.args), forall a <- e.args :: Uncaptured(m, a, sc));
  }

  lemma {:induction false} TwoFaithful(m: Module, whole: Expr, l: Expr, r: Expr, sc: Scopes)
    requires Plain(sc) && l < whole && r < whole
    ensures Faithful(m, ExprRefs(m, l, sc) + ExprRefs(m, r, sc), FlatRefs(RwExpr(m, l), sc) + FlatRefs(RwExpr(m, r), sc),
                     ExprErrors(m, l) + ExprErrors(m, r), Uncaptured(m, l, sc) && Uncaptured(m, r, sc))
    decreases whole, 0
  {
    ExprFaithful(m, l, sc);
    ExprFaithful(m, r, sc);
    FaithfulPair(m, ExprRefs(m, l, sc), FlatRefs(RwExpr(m, l), sc), ExprErrors(m, l), Uncaptured(m, l, sc),
                 ExprRefs(m, r, sc), FlatRefs(RwExpr(m, r), sc), ExprErrors(m, r), Uncaptured(m, r, sc));
  }

  lemma {:induction false} AllFaithful(m: Module, es: seq<Expr>, sc: Scopes)
    requires Plain(sc)
    ensures Faithful(m, AllRefs(m, es, sc), FlatAll(RwAll(m, es), sc), AllErrors(m, es), forall e <- es :: Uncaptured(m, e, sc))
    decreases es
  {
    if es == [] {
      NothingFaithful(m);
    } else {
      ExprFaithful(m, es[0], sc);
      AllFaithful(m, es[1..], sc);
      FaithfulPair(m, ExprRefs(m, es[0], sc), FlatRefs(RwExpr(m, es[0]), sc), ExprErrors(m, es[0]), Uncaptured(m, es[0], sc),
                   AllRefs(m, es[1..], sc), FlatAll(RwAll(m, es[1..]), sc), AllErrors(m, es[1..]), forall e <- es[1..] :: Uncaptured(m, e, sc));
      assert es == [es[0]] + es[1..];
      assert RwAll(m, es)[1..] == RwAll(m, es[1..]);
    }
  }

  // Places. The rewritten base of a field is an import's only if the base was,
  // and was left alone.
  lemma {:induction false} PlaceFaithful(m: Module, lv: LValue, sc: Scopes)
    requires Plain(sc) && PlainQualifiers(m)
    ensures Faithful(m, PlaceRefs(m, lv, sc), FlatPlace(RwPlace(m, lv), sc), PlaceErrors(m, lv), UncapturedPlace(m, lv, sc))
    decreases lv
  {
    match lv
    case LName(x) => NameFaithful(m, x, sc);
    case LField(b, f) =>
      if b.LName? {
        DottedIsNoImport(m, b.name);
        if b.name in m.exports && m.Map(b.name) != b.name {
          ClashFaithful(m, b.name, f, PlaceRefs(m, lv, sc)[0], sc);
        } else if b.name in m.exports { ImportFaithful(m, b.name, f, PlaceRefs(m, lv, sc)[0], sc); } else { PlaceFaithful(m, b, sc); }
      } else {
        PlaceFaithful(m, b, sc);
        CollapsedIsNoImport(m, b);
      }
    case LIndex(b, i) =>
      PlaceFaithful(m, b, sc);
      ExprFaithful(m, i, sc);
      FaithfulPair(m, PlaceRefs(m, b, sc), FlatPlace(RwPlace(m, b), sc), PlaceErrors(m, b), UncapturedPlace(m, b, sc),
                   ExprRefs(m, i, sc), FlatRefs(RwExpr(m, i), sc), ExprErrors(m, i), Uncaptured(m, i, sc));
    case LDeref(e) => ExprFaithful(m, e, sc);
  }

  lemma DottedIsNoImport(m: Module, x: string)
    requires PlainQualifiers(m)
    ensures m.Map(x) in m.exports <==> x in m.exports && m.Map(x) == x
  {
    assert (m.prefix + "." + x)[|m.prefix|] == '.';
  }

  lemma CollapsedIsNoImport(m: Module, b: LValue)
    requires PlainQualifiers(m) && !b.LName?
    ensures RwPlace(m, b).LName? ==> RwPlace(m, b).name !in m.exports
  {
    if b.LField? && RwPlace(m, b).LName? {
      var q := RwPlace(m, b.lbase).name;
      assert (q + "." + b.field)[|q|] == '.';
    }
  }

  // --- statements ---

  // A declaration is visible from the next statement on.
  function Declare(s: Stmt, sc: Scopes): Scopes {
    if s.VarDecl? && sc != [] then sc[|sc| - 1 := sc[|sc| - 1] + {s.name}] else sc
  }

  function OptRefs(m: Module, e: Option<Expr>, sc: Scopes): seq<Ref> { if e.Some? then ExprRefs(m, e.value, sc) else [] }
  function FlatOpt(e: Option<Expr>, sc: Scopes): seq<FlatRef> { if e.Some? then FlatRefs(e.value, sc) else [] }
  function RwOpt(m: Module, e: Option<Expr>): Option<Expr> { if e.Some? then Some(RwExpr(m, e.value)) else None }
  function OptErrors(m: Module, e: Option<Expr>): seq<(string, string)> { if e.Some? then ExprErrors(m, e.value) else [] }
  predicate UncapturedOpt(m: Module, e: Option<Expr>, sc: Scopes) { e.Some? ==> Uncaptured(m, e.value, sc) }

  function BlockRefs(m: Module, b: Block, sc: Scopes): seq<Ref>
    decreases b, |b.stmts| + 1
  {
    FromRefs(m, b, 0, sc + [{}])
  }

  function FromRefs(m: Module, b: Block, i: nat, sc: Scopes): seq<Ref>
    requires i <= |b.stmts|
    decreases b, |b.stmts| - i
  {
    if i == |b.stmts| then OptRefs(m, b.trailing, sc) else StmtRefs(m, b.stmts[i], sc) + FromRefs(m, b, i + 1, Declare(b.stmts[i], sc))
  }

  function StmtRefs(m: Module, s: Stmt, sc: Scopes): seq<Ref>
    decreases s, 1
  {
    match s
    case VarDecl(_, _, init) => ExprRefs(m, init, sc)
    case Assign(lv, v) => PlaceRefs(m, lv, sc) + ExprRefs(m, v, sc)
    case CompoundAssign(lv, _, v) => PlaceRefs(m, lv, sc) + ExprRefs(m, v, sc)
    case ExprStmt(e) => ExprRefs(m, e, sc)
    case If(c, t, e) => ExprRefs(m, c, sc) + (BlockRefs(m, t, sc) + BlockRefs(m, e, sc))
    case Loop(b) => BlockRefs(m, b, sc)
    case While(c, b) => ExprRefs(m, c, sc) + BlockRefs(m, b, sc)
    case For(v, a, _, z, k, b) => ExprRefs(m, a, sc) + (ExprRefs(m, z, sc) + (OptRefs(m, k, sc) + BlockRefs(m, b, sc + [{v}])))
    case Match(e, arms) => ExprRefs(m, e, sc) + ArmRefs(m, s, 0, sc)
    case Return(e) => OptRefs(m, e, sc)
    case Break => []
    case Continue => []
    case BlockStmt(b) => BlockRefs(m, b, sc)
    case Claim(x, b) => [NameRef(m, x, sc)] + BlockRefs(m, b, sc)
  }

  function ArmRefs(m: Module, s: Stmt, i: nat, sc: Scopes): seq<Ref>
    requires s.Match? && i <= |s.arms|
    decreases s, 0, |s.arms| - i
  {
    if i == |s.arms| then [] else BlockRefs(m, s.arms[i].body, sc) + ArmRefs(m, s, i + 1, sc)
  }

  function FlatBlock(b: Block, sc: Scopes): seq<FlatRef>
    decreases b, |b.stmts| + 1
  {
    FlatFrom(b, 0, sc + [{}])
  }

  function FlatFrom(b: Block, i: nat, sc: Scopes): seq<FlatRef>
    requires i <= |b.stmts|
    decreases b, |b.stmts| - i
  {
    if i == |b.stmts| then FlatOpt(b.trailing, sc) else FlatStmt(b.stmts[i], sc) + FlatFrom(b, i + 1, Declare(b.stmts[i], sc))
  }

  function FlatStmt(s: Stmt, sc: Scopes): seq<FlatRef>
    decreases s, 1
  {
    match s
    case VarDecl(_, _, init) => FlatRefs(init, sc)
    case Assign(lv, v) => FlatPlace(lv, sc) + FlatRefs(v, sc)
    case CompoundAssign(lv, _, v) => FlatPlace(lv, sc) + FlatRefs(v, sc)
    case ExprStmt(e) => FlatRefs(e, sc)
    case If(c, t, e) => FlatRefs(c, sc) + (FlatBlock(t, sc) + FlatBlock(e, sc))
    case Loop(b) => FlatBlock(b, sc)
    case While(c, b) => FlatRefs(c, sc) + FlatBlock(b, sc)
    case For(v, a, _, z, k, b) => FlatRefs(a, sc) + (FlatRefs(z, sc) + (FlatOpt(k, sc) + FlatBlock(b, sc + [{v}])))
    case Match(e, arms) => FlatRefs(e, sc) + FlatArms(s, 0, sc)
    case Return(e) => FlatOpt(e, sc)
    case Break => []
    case Continue => []
    case BlockStmt(b) => FlatBlock(b, sc)
    case Claim(x, b) => [FlatNameRef(x, sc)] + FlatBlock(b, sc)
  }

  function FlatArms(s: Stmt, i: nat, sc: Scopes): seq<FlatRef>
    requires s.Match? && i <= |s.arms|
    decreases s, 0, |s.arms| - i
  {
    if i == |s.arms| then [] else FlatBlock(s.arms[i].body, sc) + FlatArms(s, i + 1, sc)
  }

  function RwBlock(m: Module, b: Block): (r: Block)
    ensures |r.stmts| == |b.stmts|
    decreases b
  {
    Block(seq(|b.stmts|, i requires 0 <= i < |b.stmts| => RwStmt(m, b.stmts[i])), RwOpt(m, b.trailing))
  }

  // Names that are declared stay as they are.
  function RwStmt(m: Module, s: Stmt): Stmt
    decreases s
  {
    match s
    case VarDecl(x, moves, init) => VarDecl(x, moves, RwExpr(m, init))
    case Assign(lv, v) => Assign(RwPlace(m, lv), RwExpr(m, v))
    case CompoundAssign(lv, op, v) => CompoundAssign(RwPlace(m, lv), op, RwExpr(m, v))
    case ExprStmt(e) => ExprStmt(RwExpr(m, e))
    case If(c, t, e) => If(RwExpr(m, c), RwBlock(m, t), RwBlock(m, e))
    case Loop(b) => Loop(RwBlock(m, b))
    case While(c, b) => While(RwExpr(m, c), RwBlock(m, b))
    case For(v, a, d, z, k, b) => For(v, RwExpr(m, a), d, RwExpr(m, z), RwOpt(m, k), RwBlock(m, b))
    case Match(e, arms) => Match(RwExpr(m, e), RwArms(m, arms))
    case Return(e) => Return(RwOpt(m, e))
    case Break => Break
    case Continue => Continue
    case BlockStmt(b) => BlockStmt(RwBlock(m, b))
    case Claim(x, b) => Claim(m.Map(x), RwBlock(m, b))
  }

  function RwArms(m: Module, arms: seq<Arm>): (r: seq<Arm>)
    ensures |r| == |arms|
    decreases arms
  {
    seq(|arms|, i requires 0 <= i < |arms| => Arm(arms[i].patterns, RwBlock(m, arms[i].body)))
  }

  function BlockErrors(m: Module, b: Block): seq<(string, string)>
    decreases b, |b.stmts| + 1
  {
    ErrorsFrom(m, b, 0)
  }

  function ErrorsFrom(m: Module, b: Block, i: nat): seq<(string, string)>
    requires i <= |b.stmts|
    decreases b, |b.stmts| - i
  {
    if i == |b.stmts| then OptErrors(m, b.trailing) else StmtErrors(m, b.stmts[i]) + ErrorsFrom(m, b, i + 1)
  }

  function StmtErrors(m: Module, s: Stmt): seq<(string, string)>
    decreases s, 1
  {
    match s
    case VarDecl(_, _, init) => ExprErrors(m, init)
    case Assign(lv, v) => PlaceErrors(m, lv) + ExprErrors(m, v)
    case CompoundAssign(lv, _, v) => PlaceErrors(m, lv) + ExprErrors(m, v)
    case ExprStmt(e) => ExprErrors(m, e)
    case If(c, t, e) => ExprErrors(m, c) + (BlockErrors(m, t) + BlockErrors(m, e))
    case Loop(b) => BlockErrors(m, b)
    case While(c, b) => ExprErrors(m, c) + BlockErrors(m, b)
    case For(_, a, _, z, k, b) => ExprErrors(m, a) + (ExprErrors(m, z) + (OptErrors(m, k) + BlockErrors(m, b)))
    case Match(e, arms) => ExprErrors(m, e) + ArmErrors(m, s, 0)
    case Return(e) => OptErrors(m, e)
    case Break => []
    case Continue => []
    case BlockStmt(b) => BlockErrors(m, b)
    case Claim(_, b) => BlockErrors(m, b)
  }

  function ArmErrors(m: Module, s: Stmt, i: nat): seq<(string, string)>
    requires s.Match? && i <= |s.arms|
    decreases s, 0, |s.arms| - i
  {
    if i == |s.arms| then [] else BlockErrors(m, s.arms[i].body) + ArmErrors(m, s, i + 1)
  }

  predicate UncapturedBlock(m: Module, b: Block, sc: Scopes)
    decreases b, |b.stmts| + 1
  {
    UncapturedFrom(m, b, 0, sc + [{}])
  }

  predicate UncapturedFrom(m: Module, b: Block, i: nat, sc: Scopes)
    requires i <= |b.stmts|
    decreases b, |b.stmts| - i
  {
    if i == |b.stmts| then UncapturedOpt(m, b.trailing, sc)
    else UncapturedStmt(m, b.stmts[i], sc) && UncapturedFrom(m, b, i + 1, Declare(b.stmts[i], sc))
  }

  predicate UncapturedStmt(m: Module, s: Stmt, sc: Scopes)
    decreases s, 1
  {
    match s
    case VarDecl(_, _, init) => Uncaptured(m, init, sc)
    case Assign(lv, v) => UncapturedPlace(m, lv, sc) && Uncaptured(m, v, sc)
    case CompoundAssign(lv, _, v) => UncapturedPlace(m, lv, sc) && Uncaptured(m, v, sc)
    case ExprStmt(e) => Uncaptured(m, e, sc)
    case If(c, t, e) => Uncaptured(m, c, sc) && (UncapturedBlock(m, t, sc) && UncapturedBlock(m, e, sc))
    case Loop(b) => UncapturedBlock(m, b, sc)
    case While(c, b) => Uncaptured(m, c, sc) && UncapturedBlock(m, b, sc)
    case For(v, a, _, z, k, b) => Uncaptured(m, a, sc) && (Uncaptured(m, z, sc) && (UncapturedOpt(m, k, sc) && UncapturedBlock(m, b, sc + [{v}])))
    case Match(e, arms) => Uncaptured(m, e, sc) && UncapturedArms(m, s, 0, sc)
    case Return(e) => UncapturedOpt(m, e, sc)
    case Break => true
    case Continue => true
    case BlockStmt(b) => UncapturedBlock(m, b, sc)
    case Claim(x, b) => !CapturedName(m, x, sc) && UncapturedBlock(m, b, sc)
  }

  predicate UncapturedArms(m: Module, s: Stmt, i: nat, sc: Scopes)
    requires s.Match? && i <= |s.arms|
    decreases s, 0, |s.arms| - i
  {
    i == |s.arms| || (UncapturedBlock(m, s.arms[i].body, sc) && UncapturedArms(m, s, i + 1, sc))
  }

  // --- a whole body ---

  function Declared(b: Block): set<string>
    decreases b, |b.stmts| + 1
  {
    DeclaredUpTo(b, |b.stmts|)
  }

  function DeclaredUpTo(b: Block, i: nat): set<string>
    requires i <= |b.stmts|
    decreases b, i
  {
    if i == 0 then {} else DeclaredUpTo(b, i - 1) + DeclaredBy(b.stmts[i - 1])
  }

  // Every name a statement declares, in any scope of its own or of its parts.
  function DeclaredBy(s: Stmt): set<string>
    decreases s, 1
  {
    match s
    case VarDecl(x, _, _) => {x}
    case If(_, t, e) => Declared(t) + Declared(e)
    case Loop(b) => Declared(b)
    case While(_, b) => Declared(b)
    case For(v, _, _, _, _, b) => {v} + Declared(b)
    case Match(_, arms) => DeclaredArms(s, |arms|)
    case BlockStmt(b) => Declared(b)
    case Claim(_, b) => Declared(b)
    case _ => {}
  }

  function DeclaredArms(s: Stmt, i: nat): set<string>
    requires s.Match? && i <= |s.arms|
    decreases s, 0, i
  {
    if i == 0 then {} else DeclaredArms(s, i - 1) + Declared(s.arms[i - 1].body)
  }

  lemma {:induction false} DeclaredAt(b: Block, n: nat, i: nat)
    requires i < n <= |b.stmts|
    ensures DeclaredBy(b.stmts[i]) <= DeclaredUpTo(b, n)
    decreases n
  {
    if i < n - 1 { DeclaredAt(b, n - 1, i); }
  }

  lemma {:induction false} DeclaredArmAt(s: Stmt, n: nat, i: nat)
    requires s.Match? && i < n <= |s.arms|
    ensures Declared(s.arms[i].body) <= DeclaredArms(s, n)
    decreases n
  {
    if i < n - 1 { DeclaredArmAt(s, n - 1, i); }
  }

  // A piece of the module: its references before and after, the errors reported
  // for it, and whether nothing in it is captured.
  datatype Piece = Piece(before: seq<Ref>, after: seq<FlatRef>, errors: seq<(string, string)>, fine: bool)

  ghost predicate Good(m: Module, p: Piece) { Faithful(m, p.before, p.after, p.errors, p.fine) }

  function Join(p: Piece, q: Piece): Piece { Piece(p.before + q.before, p.after + q.after, p.errors + q.errors, p.fine && q.fine) }

  lemma GoodJoin(m: Module, p: Piece, q: Piece)
    requires Good(m, p) && Good(m, q)
    ensures Good(m, Join(p, q))
  {
    FaithfulPair(m, p.before, p.after, p.errors, p.fine, q.before, q.after, q.errors, q.fine);
  }

  function ExprPiece(m: Module, e: Expr, sc: Scopes): Piece {
    Piece(ExprRefs(m, e, sc), FlatRefs(RwExpr(m, e), sc), ExprErrors(m, e), Uncaptured(m, e, sc))
  }

  function OptPiece(m: Module, e: Option<Expr>, sc: Scopes): Piece {
    Piece(OptRefs(m, e, sc), FlatOpt(RwOpt(m, e), sc), OptErrors(m, e), UncapturedOpt(m, e, sc))
  }

  function PlacePiece(m: Module, lv: LValue, sc: Scopes): Piece {
    Piece(PlaceRefs(m, lv, sc), FlatPlace(RwPlace(m, lv), sc), PlaceErrors(m, lv), UncapturedPlace(m, lv, sc))
  }

  function BlockPiece(m: Module, b: Block, sc: Scopes): Piece {
    Piece(BlockRefs(m, b, sc), FlatBlock(RwBlock(m, b), sc), BlockErrors(m, b), UncapturedBlock(m, b, sc))
  }

  function FromPiece(m: Module, b: Block, i: nat, sc: Scopes): Piece
    requires i <= |b.stmts|
  {
    Piece(FromRefs(m, b, i, sc), FlatFrom(RwBlock(m, b), i, sc), ErrorsFrom(m, b, i), UncapturedFrom(m, b, i, sc))
  }

  function StmtPiece(m: Module, s: Stmt, sc: Scopes): Piece {
    Piece(StmtRefs(m, s, sc), FlatStmt(RwStmt(m, s), sc), StmtErrors(m, s), UncapturedStmt(m, s, sc))
  }

  function ArmPiece(m: Module, s: Stmt, i: nat, sc: Scopes): Piece
    requires s.Match? && i <= |s.arms|
  {
    Piece(ArmRefs(m, s, i, sc), FlatArms(RwStmt(m, s), i, sc), ArmErrors(m, s, i), UncapturedArms(m, s, i, sc))
  }

  ghost predicate Names(m: Module, sc: Scopes, declared: set<string>) {
    PlainQualifiers(m) && Plain(sc) && forall x <- declared :: DotFree(x)
  }

  lemma OptGood(m: Module, e: Option<Expr>, sc: Scopes)
    requires Plain(sc)
    ensures Good(m, OptPiece(m, e, sc))
  {
    if e.Some? { ExprFaithful(m, e.value, sc); } else { NothingFaithful(m); }
  }

  lemma {:induction false} BlockGood(m: Module, b: Block, sc: Scopes)
    requires Names(m, sc, Declared(b))
    ensures Good(m, BlockPiece(m, b, sc))
    decreases b, |b.stmts| + 1
  {
    FromGood(m, b, 0, sc + [{}]);
  }

  lemma {:induction false} FromGood(m: Module, b: Block, i: nat, sc: Scopes)
    requires i <= |b.stmts| && Names(m, sc, Declared(b))
    ensures Good(m, FromPiece(m, b, i, sc))
    decreases b, |b.stmts| - i
  {
    if i == |b.stmts| {
      OptGood(m, b.trailing, sc);
    } else {
      var s := b.stmts[i];
      DeclaredAt(b, |b.stmts|, i);
      StmtGood(m, s, sc);
      if s.VarDecl? { assert s.name in DeclaredBy(s); }
      FromGood(m, b, i + 1, Declare(s, sc));
      GoodJoin(m, StmtPiece(m, s, sc), FromPiece(m, b, i + 1, Declare(s, sc)));
      assert RwBlock(m, b).stmts[i] == RwStmt(m, s) && Declare(RwStmt(m, s), sc) == Declare(s, sc);
    }
  }

  lemma {:induction false} StmtGood(m: Module, s: Stmt, sc: Scopes)
    requires Names(m, sc, DeclaredBy(s))
    ensures Good(m, StmtPiece(m, s, sc))
    decreases s, 2
  {
    match s
    case VarDecl(_, _, init) => ExprFaithful(m, init, sc);
    case Assign(lv, v) => AssignGood(m, lv, v, sc);
    case CompoundAssign(lv, _, v) => AssignGood(m, lv, v, sc);
    case ExprStmt(e) => ExprFaithful(m, e, sc);
    case If(_, _, _) => IfGood(m, s, sc);
    case Loop(b) => BlockGood(m, b, sc);
    case While(c, b) =>
      ExprFaithful(m, c, sc);
      BlockGood(m, b, sc);
      GoodJoin(m, ExprPiece(m, c, sc), BlockPiece(m, b, sc));
    case For(_, _, _, _, _, _) => ForGood(m, s, sc);
    case Match(e, arms) =>
      ExprFaithful(m, e, sc);
      ArmsGood(m, s, 0, sc);
      GoodJoin(m, ExprPiece(m, e, sc), ArmPiece(m, s, 0, sc));
    case Return(e) => OptGood(m, e, sc);
    case Break => NothingFaithful(m);
    case Continue => NothingFaithful(m);
    case BlockStmt(b) => BlockGood(m, b, sc);
    case Claim(x, b) =>
      NameFaithful(m, x, sc);
      BlockGood(m, b, sc);
      GoodJoin(m, Piece([NameRef(m, x, sc)], [FlatNameRef(m.Map(x), sc)], [], !CapturedName(m, x, sc)), BlockPiece(m, b, sc));
  }

  lemma AssignGood(m: Module, lv: LValue, v: Expr, sc: Scopes)
    requires Plain(sc) && PlainQualifiers(m)
    ensures Good(m, Join(PlacePiece(m, lv, sc), ExprPiece(m, v, sc)))
  {
    PlaceFaithful(m, lv, sc);
    ExprFaithful(m, v, sc);
    GoodJoin(m, PlacePiece(m, lv, sc), ExprPiece(m, v, sc));
  }

  lemma {:induction false} IfGood(m: Module, s: Stmt, sc: Scopes)
    requires s.If? && Names(m, sc, DeclaredBy(s))
    ensures Good(m, StmtPiece(m, s, sc))
    decreases s, 1
  {
    ExprFaithful(m, s.cond, sc);
    BlockGood(m, s.thn, sc);
    BlockGood(m, s.els, sc);
    GoodJoin(m, BlockPiece(m, s.thn, sc), BlockPiece(m, s.els, sc));
    GoodJoin(m, ExprPiece(m, s.cond, sc), Join(BlockPiece(m, s.thn, sc), BlockPiece(m, s.els, sc)));
  }

  lemma {:induction false} ForGood(m: Module, s: Stmt, sc: Scopes)
    requires s.For? && Names(m, sc, DeclaredBy(s))
    ensures Good(m, StmtPiece(m, s, sc))
    decreases s, 1
  {
    assert s.v in DeclaredBy(s);
    var inner := sc + [{s.v}];
    ExprFaithful(m, s.start, sc);
    ExprFaithful(m, s.end, sc);
    OptGood(m, s.step, sc);
    BlockGood(m, s.body, inner);
    var p3 := Join(OptPiece(m, s.step, sc), BlockPiece(m, s.body, inner));
    GoodJoin(m, OptPiece(m, s.step, sc), BlockPiece(m, s.body, inner));
    GoodJoin(m, ExprPiece(m, s.end, sc), p3);
    GoodJoin(m, ExprPiece(m, s.start, sc), Join(ExprPiece(m, s.end, sc), p3));
  }

  lemma {:induction false} ArmsGood(m: Module, s: Stmt, i: nat, sc: Scopes)
    requires s.Match? && i <= |s.arms| && Names(m, sc, DeclaredBy(s))
    ensures Good(m, ArmPiece(m, s, i, sc))
    decreases s, 0, |s.arms| - i
  {
    if i == |s.arms| {
      NothingFaithful(m);
    } else {
      DeclaredArmAt(s, |s.arms|, i);
      BlockGood(m, s.arms[i].body, sc);
      ArmsGood(m, s, i + 1, sc);
      GoodJoin(m, BlockPiece(m, s.arms[i].body, sc), ArmPiece(m, s, i + 1, sc));
      assert RwStmt(m, s).arms[i].body == RwBlock(m, s.arms[i].body);
    }
  }

  // Flat renaming preserves binding exactly when no use of a local is captured
  // and no target diverted; and then the errors it reports are the imported
  // references the module makes that are not exported.
  lemma {:induction false} RenamingPreservesBinding(m: Module, params: set<string>, body: Block)
    requires PlainQualifiers(m) && forall x <- params + Declared(body) :: DotFree(x)
    ensures FlatBlock(RwBlock(m, body), [params]) == RenamedAll(m, BlockRefs(m, body, [params])) <==> UncapturedBlock(m, body, [params])
    ensures UncapturedBlock(m, body, [params]) && NoTwin(m) ==> BlockErrors(m, body) == Unexported(m, BlockRefs(m, body, [params]))
  {
    BlockGood(m, body, [params]);
  }

  // --- no shadowing ---

  // No parameter, local or loop variable shares a name with an own item (which
  // matters only under a prefix) or with an import's qualifier, and no own item
  // with a qualifier.
  predicate Unshadowed(m: Module, names: set<string>) {
    (m.prefix != "" ==> names !! m.own) && names !! m.exports.Keys && Separate(m)
  }

  ghost predicate Within(sc: Scopes, names: set<string>) { forall s <- sc :: s <= names }

  lemma {:induction false} ExprUnshadowed(m: Module, e: Expr, sc: Scopes, names: set<string>)
    requires Unshadowed(m, names) && Within(sc, names)
    ensures Uncaptured(m, e, sc)
    decreases e
  {
    match e
    case Unary(_, p) => ExprUnshadowed(m, p, sc, names);
    case Binary(l, _, r) => ExprUnshadowed(m, l, sc, names); ExprUnshadowed(m, r, sc, names);
    case Call(callee, args) =>
      ExprUnshadowed(m, callee, sc, names);
      forall a | a in args ensures Uncaptured(m, a, sc) { ExprUnshadowed(m, a, sc, names); }
    case FieldAccess(b, _) => if !(b.Ident? && b.name in m.exports) { ExprUnshadowed(m, b, sc, names); }
    case Index(b, i) => ExprUnshadowed(m, b, sc, names); ExprUnshadowed(m, i, sc, names);
    case Group(i) => ExprUnshadowed(m, i, sc, names);
    case Cast(i, _) => ExprUnshadowed(m, i, sc, names);
    case ArrayInit(es) => forall x | x in es ensures Uncaptured(m, x, sc) { ExprUnshadowed(m, x, sc, names); }
    case Build(es) => forall x | x in es ensures Uncaptured(m, x, sc) { ExprUnshadowed(m, x, sc, names); }
    case _ =>
  }

  lemma {:induction false} PlaceUnshadowed(m: Module, lv: LValue, sc: Scopes, names: set<string>)
    requires Unshadowed(m, names) && Within(sc, names)
    ensures UncapturedPlace(m, lv, sc)
    decreases lv
  {
    match lv
    case LField(b, _) => if !(b.LName? && b.name in m.exports) { PlaceUnshadowed(m, b, sc, names); }
    case LIndex(b, i) => PlaceUnshadowed(m, b, sc, names); ExprUnshadowed(m, i, sc, names);
    case LDeref(e) => ExprUnshadowed(m, e, sc, names);
    case LName(_) =>
  }

  lemma OptUnshadowed(m: Module, e: Option<Expr>, sc: Scopes, names: set<string>)
    requires Unshadowed(m, names) && Within(sc, names)
    ensures UncapturedOpt(m, e, sc)
  {
    if e.Some? { ExprUnshadowed(m, e.value, sc, names); }
  }

  lemma {:induction false} BlockUnshadowed(m: Module, b: Block, sc: Scopes, names: set<string>)
    requires Unshadowed(m, names) && Within(sc, names) && Declared(b) <= names
    ensures UncapturedBlock(m, b, sc)
    decreases b, |b.stmts| + 1
  {
    FromUnshadowed(m, b, 0, sc + [{}], names);
  }

  lemma {:induction false} FromUnshadowed(m: Module, b: Block, i: nat, sc: Scopes, names: set<string>)
    requires i <= |b.stmts| && Unshadowed(m, names) && Within(sc, names) && Declared(b) <= names
    ensures UncapturedFrom(m, b, i, sc)
    decreases b, |b.stmts| - i
  {
    if i == |b.stmts| {
      OptUnshadowed(m, b.trailing, sc, names);
    } else {
      DeclaredAt(b, |b.stmts|, i);
      DeclareWithin(b.stmts[i], sc, names);
      StmtUnshadowed(m, b.stmts[i], sc, names);
      FromUnshadowed(m, b, i + 1, Declare(b.stmts[i], sc), names);
    }
  }

  lemma DeclareWithin(s: Stmt, sc: Scopes, names: set<string>)
    requires Within(sc, names) && DeclaredBy(s) <= names
    ensures Within(Declare(s, sc), names)
  {
    var after := Declare(s, sc);
    forall t | t in after ensures t <= names {
      var i :| 0 <= i < |after| && after[i] == t;
      assert sc[i] in sc;
      if s.VarDecl? { assert s.name in DeclaredBy(s); }
    }
  }

  lemma {:induction false} StmtUnshadowed(m: Module, s: Stmt, sc: Scopes, names: set<string>)
    requires Unshadowed(m, names) && Within(sc, names) && DeclaredBy(s) <= names
    ensures UncapturedStmt(m, s, sc)
    decreases s, 1
  {
    match s
    case VarDecl(_, _, init) => ExprUnshadowed(m, init, sc, names);
    case Assign(lv, v) => PlaceUnshadowed(m, lv, sc, names); ExprUnshadowed(m, v, sc, names);
    case CompoundAssign(lv, _, v) => PlaceUnshadowed(m, lv, sc, names); ExprUnshadowed(m, v, sc, names);
    case ExprStmt(e) => ExprUnshadowed(m, e, sc, names);
    case If(c, t, e) => ExprUnshadowed(m, c, sc, names); BlockUnshadowed(m, t, sc, names); BlockUnshadowed(m, e, sc, names);
    case Loop(b) => BlockUnshadowed(m, b, sc, names);
    case While(c, b) => ExprUnshadowed(m, c, sc, names); BlockUnshadowed(m, b, sc, names);
    case For(v, a, _, z, k, b) =>
      ExprUnshadowed(m, a, sc, names);
      ExprUnshadowed(m, z, sc, names);
      OptUnshadowed(m, k, sc, names);
      BlockUnshadowed(m, b, sc + [{v}], names);
    case Match(e, arms) => ExprUnshadowed(m, e, sc, names); ArmsUnshadowed(m, s, 0, sc, names);
    case Return(e) => OptUnshadowed(m, e, sc, names);
    case BlockStmt(b) => BlockUnshadowed(m, b, sc, names);
    case Claim(_, b) => BlockUnshadowed(m, b, sc, names);
    case _ =>
  }

  lemma {:induction false} ArmsUnshadowed(m: Module, s: Stmt, i: nat, sc: Scopes, names: set<string>)
    requires s.Match? && i <= |s.arms| && Unshadowed(m, names) && Within(sc, names) && DeclaredBy(s) <= names
    ensures UncapturedArms(m, s, i, sc)
    decreases s, 0, |s.arms| - i
  {
    if i < |s.arms| {
      DeclaredArmAt(s, |s.arms|, i);
      BlockUnshadowed(m, s.arms[i].body, sc, names);
      ArmsUnshadowed(m, s, i + 1, sc, names);
    }
  }

  // Without shadowing of own items and qualifiers, the scope-free rewrite is
  // right for every body.
  lemma {:induction false} NoShadowingSuffices(m: Module, params: set<string>, body: Block)
    requires PlainQualifiers(m) && forall x <- params + Declared(body) :: DotFree(x)
    requires Unshadowed(m, params + Declared(body))
    ensures FlatBlock(RwBlock(m, body), [params]) == RenamedAll(m, BlockRefs(m, body, [params]))
  {
    BlockUnshadowed(m, body, [params], params + Declared(body));
    RenamingPreservesBinding(m, params, body);
  }

  // --- an own item with the name of a qualifier ---

  // There `q.f` means the import's item in an expression, and the own item in a
  // target; and the export check looks at the expression only.
  lemma ClashDisagrees(m: Module, q: string, f: string, sc: Scopes)
    requires PlainQualifiers(m) && Plain(sc) && m.prefix != "" && q in m.own && q in m.exports && !Bound(q, sc)
    ensures ExprRefs(m, FieldAccess(Ident(q), f), sc) == PlaceRefs(m, LField(LName(q), f), sc) == [ImportRef(q, f)]
    ensures FlatRefs(RwExpr(m, FieldAccess(Ident(q), f)), sc) == [Renamed(m, ImportRef(q, f))]
    ensures FlatPlace(RwPlace(m, LField(LName(q), f)), sc) == [Renamed(m, OwnRef(q))]
    ensures ExprErrors(m, FieldAccess(Ident(q), f)) == Unexported(m, [ImportRef(q, f)]) && PlaceErrors(m, LField(LName(q), f)) == []
  {
    assert [ImportRef(q, f)][1..] == [];
    DottedIsNoImport(m, q);
    DottedIsUnbound(q, f, sc);
    DottedIsUnbound(m.prefix, q, sc);
    assert (m.prefix + "." + q)[|m.prefix|] == '.';
  }

  // --- what the shadowing check sees ---

  // The check runs on the flattened program, where an imported module's own
  // names carry their prefix and qualifiers are no names at all: a local with
  // the bare name of an own item, or with the name of a qualifier, hides
  // nothing there, and the rewrite has already captured its uses.
  lemma {:induction false} FlatCheckMissesCapture(m: Module, x: string, f: string, globals: set<string>)
    requires PlainQualifiers(m) && DotFree(x) && x !in globals
    requires (m.prefix != "" && x in m.own) || x in m.exports
    ensures
      var use := if x in m.exports then FieldAccess(Ident(x), f) else Ident(x);
      var body := Block([VarDecl(x, false, IntLit(0))], Some(use));
      && Declared(RwBlock(m, body)) !! globals
      && FlatBlock(RwBlock(m, body), [{}]) != RenamedAll(m, BlockRefs(m, body, [{}]))
  {
    var use := if x in m.exports then FieldAccess(Ident(x), f) else Ident(x);
    var s := VarDecl(x, false, IntLit(0));
    var body := Block([s], Some(use));
    var sc: Scopes := [{}, {x}];
    assert body.stmts[0] == s;
    assert Declared(body) == DeclaredUpTo(body, 1) == {x};
    var rw := RwBlock(m, body);
    assert rw.stmts[0] == RwStmt(m, s) == s;
    assert Declared(rw) == DeclaredUpTo(rw, 1) == {x};
    RenamingPreservesBinding(m, {}, body);
    var sc0: Scopes := [{}, {}];
    assert [{}] + [{}] == sc0;
    var empty: set<string> := {};
    assert sc0[1] == empty && empty + {x} == {x};
    assert Declare(s, sc0) == sc;
    assert x in sc[1] && Bound(x, sc);
    assert !UncapturedOpt(m, body.trailing, sc);
    assert !UncapturedFrom(m, body, 1, sc);
    assert !UncapturedFrom(m, body, 0, sc0);
  }
}
