// Consts whose initializers call functions are computed by the interpreter and
// written back as literals.
module FoldConsts {
  import opened Ast
  import opened Comptime
  import opened ComptimeLaws
  import opened ConstEval
  import opened ConstResolution
  import opened Interp

  // The interpreter as an evaluator of initializers: fresh counters, no locals.
  function Budgeted(fns: map<string, Function>, limit: nat, nesting: nat): Evaluator<Value> {
    (e, known) => Allowed(Eval(Env(fns, known), e, map[], limit + 1), 0, 0, limit, nesting)
  }

  // One top-level evaluation, by the interpreter.
  method EvalToVal(e: Expr, fns: map<string, Function>, known: Locals, limit: nat, nesting: nat) returns (r: Option<Value>)
    ensures r == Budgeted(fns, limit, nesting)(e, known)
  {
    var interp := new Interpreter(Env(fns, known), limit, nesting);
    r := interp.Eval(e, map[], limit + 1);
  }

  // What an expression means at compile time, without any budget.
  ghost predicate Means(fns: map<string, Function>, known: Locals, e: Expr, v: Value) {
    exists fuel: nat :: Eval(Env(fns, known), e, map[], fuel).Got? && Eval(Env(fns, known), e, map[], fuel).value == v
  }

  lemma {:induction false} MeaningIsUnique(fns: map<string, Function>, known: Locals, e: Expr, v: Value, w: Value)
    requires Means(fns, known, e, v) && Means(fns, known, e, w)
    ensures v == w
  {
    var c := Env(fns, known);
    var f: nat :| Eval(c, e, map[], f).Got? && Eval(c, e, map[], f).value == v;
    var g: nat :| Eval(c, e, map[], g).Got? && Eval(c, e, map[], g).value == w;
    EvalStable(c, c, e, map[], f, if f > g then f else g);
    EvalStable(c, c, e, map[], g, if f > g then f else g);
  }

  // The budget only ever takes answers away: whatever the interpreter answers is
  // what the expression means, any larger budget gives the same answer, and
  // everything that has a meaning is answered under some budget.
  lemma {:induction false} BudgetOnlyWithholds(fns: map<string, Function>, known: Locals, e: Expr, v: Value)
    ensures (exists limit: nat, nesting: nat :: Budgeted(fns, limit, nesting)(e, known) == Some(v)) <==> Means(fns, known, e, v)
  {
    if limit: nat, nesting: nat :| Budgeted(fns, limit, nesting)(e, known) == Some(v) { AnswerIsMeaning(fns, known, e, v, limit, nesting); }
    if Means(fns, known, e, v) {
      var f: nat :| Eval(Env(fns, known), e, map[], f).Got? && Eval(Env(fns, known), e, map[], f).value == v;
      var limit, nesting := MeaningIsAnswered(fns, known, e, v, f);
      assert Budgeted(fns, limit, nesting)(e, known) == Some(v);
    }
  }

  lemma AnswerIsMeaning(fns: map<string, Function>, known: Locals, e: Expr, v: Value, limit: nat, nesting: nat)
    requires Budgeted(fns, limit, nesting)(e, known) == Some(v)
    ensures Means(fns, known, e, v)
  {
    var a := Eval(Env(fns, known), e, map[], limit + 1);
    assert Allowed(a, 0, 0, limit, nesting) == Some(v);
  }

  lemma MeaningIsAnswered(fns: map<string, Function>, known: Locals, e: Expr, v: Value, f: nat) returns (limit: nat, nesting: nat)
    requires var a := Eval(Env(fns, known), e, map[], f); a.Got? && a.value == v
    ensures Budgeted(fns, limit, nesting)(e, known) == Some(v)
  {
    var c := Env(fns, known);
    var a := Eval(c, e, map[], f);
    limit, nesting := (if a.steps > f then a.steps else f), a.deep;
    EvalStable(c, c, e, map[], f, limit + 1);
    assert Allowed(a, 0, 0, limit, nesting) == Some(v);
  }

  lemma {:induction false} LargerBudgetsAgree(fns: map<string, Function>, known: Locals, e: Expr, limit: nat, nesting: nat, limit2: nat, nesting2: nat)
    requires limit <= limit2 && nesting <= nesting2 && Budgeted(fns, limit, nesting)(e, known).Some?
    ensures Budgeted(fns, limit2, nesting2)(e, known) == Budgeted(fns, limit, nesting)(e, known)
  {
    var c := Env(fns, known);
    var (a, b) := (Eval(c, e, map[], limit + 1), Eval(c, e, map[], limit2 + 1));
    assert Allowed(a, 0, 0, limit, nesting).Some?;
    EvalStable(c, c, e, map[], limit + 1, limit2 + 1);
    LargerAllowed(a, limit, nesting, limit2, nesting2);
    assert a == b;
  }

  lemma LargerAllowed<T>(a: Answer<T>, limit: nat, nesting: nat, limit2: nat, nesting2: nat)
    requires limit <= limit2 && nesting <= nesting2 && Allowed(a, 0, 0, limit, nesting).Some?
    ensures Allowed(a, 0, 0, limit2, nesting2) == Allowed(a, 0, 0, limit, nesting)
  {}

  lemma {:induction false} BudgetedIsMonotone(fns: map<string, Function>, limit: nat, nesting: nat)
    ensures Monotone(Budgeted(fns, limit, nesting))
  {
    var ev := Budgeted(fns, limit, nesting);
    forall e, m, n | ev(e, m).Some? && Within(m, n) ensures ev(e, n) == ev(e, m) {
      EvalStable(Env(fns, m), Env(fns, n), e, map[], limit + 1, limit + 1);
    }
  }

  // --- the pass ---

  // Whether an expression calls an ordinary function, in a position the walk
  // looks at.
  predicate HasFnCall(e: Expr) {
    match e
    case Call(callee, args) => callee != Ident("len") || exists a <- args :: HasFnCall(a)
    case Group(i) => HasFnCall(i)
    case Cast(i, _) => HasFnCall(i)
    case Unary(_, i) => HasFnCall(i)
    case Binary(l, _, r) => HasFnCall(l) || HasFnCall(r)
    case ArrayInit(es) => exists x <- es :: HasFnCall(x)
    case Index(b, i) => HasFnCall(b) || HasFnCall(i)
    case _ => false
  }

  function Folded(it: Item, vals: Locals): Item {
    if HasFnCall(it.init) && it.name in vals then Item(it.name, ToExpr(vals[it.name])) else it
  }

  // Resolves every const, then replaces the initializers that called functions.
  method FoldConstCalls(items: seq<Item>, fns: map<string, Function>, limit: nat, nesting: nat) returns (r: seq<Item>, vals: Locals)
    requires Distinct(items)
    ensures Limit(items, Budgeted(fns, limit, nesting), vals)
    ensures |r| == |items| && forall i :: 0 <= i < |r| ==> r[i] == Folded(items[i], vals)
  {
    BudgetedIsMonotone(fns, limit, nesting);
    var rounds;
    vals, rounds := Collect(items, Budgeted(fns, limit, nesting));
    r := items;
    for i := 0 to |items|
      invariant |r| == |items|
      invariant forall j :: 0 <= j < |r| ==> r[j] == if j < i then Folded(items[j], vals) else items[j]
    {
      if HasFnCall(items[i].init) && items[i].name in vals {
        r := r[i := Item(items[i].name, ToExpr(vals[items[i].name]))];
      }
    }
  }

  // A value whose literal says the same and can be evaluated within the budget.
  predicate Writable(v: Value, limit: nat) { Small(v) && LiteralSteps(v) <= limit }

  // A value survives being written back exactly when it is writable: an integer
  // of magnitude 2^64 or more comes back changed, at any depth.
  lemma {:induction false} WrittenBackExactly(fns: map<string, Function>, limit: nat, nesting: nat, v: Value, known: Locals)
    ensures Budgeted(fns, limit, nesting)(ToExpr(v), known) == Some(v) <==> Writable(v, limit)
  {
    LiteralEvaluates(Env(fns, known), v, map[], limit + 1);
    RereadExactly(v);
  }

  lemma FoldedReplaces(it: Item, fns: map<string, Function>, limit: nat, nesting: nat, vals: Locals)
    requires HasFnCall(it.init) && it.name in vals ==> Writable(vals[it.name], limit)
    ensures Replaced(it, Folded(it, vals), Budgeted(fns, limit, nesting), vals)
  {
    if HasFnCall(it.init) && it.name in vals {
      var v := vals[it.name];
      forall known ensures Budgeted(fns, limit, nesting)(ToExpr(v), known) == Some(v) { WrittenBackExactly(fns, limit, nesting, v, known); }
    }
  }

  // Folding changes no const's value, and leaves none out, exactly when every
  // folded value is writable.
  lemma {:induction false} FoldingKeepsValues(items: seq<Item>, fns: map<string, Function>, limit: nat, nesting: nat, r: seq<Item>, vals: Locals, after: Locals)
    requires Distinct(items) && Limit(items, Budgeted(fns, limit, nesting), vals)
    requires |r| == |items| && forall i :: 0 <= i < |r| ==> r[i] == Folded(items[i], vals)
    requires Limit(r, Budgeted(fns, limit, nesting), after)
    ensures after == vals <==> forall it <- items :: HasFnCall(it.init) && it.name in vals ==> Writable(vals[it.name], limit)
  {
    BudgetedIsMonotone(fns, limit, nesting);
    var ev := Budgeted(fns, limit, nesting);
    if after == vals {
      LimitSettled(r, ev, after);
      forall it | it in items && HasFnCall(it.init) && it.name in vals ensures Writable(vals[it.name], limit) {
        var i :| 0 <= i < |items| && items[i] == it;
        assert r[i] in r && r[i] == Item(it.name, ToExpr(vals[it.name]));
        WrittenBackExactly(fns, limit, nesting, vals[it.name], after);
      }
    }
    if forall it <- items :: HasFnCall(it.init) && it.name in vals ==> Writable(vals[it.name], limit) {
      forall i | 0 <= i < |items| ensures Replaced(items[i], r[i], ev, vals) { FoldedReplaces(items[i], fns, limit, nesting, vals); }
      ReplacingKeepsValues(items, r, ev, vals, after);
    }
  }

  // --- the passes after folding, which use the plain evaluator ---

  // The forms the plain evaluator knows.
  predicate PlainForm(e: Expr) {
    match e
    case IntLit(_) => true
    case BoolLit(_) => true
    case Ident(_) => true
    case Group(i) => PlainForm(i)
    case Cast(i, _) => PlainForm(i)
    case Unary(_, i) => PlainForm(i)
    case Binary(l, _, r) => PlainForm(l) && PlainForm(r)
    case _ => false
  }

  function Size(e: Expr): nat {
    match e
    case Group(i) => 1 + Size(i)
    case Cast(i, _) => 1 + Size(i)
    case Unary(_, i) => 1 + Size(i)
    case Binary(l, _, r) => 1 + Size(l) + Size(r)
    case _ => 1
  }

  function Scalars(m: map<string, ConstVal>): Locals { map x <- m :: Scalar(m[x]) }

  // On the forms it knows the plain evaluator answers exactly when the
  // interpreter does, and the same; of the others it knows nothing.
  lemma {:induction false} PlainIsInterpreted(fns: map<string, Function>, m: map<string, ConstVal>, e: Expr, fuel: nat)
    ensures EvalConst(e, m).Some? ==> PlainForm(e)
    ensures PlainForm(e) ==> Eval(Env(fns, Scalars(m)), e, map[], fuel) == From(ScalarOf(EvalConst(e, m)), Size(e), 0)
    decreases e
  {
    match e
    case Group(i) => PlainIsInterpreted(fns, m, i, fuel);
    case Cast(i, _) => PlainIsInterpreted(fns, m, i, fuel);
    case Unary(_, i) => PlainIsInterpreted(fns, m, i, fuel);
    case Binary(l, _, r) =>
      PlainIsInterpreted(fns, m, l, fuel);
      PlainIsInterpreted(fns, m, r, fuel);
    case _ =>
  }

  // Every initializer of those forms fits the budget.
  ghost predicate Affordable(items: seq<Item>, limit: nat) { forall it <- items :: PlainForm(it.init) ==> Size(it.init) <= limit }

  ghost predicate Agree(m: map<string, ConstVal>, vals: Locals) { forall x <- m :: x in vals && vals[x] == Scalar(m[x]) }

  // What the plain passes resolve is what the interpreter resolves.
  lemma {:induction false} PlainPassesAgree(items: seq<Item>, fns: map<string, Function>, limit: nat, nesting: nat, vals: Locals, plain: map<string, ConstVal>)
    requires Distinct(items) && Affordable(items, limit)
    requires Limit(items, Budgeted(fns, limit, nesting), vals) && Limit(items, Plain(), plain)
    ensures Agree(plain, vals)
  {
    BudgetedIsMonotone(fns, limit, nesting);
    LimitSettled(items, Budgeted(fns, limit, nesting), vals);
    var k: nat :| plain == Stage(items, Plain(), k) && Stage(items, Plain(), k + 1) == plain;
    PlainStageIn(items, fns, limit, nesting, vals, k);
  }

  lemma {:induction false} PlainStageIn(items: seq<Item>, fns: map<string, Function>, limit: nat, nesting: nat, vals: Locals, k: nat)
    requires Distinct(items) && Affordable(items, limit) && Settled(items, Budgeted(fns, limit, nesting), vals)
    requires forall it <- items :: it.name in vals ==> Budgeted(fns, limit, nesting)(it.init, vals) == Some(vals[it.name])
    ensures Agree(Stage(items, Plain(), k), vals)
    decreases k
  {
    if k > 0 {
      PlainStageIn(items, fns, limit, nesting, vals, k - 1);
      var (known, next) := (Stage(items, Plain(), k - 1), Stage(items, Plain(), k));
      forall x | x in next ensures x in vals && vals[x] == Scalar(next[x]) {
        StageNames(items, Plain(), k, x);
        var it :| it in items && it.name == x;
        StageAt(items, Plain(), k - 1, it);
        PlainValue(fns, limit, nesting, it.init, known, vals, next[x]);
      }
    }
  }

  lemma PlainValue(fns: map<string, Function>, limit: nat, nesting: nat, e: Expr, known: map<string, ConstVal>, vals: Locals, v: ConstVal)
    requires Plain()(e, known) == Some(v) && (PlainForm(e) ==> Size(e) <= limit) && Agree(known, vals)
    ensures Budgeted(fns, limit, nesting)(e, vals) == Some(Scalar(v))
  {
    PlainIsInterpreted(fns, known, e, limit + 1);
    AnswerCarries(fns, limit, nesting, e, Scalars(known), vals, Scalar(v), Size(e));
  }

  lemma AnswerCarries(fns: map<string, Function>, limit: nat, nesting: nat, e: Expr, m: Locals, n: Locals, v: Value, steps: nat)
    requires Eval(Env(fns, m), e, map[], limit + 1) == Got(v, steps, 0) && steps <= limit && Within(m, n)
    ensures Budgeted(fns, limit, nesting)(e, n) == Some(v)
  {
    EvalStable(Env(fns, m), Env(fns, n), e, map[], limit + 1, limit + 1);
    assert Allowed(Eval(Env(fns, n), e, map[], limit + 1), 0, 0, limit, nesting) == Some(v);
  }

  // Of the consts whose initializers called functions, the plain passes know the
  // scalar ones, by the values their literals denote.
  lemma {:induction false} FoldedAreKnown(items: seq<Item>, r: seq<Item>, vals: Locals, plain: map<string, ConstVal>, it: Item)
    requires Distinct(items) && |r| == |items| && forall i :: 0 <= i < |r| ==> r[i] == Folded(items[i], vals)
    requires Limit(r, Plain(), plain) && it in items && HasFnCall(it.init) && it.name in vals
    ensures it.name in plain <==> vals[it.name].Scalar?
    ensures it.name in plain ==> Scalar(plain[it.name]) == Reread(vals[it.name])
  {
    PlainIsMonotone();
    LimitSettled(r, Plain(), plain);
    var i :| 0 <= i < |items| && items[i] == it;
    var v := vals[it.name];
    assert r[i] in r && r[i] == Item(it.name, ToExpr(v));
    PlainReads(v, plain);
  }

  lemma PlainReads(v: Value, m: map<string, ConstVal>)
    ensures EvalConst(ToExpr(v), m) == if v.Scalar? then Some(Reread(v).c) else None
  {
    if v.Scalar? && v.c.Int? && v.c.n < 0 {
      var n := (-v.c.n) % U64;
      assert Fits(-n);
      assert EvalConst(IntLit(n), m) == Some(Int(n));
    }
  }
}
