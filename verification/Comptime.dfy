// What a compile-time call means, with no budget: a big-step semantics with
// fuel for calls and loop rounds, which also says how many steps a budgeted
// interpreter takes and how deep it nests calls.
module Comptime {
  import opened Ast
  import opened ConstEval

  datatype Value = Scalar(c: ConstVal) | Array(elems: seq<Value>)

  type Locals = map<string, Value>

  datatype Function = Function(params: seq<string>, body: Block)

  datatype Env = Env(fns: map<string, Function>, consts: Locals)

  datatype Flow = Normal | Broke | Continued | Returned(value: Option<Value>)

  // `Got`: an answer, after so many steps, with calls nested so deep. `Stuck`:
  // not evaluable. `Endless`: no answer with this fuel.
  datatype Answer<+T> = Got(value: T, steps: nat, deep: nat) | Stuck | Endless

  function Max(a: nat, b: nat): nat { if a > b then a else b }

  // No answer, for the reason `a` has none.
  function Fail<T, U>(a: Answer<T>): Answer<U> { if a.Endless? then Endless else Stuck }

  // The answer of a later part, after `steps` steps nested `deep`.
  function After<T>(steps: nat, deep: nat, a: Answer<T>): Answer<T> {
    if a.Got? then Got(a.value, steps + a.steps, Max(deep, a.deep)) else a
  }

  function From<T>(r: Option<T>, steps: nat, deep: nat): Answer<T> {
    if r.Some? then Got(r.value, steps, deep) else Stuck
  }

  function AsInt(v: Value): Option<int> { if v.Scalar? && v.c.Int? then Some(v.c.n) else None }

  function AsBool(v: Value): Option<bool> { if v.Scalar? && v.c.Bool? then Some(v.c.b) else None }

  function ScalarOf(r: Option<ConstVal>): Option<Value> { if r.Some? then Some(Scalar(r.value)) else None }

  function BinopValues(op: BinaryOp, a: Value, b: Value): Option<Value> {
    if a.Scalar? && b.Scalar? then ScalarOf(Binop(op, a.c, b.c)) else None
  }

  function UnopValue(op: UnaryOp, v: Value): Option<Value> {
    if v.Scalar? then ScalarOf(Unop(op, v.c)) else None
  }

  function CastValue(v: Value, ty: string): Option<Value> {
    if v.Scalar? then Some(Scalar(ApplyCast(v.c, ty))) else None
  }

  function Element(a: Value, i: Value): Option<Value> {
    if a.Array? && AsInt(i).Some? && 0 <= AsInt(i).value < |a.elems| then Some(a.elems[AsInt(i).value]) else None
  }

  // `v` with the element at the end of the index path replaced.
  function Stored(v: Value, path: seq<int>, x: Value): Option<Value>
    decreases |path|
  {
    if path == [] then Some(x)
    else if v.Array? && 0 <= path[0] < |v.elems| then
      match Stored(v.elems[path[0]], path[1..], x)
      case None => None
      case Some(e) => Some(Array(v.elems[path[0] := e]))
    else None
  }

  function Bound(params: seq<string>, args: seq<Value>, i: nat): Locals
    requires i <= |params| == |args|
  {
    if i == 0 then map[] else Bound(params, args, i - 1)[params[i - 1] := args[i - 1]]
  }

  function Lookup(c: Env, x: string, l: Locals): Option<Value> {
    if x in l then Some(l[x]) else if x in c.consts then Some(c.consts[x]) else None
  }

  function Eval(c: Env, e: Expr, l: Locals, fuel: nat): (r: Answer<Value>)
    ensures r.Got? ==> r.steps > 0
    decreases fuel, e, 0
  {
    match e
    case IntLit(n) => Got(Scalar(Int(n)), 1, 0)
    case BoolLit(b) => Got(Scalar(Bool(b)), 1, 0)
    case Ident(x) => From(Lookup(c, x, l), 1, 0)
    case Group(i) => After(1, 0, Eval(c, i, l, fuel))
    case Cast(i, ty) =>
      var a := Eval(c, i, l, fuel);
      if !a.Got? then a else From(CastValue(a.value, ty), 1 + a.steps, a.deep)
    case Unary(op, i) =>
      var a := Eval(c, i, l, fuel);
      if !a.Got? then a else From(UnopValue(op, a.value), 1 + a.steps, a.deep)
    case Binary(x, op, y) =>
      // The left operand must be a scalar before the right one is evaluated.
      var a := Eval(c, x, l, fuel);
      if !a.Got? then a
      else if !a.value.Scalar? then Stuck
      else
        var b := Eval(c, y, l, fuel);
        if !b.Got? then b else From(BinopValues(op, a.value, b.value), 1 + a.steps + b.steps, Max(a.deep, b.deep))
    case Index(x, y) =>
      var a := Eval(c, x, l, fuel);
      if !a.Got? then a
      else
        var b := Eval(c, y, l, fuel);
        if !b.Got? then b else From(Element(a.value, b.value), 1 + a.steps + b.steps, Max(a.deep, b.deep))
    case ArrayInit(es) =>
      var a := EvalAll(c, es, l, fuel);
      if a.Got? then Got(Array(a.value), 1 + a.steps, a.deep) else Fail(a)
    case Call(callee, args) =>
      if !callee.Ident? || callee.name !in c.fns then Stuck
      else
        var a := EvalAll(c, args, l, fuel);
        if !a.Got? then Fail(a)
        else if fuel == 0 then Endless
        else After(1 + a.steps, a.deep, CallFn(c, c.fns[callee.name], a.value, fuel - 1))
    case _ => Stuck
  }

  function EvalAll(c: Env, es: seq<Expr>, l: Locals, fuel: nat): Answer<seq<Value>>
    decreases fuel, es
  {
    if es == [] then Got([], 0, 0)
    else
      var a := Eval(c, es[0], l, fuel);
      if !a.Got? then Fail(a)
      else
        var b := EvalAll(c, es[1..], l, fuel);
        if b.Got? then Got([a.value] + b.value, a.steps + b.steps, Max(a.deep, b.deep)) else b
  }

  // A call is one level deeper than its body. A body that runs off its end
  // yields its trailing expression.
  function CallFn(c: Env, f: Function, args: seq<Value>, fuel: nat): (r: Answer<Value>)
    ensures r.Got? ==> r.steps > 0 && r.deep > 0
    decreases fuel
  {
    if |args| != |f.params| then Stuck
    else
      var a := ExecBlock(c, f.body, 0, Bound(f.params, args, |args|), fuel);
      if !a.Got? then Fail(a)
      else
        match a.value.0
        case Returned(v) => From(v, 1 + a.steps, 1 + a.deep)
        case Normal =>
          if f.body.trailing == None then Stuck
          else
            var b := Eval(c, f.body.trailing.value, a.value.1, fuel);
            if b.Got? then Got(b.value, 1 + a.steps + b.steps, 1 + Max(a.deep, b.deep)) else b
        case _ => Stuck
  }

  function ExecBlock(c: Env, b: Block, i: nat, l: Locals, fuel: nat): Answer<(Flow, Locals)>
    requires i <= |b.stmts|
    decreases fuel, b, |b.stmts| - i
  {
    if i == |b.stmts| then Got((Normal, l), 0, 0)
    else
      var a := ExecStmt(c, b.stmts[i], l, fuel);
      if !a.Got? || a.value.0 != Normal then a
      else After(a.steps, a.deep, ExecBlock(c, b, i + 1, a.value.1, fuel))
  }

  function ExecStmt(c: Env, s: Stmt, l: Locals, fuel: nat): (r: Answer<(Flow, Locals)>)
    ensures r.Got? ==> r.steps > 0
    decreases fuel, s, 1
  {
    match s
    case VarDecl(x, _, init) =>
      var a := Eval(c, init, l, fuel);
      if a.Got? then Got((Normal, l[x := a.value]), 1 + a.steps, a.deep) else Fail(a)
    case Assign(lv, v) =>
      var a := Eval(c, v, l, fuel);
      if a.Got? then After(1 + a.steps, a.deep, Store(c, lv, a.value, l, fuel)) else Fail(a)
    case CompoundAssign(lv, op, v) =>
      var a := ReadLValue(c, lv, l, fuel);
      if !a.Got? then Fail(a)
      else if !a.value.Scalar? then Stuck
      else
        var b := Eval(c, v, l, fuel);
        if !b.Got? then Fail(b)
        else
          (match BinopValues(op, a.value, b.value)
           case None => Stuck
           case Some(x) => After(1 + a.steps + b.steps, Max(a.deep, b.deep), Store(c, lv, x, l, fuel)))
    case If(cond, t, e) =>
      var a := Eval(c, cond, l, fuel);
      if !a.Got? then Fail(a)
      else if AsBool(a.value).None? then Stuck
      else After(1 + a.steps, a.deep, ExecBlock(c, if AsBool(a.value).value then t else e, 0, l, fuel))
    case While(_, _) => After(1, 0, ExecLoop(c, s, l, fuel))
    case Loop(_) => After(1, 0, ExecLoop(c, s, l, fuel))
    case For(_, start, _, end, step, _) =>
      var a := EvalInt(c, start, l, fuel);
      if !a.Got? then Fail(a)
      else
        var b := EvalInt(c, end, l, fuel);
        if !b.Got? then Fail(b)
        else
          var k := if step == None then Got(1, 0, 0) else EvalInt(c, step.value, l, fuel);
          if !k.Got? then Fail(k)
          else After(1 + a.steps + b.steps + k.steps, Max(Max(a.deep, b.deep), k.deep), ExecFor(c, s, a.value, b.value, k.value, l, fuel))
    case Return(None) => Got((Returned(None), l), 1, 0)
    case Return(Some(e)) =>
      var a := Eval(c, e, l, fuel);
      if a.Got? then Got((Returned(Some(a.value)), l), 1 + a.steps, a.deep) else Fail(a)
    case Break => Got((Broke, l), 1, 0)
    case Continue => Got((Continued, l), 1, 0)
    case BlockStmt(b) => After(1, 0, ExecBlock(c, b, 0, l, fuel))
    // An expression statement is not evaluated.
    case ExprStmt(_) => Got((Normal, l), 1, 0)
    case Match(_, _) => Stuck
    case Claim(_, _) => Stuck
  }

  function EvalInt(c: Env, e: Expr, l: Locals, fuel: nat): Answer<int>
    decreases fuel, e, 1
  {
    var a := Eval(c, e, l, fuel);
    if !a.Got? then Fail(a) else From(AsInt(a.value), a.steps, a.deep)
  }

  // A body's flow, as the loop around it sees it: go on, or be left.
  function Ends(f: Flow): Option<Flow> {
    match f case Normal => None case Continued => None case Broke => Some(Normal) case Returned(v) => Some(f)
  }

  // Whether a loop goes round again: a `loop` always does.
  function LoopTest(c: Env, s: Stmt, l: Locals, fuel: nat): Answer<bool>
    requires s.While? || s.Loop?
    decreases fuel, s, 0
  {
    if s.Loop? then Got(true, 0, 0)
    else
      var a := Eval(c, s.cond, l, fuel);
      if !a.Got? then Fail(a) else From(AsBool(a.value), a.steps, a.deep)
  }

  function ExecLoop(c: Env, s: Stmt, l: Locals, fuel: nat): (r: Answer<(Flow, Locals)>)
    requires s.While? || s.Loop?
    ensures r.Got? ==> r.steps > 0
    decreases fuel, s, 0
  {
    if fuel == 0 then Endless
    else
      var a := LoopTest(c, s, l, fuel - 1);
      if !a.Got? then Fail(a)
      else if !a.value then Got((Normal, l), 1 + a.steps, a.deep)
      else
        var b := ExecBlock(c, s.body, 0, l, fuel - 1);
        if !b.Got? then b
        else if Ends(b.value.0).Some? then Got((Ends(b.value.0).value, b.value.1), 1 + a.steps + b.steps, Max(a.deep, b.deep))
        else After(1 + a.steps + b.steps, Max(a.deep, b.deep), ExecLoop(c, s, b.value.1, fuel - 1))
  }

  // One round of a loop: how the loop ends with it, if it does.
  function Round(c: Env, s: Stmt, l: Locals, fuel: nat): Answer<(Option<Flow>, Locals)>
    requires s.While? || s.Loop?
  {
    var a := LoopTest(c, s, l, fuel);
    if !a.Got? then Fail(a)
    else if !a.value then Got((Some(Normal), l), 1 + a.steps, a.deep)
    else
      var b := ExecBlock(c, s.body, 0, l, fuel);
      if !b.Got? then Fail(b) else Got((Ends(b.value.0), b.value.1), 1 + a.steps + b.steps, Max(a.deep, b.deep))
  }

  lemma LoopIsRounds(c: Env, s: Stmt, l: Locals, fuel: nat)
    requires s.While? || s.Loop?
    ensures var a := Round(c, s, l, fuel);
      ExecLoop(c, s, l, fuel + 1) ==
        if !a.Got? then Fail(a)
        else if a.value.0.Some? then Got((a.value.0.value, a.value.1), a.steps, a.deep)
        else After(a.steps, a.deep, ExecLoop(c, s, a.value.1, fuel))
  {}

  function ExecFor(c: Env, s: Stmt, i: int, end: int, step: int, l: Locals, fuel: nat): (r: Answer<(Flow, Locals)>)
    requires s.For?
    ensures r.Got? ==> r.steps > 0
    decreases fuel, s, 0
  {
    if fuel == 0 then Endless
    else if !(if s.dir == Upto then i < end else i > end) then Got((Normal, l), 1, 0)
    else
      var b := ExecBlock(c, s.body, 0, l[s.v := Scalar(Int(i))], fuel - 1);
      if !b.Got? then b
      else if Ends(b.value.0).Some? then Got((Ends(b.value.0).value, b.value.1), 1 + b.steps, b.deep)
      else
        var next := if s.dir == Upto then i + step else i - step;
        if !Fits(next) then Stuck
        else After(1 + b.steps, b.deep, ExecFor(c, s, next, end, step, b.value.1, fuel - 1))
  }

  // Store at a name or an element path.
  function Store(c: Env, lv: LValue, v: Value, l: Locals, fuel: nat): Answer<(Flow, Locals)>
    decreases fuel, lv, 1
  {
    match lv
    case LName(x) => Got((Normal, l[x := v]), 0, 0)
    case LIndex(_, _) =>
      var a := IndexPath(c, lv, l, fuel);
      if !a.Got? then Fail(a)
      else if a.value.0 !in l then Stuck
      else
        (match Stored(l[a.value.0], a.value.1, v)
         case None => Stuck
         case Some(w) => Got((Normal, l[a.value.0 := w]), a.steps, a.deep))
    case _ => Stuck
  }

  // The base name and the indices, outer to inner. The last index is evaluated
  // first.
  function IndexPath(c: Env, lv: LValue, l: Locals, fuel: nat): Answer<(string, seq<int>)>
    decreases fuel, lv, 0
  {
    match lv
    case LName(x) => Got((x, []), 0, 0)
    case LIndex(b, idx) =>
      var a := EvalIndex(c, idx, l, fuel);
      if !a.Got? then Fail(a)
      else
        var p := IndexPath(c, b, l, fuel);
        if p.Got? then Got((p.value.0, p.value.1 + [a.value]), a.steps + p.steps, Max(a.deep, p.deep)) else p
    case _ => Stuck
  }

  function EvalIndex(c: Env, e: Expr, l: Locals, fuel: nat): Answer<int>
    decreases fuel, e, 2
  {
    var a := EvalInt(c, e, l, fuel);
    if a.Got? && a.value < 0 then Stuck else a
  }

  function ReadLValue(c: Env, lv: LValue, l: Locals, fuel: nat): Answer<Value>
    decreases fuel, lv, 0
  {
    match lv
    case LName(x) => if x in l then Got(l[x], 0, 0) else Stuck
    case LIndex(b, idx) =>
      var a := EvalIndex(c, idx, l, fuel);
      if !a.Got? then Fail(a)
      else
        var r := ReadLValue(c, b, l, fuel);
        if !r.Got? then r else From(Element(r.value, Scalar(Int(a.value))), a.steps + r.steps, Max(a.deep, r.deep))
    case _ => Stuck
  }
}
