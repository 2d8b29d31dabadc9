// The compile-time interpreter: a step counter and a call depth, each with a
// limit. It answers exactly where the unbudgeted semantics has an answer that
// the two limits leave room for.
module Interp {
  import opened Ast
  import opened ConstEval
  import opened Comptime

  // The answer a budget allows: one that fits both limits. The compiler's are 10
  // million steps and 256 nested calls; nothing here depends on that.
  function Allowed<T>(a: Answer<T>, steps: nat, depth: nat, limit: nat, nesting: nat): Option<T> {
    if a.Got? && steps + a.steps <= limit && depth + a.deep <= nesting then Some(a.value) else None
  }

  ghost predicate Meets<T>(a: Answer<T>, r: Option<T>, steps: nat, after: nat, depth: nat, limit: nat, nesting: nat) {
    r == Allowed(a, steps, depth, limit, nesting) && (r.Some? ==> after == steps + a.steps) && steps <= after <= limit + 1
  }

  // Where a loop stands after some rounds: what it will answer is what it has
  // taken so far and then the rest.
  ghost predicate Looping(whole: Answer<(Flow, Locals)>, c: Env, s: Stmt, l: Locals, fuel: nat, n: nat, d: nat)
    requires s.While? || s.Loop?
  {
    whole == After(n, d, Comptime.ExecLoop(c, s, l, fuel))
  }

  // What a round means for the loop: it ends there, or goes on.
  lemma RoundMeets(whole: Answer<(Flow, Locals)>, c: Env, s: Stmt, l: Locals, fuel: nat, n: nat, d: nat, f: Option<(Option<Flow>, Locals)>,
                   steps: nat, after: nat, depth: nat, limit: nat, nesting: nat) returns (n1: nat, d1: nat)
    requires (s.While? || s.Loop?) && Looping(whole, c, s, l, fuel + 1, n, d)
    requires depth + d <= nesting && Meets(Round(c, s, l, fuel), f, steps + n, after, depth, limit, nesting)
    ensures f == None ==> Meets(whole, None, steps, after, depth, limit, nesting)
    ensures f.Some? && f.value.0.Some? ==> Meets(whole, Some((f.value.0.value, f.value.1)), steps, after, depth, limit, nesting)
    ensures f.Some? && f.value.0.None? ==> after == steps + n1 <= limit && n1 > n && depth + d1 <= nesting && Looping(whole, c, s, f.value.1, fuel, n1, d1)
  {
    LoopIsRounds(c, s, l, fuel);
    var a := Round(c, s, l, fuel);
    n1, d1 := if a.Got? then n + a.steps else n, if a.Got? then Max(d, a.deep) else d;
  }

  class Interpreter {
    const env: Env
    const limit: nat
    const nesting: nat
    var steps: nat
    var depth: nat

    constructor (env: Env, limit: nat, nesting: nat)
      ensures this.env == env && this.limit == limit && this.nesting == nesting && steps == 0 && depth == 0
    {
      this.env, this.limit, this.nesting := env, limit, nesting;
      steps, depth := 0, 0;
    }

    // Room for the rest of the budget in the semantics' fuel.
    ghost predicate Ready(fuel: nat)
      reads this
    {
      steps <= limit && limit - steps < fuel && depth <= nesting
    }

    method Tick() returns (ok: bool)
      modifies this`steps
      ensures steps == old(steps) + 1 && ok == (steps <= limit)
    {
      steps := steps + 1;
      ok := steps <= limit;
    }

    method Eval(e: Expr, l: Locals, ghost fuel: nat) returns (r: Option<Value>)
      requires Ready(fuel)
      modifies this
      ensures Meets(Comptime.Eval(env, e, l, fuel), r, old(steps), steps, depth, limit, nesting) && depth == old(depth)
      decreases limit + 1 - steps, e, 0
    {
      var ok := Tick();
      if !ok { return None; }
      match e
      case IntLit(n) => r := Some(Scalar(Int(n)));
      case BoolLit(b) => r := Some(Scalar(Bool(b)));
      case Ident(x) => r := Lookup(env, x, l);
      case Group(i) => r := Eval(i, l, fuel);
      case Cast(i, ty) =>
        var v := Eval(i, l, fuel);
        r := if v.Some? then CastValue(v.value, ty) else None;
      case Unary(op, i) =>
        var v := Eval(i, l, fuel);
        r := if v.Some? then UnopValue(op, v.value) else None;
      case Binary(x, op, y) => r := EvalBinary(e, l, fuel);
      case Index(x, y) => r := EvalElement(e, l, fuel);
      case ArrayInit(es) =>
        var vs := EvalAll(es, l, fuel);
        r := if vs.Some? then Some(Array(vs.value)) else None;
      case Call(_, _) => r := EvalCall(e, l, fuel);
      case _ => r := None;
    }

    method EvalCall(e: Expr, l: Locals, ghost fuel: nat) returns (r: Option<Value>)
      requires e.Call? && Ready(fuel) && steps > 0 && limit + 1 - steps < fuel
      modifies this
      ensures Meets(Comptime.Eval(env, e, l, fuel), r, old(steps) - 1, steps, depth, limit, nesting) && depth == old(depth)
      decreases limit + 2 - steps, e, -1
    {
      if !e.callee.Ident? || e.callee.name !in env.fns { return None; }
      var vs := EvalAll(e.args, l, fuel);
      if vs == None { return None; }
      r := CallFn(env.fns[e.callee.name], vs.value, fuel - 1);
    }

    method EvalBinary(e: Expr, l: Locals, ghost fuel: nat) returns (r: Option<Value>)
      requires e.Binary? && Ready(fuel) && steps > 0
      modifies this
      ensures Meets(Comptime.Eval(env, e, l, fuel), r, old(steps) - 1, steps, depth, limit, nesting) && depth == old(depth)
      decreases limit + 1 - steps, e, 0
    {
      var a := Eval(e.left, l, fuel);
      if a == None || !a.value.Scalar? { return None; }
      var b := Eval(e.right, l, fuel);
      r := if b.Some? then BinopValues(e.bop, a.value, b.value) else None;
    }

    method EvalElement(e: Expr, l: Locals, ghost fuel: nat) returns (r: Option<Value>)
      requires e.Index? && Ready(fuel) && steps > 0
      modifies this
      ensures Meets(Comptime.Eval(env, e, l, fuel), r, old(steps) - 1, steps, depth, limit, nesting) && depth == old(depth)
      decreases limit + 1 - steps, e, 0
    {
      var a := Eval(e.base, l, fuel);
      if a == None { return None; }
      var b := Eval(e.idx, l, fuel);
      r := if b.Some? then Element(a.value, b.value) else None;
    }

    method EvalAll(es: seq<Expr>, l: Locals, ghost fuel: nat) returns (r: Option<seq<Value>>)
      requires Ready(fuel)
      modifies this
      ensures Meets(Comptime.EvalAll(env, es, l, fuel), r, old(steps), steps, depth, limit, nesting) && depth == old(depth)
      decreases limit + 1 - steps, es
    {
      if es == [] {
        r := Some([]);
      } else {
        var a := Eval(es[0], l, fuel);
        if a == None { return None; }
        var b := EvalAll(es[1..], l, fuel);
        r := if b.Some? then Some([a.value] + b.value) else None;
      }
    }

    // The depth goes up for the call and comes back down whatever its result.
    method CallFn(f: Function, args: seq<Value>, ghost fuel: nat) returns (r: Option<Value>)
      requires Ready(fuel + 1)
      modifies this
      ensures Meets(Comptime.CallFn(env, f, args, fuel), r, old(steps), steps, depth, limit, nesting) && depth == old(depth)
      decreases limit + 1 - steps
    {
      var ok := Tick();
      if !ok { return None; }
      depth := depth + 1;
      if depth > nesting {
        r := None;
      } else {
        r := CallBody(f, args, fuel);
      }
      depth := depth - 1;
    }

    method CallBody(f: Function, args: seq<Value>, ghost fuel: nat) returns (r: Option<Value>)
      requires Ready(fuel) && steps > 0 && depth > 0
      modifies this
      ensures depth == old(depth) && Meets(Comptime.CallFn(env, f, args, fuel), r, old(steps) - 1, steps, depth - 1, limit, nesting)
      decreases limit + 1 - steps, f.body, |f.body.stmts| + 1
    {
      if |args| != |f.params| { return None; }
      var l: Locals := map[];
      for i := 0 to |args|
        invariant l == Bound(f.params, args, i)
      {
        l := l[f.params[i] := args[i]];
      }
      var a := ExecBlock(f.body, l, fuel);
      if a == None { return None; }
      match a.value.0
      case Returned(v) => r := v;
      case Normal => if f.body.trailing == None { r := None; } else { r := Eval(f.body.trailing.value, a.value.1, fuel); }
      case _ => r := None;
    }

    method ExecBlock(b: Block, l0: Locals, ghost fuel: nat) returns (r: Option<(Flow, Locals)>)
      requires Ready(fuel)
      modifies this
      ensures Meets(Comptime.ExecBlock(env, b, 0, l0, fuel), r, old(steps), steps, depth, limit, nesting) && depth == old(depth)
      decreases limit + 1 - steps, b, |b.stmts|
    {
      var l := l0;
      ghost var n: nat, d: nat := 0, 0;
      ghost var whole := Comptime.ExecBlock(env, b, 0, l0, fuel);
      for i := 0 to |b.stmts|
        invariant Ready(fuel) && depth == old(depth) && steps == old(steps) + n && depth + d <= nesting
        invariant whole == After(n, d, Comptime.ExecBlock(env, b, i, l, fuel))
      {
        ghost var a := Comptime.ExecStmt(env, b.stmts[i], l, fuel);
        var s := ExecStmt(b.stmts[i], l, fuel);
        if s == None { return None; }
        l := s.value.1;
        n, d := n + a.steps, Max(d, a.deep);
        if s.value.0 != Normal { return s; }
      }
      r := Some((Normal, l));
    }

    method ExecStmt(s: Stmt, l: Locals, ghost fuel: nat) returns (r: Option<(Flow, Locals)>)
      requires Ready(fuel)
      modifies this
      ensures Meets(Comptime.ExecStmt(env, s, l, fuel), r, old(steps), steps, depth, limit, nesting) && depth == old(depth)
      decreases limit + 1 - steps, s, 2
    {
      var ok := Tick();
      if !ok { return None; }
      match s
      case VarDecl(_, _, _) => r := ExecSimple(s, l, fuel);
      case Assign(_, _) => r := ExecSimple(s, l, fuel);
      case CompoundAssign(_, _, _) => r := ExecCompound(s, l, fuel);
      case If(_, _, _) => r := ExecIf(s, l, fuel);
      case While(_, _) => r := ExecLoop(s, l, fuel);
      case Loop(_) => r := ExecLoop(s, l, fuel);
      case For(_, _, _, _, _, _) => r := ExecFor(s, l, fuel);
      case Return(_) => r := ExecSimple(s, l, fuel);
      case Break => r := Some((Broke, l));
      case Continue => r := Some((Continued, l));
      case BlockStmt(b) => r := ExecBlock(b, l, fuel);
      case ExprStmt(_) => r := Some((Normal, l));
      case _ => r := None;
    }

    method ExecSimple(s: Stmt, l: Locals, ghost fuel: nat) returns (r: Option<(Flow, Locals)>)
      requires (s.VarDecl? || s.Assign? || s.Return?) && Ready(fuel) && steps > 0
      modifies this
      ensures Meets(Comptime.ExecStmt(env, s, l, fuel), r, old(steps) - 1, steps, depth, limit, nesting) && depth == old(depth)
      decreases limit + 1 - steps, s, 1
    {
      if s.Return? && s.result == None { return Some((Returned(None), l)); }
      var v := Eval(if s.VarDecl? then s.init else if s.Assign? then s.value else s.result.value, l, fuel);
      if v == None { return None; }
      match s
      case VarDecl(x, _, _) => r := Some((Normal, l[x := v.value]));
      case Assign(lv, _) => r := Store(lv, v.value, l, fuel);
      case Return(_) => r := Some((Returned(Some(v.value)), l));
    }

    method ExecIf(s: Stmt, l: Locals, ghost fuel: nat) returns (r: Option<(Flow, Locals)>)
      requires s.If? && Ready(fuel) && steps > 0
      modifies this
      ensures Meets(Comptime.ExecStmt(env, s, l, fuel), r, old(steps) - 1, steps, depth, limit, nesting) && depth == old(depth)
      decreases limit + 1 - steps, s, 1
    {
      var v := Eval(s.cond, l, fuel);
      if v == None || AsBool(v.value) == None { return None; }
      if AsBool(v.value).value { r := ExecBlock(s.thn, l, fuel); } else { r := ExecBlock(s.els, l, fuel); }
    }

    method ExecCompound(s: Stmt, l: Locals, ghost fuel: nat) returns (r: Option<(Flow, Locals)>)
      requires s.CompoundAssign? && Ready(fuel) && steps > 0
      modifies this
      ensures Meets(Comptime.ExecStmt(env, s, l, fuel), r, old(steps) - 1, steps, depth, limit, nesting) && depth == old(depth)
      decreases limit + 1 - steps, s, 1
    {
      var cur := ReadLValue(s.target, l, fuel);
      if cur == None || !cur.value.Scalar? { return None; }
      var rhs := Eval(s.value, l, fuel);
      if rhs == None { return None; }
      var new_ := BinopValues(s.op, cur.value, rhs.value);
      if new_ == None { return None; }
      r := Store(s.target, new_.value, l, fuel);
    }

    method LoopTest(s: Stmt, l: Locals, ghost fuel: nat) returns (r: Option<bool>)
      requires (s.While? || s.Loop?) && Ready(fuel)
      modifies this
      ensures Meets(Comptime.LoopTest(env, s, l, fuel), r, old(steps), steps, depth, limit, nesting) && depth == old(depth)
      decreases limit + 1 - steps, s, 0
    {
      if s.Loop? {
        r := Some(true);
      } else {
        var v := Eval(s.cond, l, fuel);
        r := if v.Some? then AsBool(v.value) else None;
      }
    }

    method ExecLoop(s: Stmt, l0: Locals, ghost fuel0: nat) returns (r: Option<(Flow, Locals)>)
      requires (s.While? || s.Loop?) && Ready(fuel0)
      modifies this
      ensures Meets(Comptime.ExecLoop(env, s, l0, fuel0), r, old(steps), steps, depth, limit, nesting) && depth == old(depth)
      decreases limit + 1 - steps, s, 1
    {
      var l := l0;
      ghost var fuel: nat, n: nat, d: nat := fuel0, 0, 0;
      ghost var whole := Comptime.ExecLoop(env, s, l0, fuel0);
      while true
        invariant Ready(fuel) && depth == old(depth) && steps == old(steps) + n && depth + d <= nesting
        invariant Looping(whole, env, s, l, fuel, n, d)
        decreases limit - steps
      {
        fuel := fuel - 1;
        var f := ExecRound(s, l, fuel);
        n, d := RoundMeets(whole, env, s, l, fuel, n, d, f, old(steps), steps, depth, limit, nesting);
        if f == None { return None; }
        l := f.value.1;
        if f.value.0.Some? { return Some((f.value.0.value, l)); }
      }
    }

    // A tick, the test, and the body.
    method ExecRound(s: Stmt, l: Locals, ghost fuel: nat) returns (r: Option<(Option<Flow>, Locals)>)
      requires (s.While? || s.Loop?) && Ready(fuel + 1)
      modifies this
      ensures Meets(Round(env, s, l, fuel), r, old(steps), steps, depth, limit, nesting) && depth == old(depth)
      decreases limit + 1 - steps, s, 0
    {
      var ok := Tick();
      if !ok { return None; }
      var again := LoopTest(s, l, fuel);
      if again == None { return None; }
      if !again.value { return Some((Some(Normal), l)); }
      var f := ExecBlock(s.body, l, fuel);
      if f == None { return None; }
      match f.value.0 {
        case Broke => r := Some((Some(Normal), f.value.1));
        case Returned(v) => r := Some((Some(f.value.0), f.value.1));
        case _ => r := Some((None, f.value.1));
      }
    }

    method ExecFor(s: Stmt, l0: Locals, ghost fuel0: nat) returns (r: Option<(Flow, Locals)>)
      requires s.For? && Ready(fuel0) && steps > 0
      modifies this
      ensures Meets(Comptime.ExecStmt(env, s, l0, fuel0), r, old(steps) - 1, steps, depth, limit, nesting) && depth == old(depth)
      decreases limit + 1 - steps, s, 1
    {
      var start := EvalInt(s.start, l0, fuel0);
      if start == None { return None; }
      var end := EvalInt(s.end, l0, fuel0);
      if end == None { return None; }
      var inc := Some(1);
      if s.step.Some? { inc := EvalInt(s.step.value, l0, fuel0); }
      if inc == None { return None; }
      r := ForRounds(s, start.value, end.value, inc.value, l0, fuel0);
    }

    method ForRounds(s: Stmt, start: int, end: int, inc: int, l0: Locals, ghost fuel0: nat) returns (r: Option<(Flow, Locals)>)
      requires s.For? && Ready(fuel0)
      modifies this
      ensures Meets(Comptime.ExecFor(env, s, start, end, inc, l0, fuel0), r, old(steps), steps, depth, limit, nesting) && depth == old(depth)
      decreases limit + 1 - steps, s, 0
    {
      var i, l := start, l0;
      ghost var fuel: nat, n: nat, d: nat := fuel0, 0, 0;
      ghost var whole := Comptime.ExecFor(env, s, start, end, inc, l0, fuel0);
      while true
        invariant Ready(fuel) && depth == old(depth) && steps == old(steps) + n && depth + d <= nesting
        invariant whole == After(n, d, Comptime.ExecFor(env, s, i, end, inc, l, fuel))
        decreases limit - steps
      {
        var ok := Tick();
        if !ok { return None; }
        fuel := fuel - 1;
        if !(if s.dir == Upto then i < end else i > end) { return Some((Normal, l)); }
        l := l[s.v := Scalar(Int(i))];
        ghost var b := Comptime.ExecBlock(env, s.body, 0, l, fuel);
        var f := ExecBlock(s.body, l, fuel);
        if f == None { return None; }
        l := f.value.1;
        match f.value.0 {
          case Broke => return Some((Normal, l));
          case Returned(v) => return f;
          case _ =>
        }
        i := if s.dir == Upto then i + inc else i - inc;
        if !Fits(i) { return None; }
        n, d := n + 1 + b.steps, Max(d, b.deep);
      }
    }

    method EvalInt(e: Expr, l: Locals, ghost fuel: nat) returns (r: Option<int>)
      requires Ready(fuel)
      modifies this
      ensures Meets(Comptime.EvalInt(env, e, l, fuel), r, old(steps), steps, depth, limit, nesting) && depth == old(depth)
      decreases limit + 1 - steps, e, 1
    {
      var v := Eval(e, l, fuel);
      r := if v.Some? then AsInt(v.value) else None;
    }

    method EvalIndex(e: Expr, l: Locals, ghost fuel: nat) returns (r: Option<int>)
      requires Ready(fuel)
      modifies this
      ensures Meets(Comptime.EvalIndex(env, e, l, fuel), r, old(steps), steps, depth, limit, nesting) && depth == old(depth)
      decreases limit + 1 - steps, e, 2
    {
      r := EvalInt(e, l, fuel);
      if r.Some? && r.value < 0 { r := None; }
    }

    method Store(lv: LValue, v: Value, l: Locals, ghost fuel: nat) returns (r: Option<(Flow, Locals)>)
      requires Ready(fuel)
      modifies this
      ensures Meets(Comptime.Store(env, lv, v, l, fuel), r, old(steps), steps, depth, limit, nesting) && depth == old(depth)
      decreases limit + 1 - steps, lv, 3
    {
      match lv
      case LName(x) => r := Some((Normal, l[x := v]));
      case LIndex(_, _) =>
        var p := IndexPath(lv, l, fuel);
        if p == None || p.value.0 !in l { return None; }
        var w := Stored(l[p.value.0], p.value.1, v);
        r := if w.Some? then Some((Normal, l[p.value.0 := w.value])) else None;
      case _ => r := None;
    }

    // Every index is evaluated before anything is stored, the last one first.
    method IndexPath(lv: LValue, l: Locals, ghost fuel: nat) returns (r: Option<(string, seq<int>)>)
      requires Ready(fuel)
      modifies this
      ensures Meets(Comptime.IndexPath(env, lv, l, fuel), r, old(steps), steps, depth, limit, nesting) && depth == old(depth)
      decreases limit + 1 - steps, lv, 2
    {
      match lv
      case LName(x) => r := Some((x, []));
      case LIndex(b, idx) =>
        var i := EvalIndex(idx, l, fuel);
        if i == None { return None; }
        var p := IndexPath(b, l, fuel);
        r := if p.Some? then Some((p.value.0, p.value.1 + [i.value])) else None;
      case _ => r := None;
    }

    method ReadLValue(lv: LValue, l: Locals, ghost fuel: nat) returns (r: Option<Value>)
      requires Ready(fuel)
      modifies this
      ensures Meets(Comptime.ReadLValue(env, lv, l, fuel), r, old(steps), steps, depth, limit, nesting) && depth == old(depth)
      decreases limit + 1 - steps, lv, 2
    {
      match lv
      case LName(x) => r := if x in l then Some(l[x]) else None;
      case LIndex(b, idx) =>
        var i := EvalIndex(idx, l, fuel);
        if i == None { return None; }
        var v := ReadLValue(b, l, fuel);
        r := if v.Some? then Element(v.value, Scalar(Int(i.value))) else None;
      case _ => r := None;
    }
  }
}
