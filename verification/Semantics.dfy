// Run-time meaning of statements.
//
// Everything data-dependent is a parameter: `act` performs one primitive action
// on a state of any type and yields an integer value. Quantifying over `act` is
// quantifying over every evaluation of the leaves, hence over every choice of
// branches and iteration counts. Zero is false.
//
// Execution is total: it is cut off when `fuel` loop iterations have been
// started on some path, and then reports `Timeout` with the state reached so
// far, so statements about all fuels are statements about unfinished and
// diverging runs as well.
module Semantics {
  import opened Ast

  datatype Action =
    | Read(name: string)                  // value of a variable
    | Addr(name: string)                  // root of a place
    | Node(e: Expr)                       // strict operator on the values of its parts
    | Declare(name: string, moves: bool)
    | Store(lv: LValue)                   // arguments: target parts, then the value
    | ForInit(v: string)
    | ForMore(v: string, dir: Direction)  // argument: the end bound
    | ForStep(v: string, dir: Direction)  // argument: the step
    | Select(patterns: seq<Pattern>)      // does the scrutinee match one of them?
    | Result                              // argument: the value returned
    | Enter(claimed: string)
    | Leave(claimed: string)

  type Act<!S> = (Action, seq<int>, S) -> (int, S)

  datatype Outcome = Normal | Broke | Continued | Returned | Timeout

  function Eval<S>(act: Act<S>, e: Expr, mode: Mode, s: S): (int, S)
    decreases e
  {
    match e
    case Ident(x) => act(if mode == Val then Read(x) else Addr(x), [], s)
    case Group(i) => Eval(act, i, mode, s)
    case Binary(l, And, r) =>
      var (v, s1) := Eval(act, l, Val, s);
      if v == 0 then (0, s1) else Eval(act, r, Val, s1)
    case Binary(l, Or, r) =>
      var (v, s1) := Eval(act, l, Val, s);
      if v != 0 then (1, s1) else Eval(act, r, Val, s1)
    case _ =>
      var (vs, s1) := EvalParts(act, e, Parts(e, mode), s);
      act(Node(e), vs, s1)
  }

  function EvalParts<S>(act: Act<S>, whole: Expr, ps: seq<(Expr, Mode)>, s: S): (r: (seq<int>, S))
    requires forall p <- ps :: p.0 < whole
    ensures |r.0| == |ps|
    decreases whole, |ps|
  {
    if ps == [] then ([], s)
    else
      var (v, s1) := Eval(act, ps[0].0, ps[0].1, s);
      var (vs, s2) := EvalParts(act, whole, ps[1..], s1);
      ([v] + vs, s2)
  }

  // The parts of an assignment target.
  function EvalTarget<S>(act: Act<S>, ps: seq<(Expr, Mode)>, s: S): (seq<int>, S)
    decreases |ps|
  {
    if ps == [] then ([], s)
    else
      var (v, s1) := Eval(act, ps[0].0, ps[0].1, s);
      var (vs, s2) := EvalTarget(act, ps[1..], s1);
      ([v] + vs, s2)
  }

  function EvalOpt<S>(act: Act<S>, e: Option<Expr>, s: S): S {
    match e case None => s case Some(x) => Eval(act, x, Val, s).1
  }

  // The step of a counted loop; 1 unless given.
  function EvalStep<S>(act: Act<S>, step: Option<Expr>, s: S): (int, S) {
    match step case None => (1, s) case Some(x) => Eval(act, x, Val, s)
  }

  function ExecAssign<S>(act: Act<S>, lv: LValue, value: Expr, s: S): (Outcome, S) {
    var (v, s1) := Eval(act, value, Val, s);
    var (vs, s2) := EvalTarget(act, TargetParts(lv), s1);
    (Normal, act(Store(lv), vs + [v], s2).1)
  }

  function ExecBlock<S>(act: Act<S>, b: Block, s: S, fuel: nat): (Outcome, S)
    decreases fuel, b, |b.stmts| + 1
  {
    ExecFrom(act, b, 0, s, fuel)
  }

  function ExecFrom<S>(act: Act<S>, b: Block, i: nat, s: S, fuel: nat): (Outcome, S)
    requires i <= |b.stmts|
    decreases fuel, b, |b.stmts| - i
  {
    if i == |b.stmts| then (Normal, EvalOpt(act, b.trailing, s))
    else
      var (o, s1) := ExecStmt(act, b.stmts[i], s, fuel);
      if o == Normal then ExecFrom(act, b, i + 1, s1, fuel) else (o, s1)
  }

  function ExecStmt<S>(act: Act<S>, st: Stmt, s: S, fuel: nat): (Outcome, S)
    decreases fuel, st, 1
  {
    match st
    case VarDecl(x, moves, init) =>
      var (v, s1) := Eval(act, init, Val, s);
      (Normal, act(Declare(x, moves), [v], s1).1)
    case Assign(lv, value) => ExecAssign(act, lv, value, s)
    case CompoundAssign(lv, op, value) =>
      // Exactly `target = target OP value`: the target is evaluated twice.
      ExecAssign(act, lv, Binary(lv.ToExpr(), op, value), s)
    case ExprStmt(e) => (Normal, Eval(act, e, Val, s).1)
    case If(c, t, e) =>
      var (v, s1) := Eval(act, c, Val, s);
      ExecBlock(act, if v != 0 then t else e, s1, fuel)
    case Loop(_) => ExecLoop(act, st, s, fuel)
    case While(_, _) => ExecLoop(act, st, s, fuel)
    case For(x, a, _, z, k, _) =>
      var (v, s1) := Eval(act, a, Val, s);
      var (bound, s2) := Eval(act, z, Val, s1);
      var (inc, s3) := EvalStep(act, k, s2);
      ExecFor(act, st, bound, inc, act(ForInit(x), [v], s3).1, fuel)
    case Match(e, arms) =>
      var (v, s1) := Eval(act, e, Val, s);
      ExecArms(act, st, 0, v, s1, fuel)
    case Return(None) => (Returned, s)
    case Return(Some(e)) =>
      var (v, s1) := Eval(act, e, Val, s);
      (Returned, act(Result, [v], s1).1)
    case Break => (Broke, s)
    case Continue => (Continued, s)
    case BlockStmt(b) => ExecBlock(act, b, s, fuel)
    case Claim(x, b) =>
      // The closing half of the window sits after the body, so a body that
      // does not end normally never reaches it.
      var (o, s1) := ExecBlock(act, b, act(Enter(x), [], s).1, fuel);
      if o == Normal then (Normal, act(Leave(x), [], s1).1) else (o, s1)
  }

  function ExecLoop<S>(act: Act<S>, st: Stmt, s: S, fuel: nat): (Outcome, S)
    requires st.Loop? || st.While?
    decreases fuel, st, 0
  {
    if fuel == 0 then (Timeout, s)
    else
      var (v, s1) := if st.While? then Eval(act, st.cond, Val, s) else (1, s);
      if v == 0 then (Normal, s1)
      else
        var (o, s2) := ExecBlock(act, st.body, s1, fuel - 1);
        match o
        case Normal => ExecLoop(act, st, s2, fuel - 1)
        case Continued => ExecLoop(act, st, s2, fuel - 1)
        case Broke => (Normal, s2)
        case _ => (o, s2)
  }

  function ExecFor<S>(act: Act<S>, st: Stmt, bound: int, inc: int, s: S, fuel: nat): (Outcome, S)
    requires st.For?
    decreases fuel, st, 0
  {
    if fuel == 0 then (Timeout, s)
    else
      var (v, s1) := act(ForMore(st.v, st.dir), [bound], s);
      if v == 0 then (Normal, s1)
      else
        var (o, s2) := ExecBlock(act, st.body, s1, fuel - 1);
        match o
        case Normal => ExecFor(act, st, bound, inc, act(ForStep(st.v, st.dir), [inc], s2).1, fuel - 1)
        case Continued => ExecFor(act, st, bound, inc, act(ForStep(st.v, st.dir), [inc], s2).1, fuel - 1)
        case Broke => (Normal, s2)
        case _ => (o, s2)
  }

  // Arms are tried in order; the first whose test succeeds runs. A `_` arm is
  // taken without a test.
  function ExecArms<S>(act: Act<S>, st: Stmt, i: nat, v: int, s: S, fuel: nat): (Outcome, S)
    requires st.Match? && i <= |st.arms|
    decreases fuel, st, 0, |st.arms| - i
  {
    if i == |st.arms| then (Normal, s)
    else if PWild in st.arms[i].patterns then ExecBlock(act, st.arms[i].body, s, fuel)
    else
      var (hit, s1) := act(Select(st.arms[i].patterns), [v], s);
      if hit != 0 then ExecBlock(act, st.arms[i].body, s1, fuel)
      else ExecArms(act, st, i + 1, v, s1, fuel)
  }

  // --- rounds ---

  predicate IsLoop(st: Stmt) { st.Loop? || st.While? || st.For? }

  // One round of a `loop` or `while`: `Broke` stands for the end of the loop, by
  // its condition or by a break.
  ghost function LoopRound<S>(act: Act<S>, s: Stmt, x: S, fuel: nat): (Outcome, S)
    requires (s.Loop? || s.While?) && fuel > 0
  {
    var (v, y) := if s.While? then Eval(act, s.cond, Val, x) else (1, x);
    if v == 0 then (Broke, y)
    else
      var (o, w) := ExecBlock(act, s.body, y, fuel - 1);
      (if o == Continued then Normal else o, w)
  }

  // One round of a counted loop, likewise.
  ghost function ForRound<S>(act: Act<S>, s: Stmt, bound: int, inc: int, x: S, fuel: nat): (Outcome, S)
    requires s.For? && fuel > 0
  {
    var (v, y) := act(ForMore(s.v, s.dir), [bound], x);
    if v == 0 then (Broke, y) else ForTurn(act, s, inc, y, fuel)
  }

  ghost function ForTurn<S>(act: Act<S>, s: Stmt, inc: int, x: S, fuel: nat): (Outcome, S)
    requires s.For? && fuel > 0
  {
    var (o, w) := ExecBlock(act, s.body, x, fuel - 1);
    if o == Normal || o == Continued then (Normal, act(ForStep(s.v, s.dir), [inc], w).1) else (o, w)
  }

  // A round of any loop, and all its rounds. The bound and the step matter to
  // counted loops only.
  ghost function Round<S>(act: Act<S>, st: Stmt, bound: int, inc: int, x: S, fuel: nat): (Outcome, S)
    requires IsLoop(st) && fuel > 0
  {
    if st.For? then ForRound(act, st, bound, inc, x, fuel) else LoopRound(act, st, x, fuel)
  }

  ghost function Rounds<S>(act: Act<S>, st: Stmt, bound: int, inc: int, x: S, fuel: nat): (Outcome, S)
    requires IsLoop(st)
  {
    if st.For? then ExecFor(act, st, bound, inc, x, fuel) else ExecLoop(act, st, x, fuel)
  }

  lemma RoundsUnroll<S>(act: Act<S>, st: Stmt, bound: int, inc: int, x: S, fuel: nat)
    requires IsLoop(st) && fuel > 0
    ensures var (o, y) := Round(act, st, bound, inc, x, fuel);
      Rounds(act, st, bound, inc, x, fuel) ==
        if o == Normal then Rounds(act, st, bound, inc, y, fuel - 1) else (if o == Broke then Normal else o, y)
  {}
}
