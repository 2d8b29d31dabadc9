// Which locals some run uses after a move: an analysis that follows every path.
//
// It looks at one local at a time. Unlike the checker it takes the state at each
// `break` to the end of the loop and at each `continue` to its head, checks a
// `while` condition again from there, and looks at nothing control cannot reach.
module MoveTracking {
  import opened Ast
  import opened Semantics
  import opened Tapes

  // --- instrumented runs ---

  // The locals that hold a moved-from value, those of a type that moves, and
  // those that have been used while moved-from.
  datatype Moved = Moved(consumed: set<string>, typed: set<string>, faulted: set<string>)

  function Use(x: string, consuming: bool, m: Moved): Moved {
    if x in m.consumed then m.(faulted := m.faulted + {x})
    else if consuming && x in m.typed then m.(consumed := m.consumed + {x})
    else m
  }

  function Fresh(x: string, moves: bool, m: Moved): Moved {
    m.(consumed := m.consumed - {x}, typed := if moves then m.typed + {x} else m.typed - {x})
  }

  function Observe(a: Action, m: Moved): Moved {
    match a
    case Read(x) => Use(x, true, m)
    case Addr(x) => Use(x, false, m)
    case Declare(x, moves) => Fresh(x, moves, m)
    case ForInit(x) => Fresh(x, false, m)
    case Store(LName(x)) => m.(consumed := m.consumed - {x})
    case _ => m
  }

  type Run = Driven<Moved>

  function MoveAct(negates: bool): Act<Run> { Drive(Observe, negates) }

  lemma ActIs(negates: bool, a: Action, vs: seq<int>, r: Run)
    ensures MoveAct(negates)(a, vs, r).1.d == Observe(a, r.d)
  {}

  // --- names ---

  // Every name used is known, and no declaration reuses a known name (E305 and
  // E347).
  predicate ScopedExpr(e: Expr, known: set<string>) { Names(e) <= known }

  predicate ScopedOpt(e: Option<Expr>, known: set<string>) { e.Some? ==> ScopedExpr(e.value, known) }

  predicate ScopedBlock(b: Block, known: set<string>)
    decreases b, |b.stmts| + 1
  {
    ScopedFrom(b, 0, known)
  }

  predicate ScopedFrom(b: Block, i: nat, known: set<string>)
    requires i <= |b.stmts|
    decreases b, |b.stmts| - i
  {
    if i == |b.stmts| then ScopedOpt(b.trailing, known)
    else ScopedStmt(b.stmts[i], known) && ScopedFrom(b, i + 1, KnownAfter(b.stmts[i], known))
  }

  function KnownAfter(st: Stmt, known: set<string>): set<string> {
    if st.VarDecl? then known + {st.name} else known
  }

  predicate ScopedStmt(st: Stmt, known: set<string>)
    decreases st
  {
    match st
    case VarDecl(x, _, init) => ScopedExpr(init, known) && x !in known
    case Assign(lv, value) => LNames(lv) <= known && ScopedExpr(value, known)
    case CompoundAssign(lv, _, value) => LNames(lv) <= known && ScopedExpr(value, known)
    case ExprStmt(e) => ScopedExpr(e, known)
    case If(c, t, e) => ScopedExpr(c, known) && ScopedBlock(t, known) && ScopedBlock(e, known)
    case Loop(b) => ScopedBlock(b, known)
    case While(c, b) => ScopedExpr(c, known) && ScopedBlock(b, known)
    case For(x, a, _, z, k, b) =>
      ScopedExpr(a, known) && ScopedExpr(z, known) && ScopedOpt(k, known) && x !in known && ScopedBlock(b, known + {x})
    case Match(e, arms) => ScopedExpr(e, known) && forall arm <- arms :: ScopedBlock(arm.body, known)
    case Return(e) => ScopedOpt(e, known)
    case BlockStmt(b) => ScopedBlock(b, known)
    case Claim(_, b) => ScopedBlock(b, known)
    case _ => true
  }

  // --- the analysis ---

  // For each way of leaving a piece of code: `None` if no path leaves that way,
  // and otherwise whether the local can be moved then. `bad` if it can be used
  // while moved.
  datatype Exits = Exits(normal: Option<bool>, brk: Option<bool>, cont: Option<bool>, bad: bool)
  {
    function At(o: Outcome): Option<bool> {
      match o case Normal => normal case Broke => brk case Continued => cont case _ => None
    }
  }

  function Merge(a: Option<bool>, b: Option<bool>): Option<bool> {
    if a.None? then b else if b.None? then a else Some(a.value || b.value)
  }

  function Only(f: bool, bad: bool): Exits { Exits(Some(f), None, None, bad) }

  function Either(a: Exits, b: Exits): Exits { Exits(Merge(a.normal, b.normal), Merge(a.brk, b.brk), Merge(a.cont, b.cont), a.bad || b.bad) }

  // `b` continues where `a` ends normally.
  function Then(a: Exits, b: Exits): Exits { Exits(b.normal, Merge(a.brk, b.brk), Merge(a.cont, b.cont), a.bad || b.bad) }

  // The flag after an expression of which everything is evaluated, and whether
  // the local is used while moved. `f` is the flag before, `typ` says whether the
  // local's type moves.
  function TrackExpr(y: string, e: Expr, mode: Mode, f: bool, typ: bool): (bool, bool)
    decreases e
  {
    match e
    case Ident(x) => if x != y then (f, false) else if f then (true, true) else (mode == Val && typ, false)
    case Group(i) => TrackExpr(y, i, mode, f, typ)
    case _ => TrackParts(y, e, Parts(e, mode), f, typ)
  }

  function TrackParts(y: string, whole: Expr, ps: seq<(Expr, Mode)>, f: bool, typ: bool): (bool, bool)
    requires forall p <- ps :: p.0 < whole
    decreases whole, |ps|
  {
    if ps == [] then (f, false)
    else
      var (g, b1) := TrackExpr(y, ps[0].0, ps[0].1, f, typ);
      var (h, b2) := TrackParts(y, whole, ps[1..], g, typ);
      (h, b1 || b2)
  }

  function TrackTarget(y: string, ps: seq<(Expr, Mode)>, f: bool, typ: bool): (bool, bool)
    decreases |ps|
  {
    if ps == [] then (f, false)
    else
      var (g, b1) := TrackExpr(y, ps[0].0, ps[0].1, f, typ);
      var (h, b2) := TrackTarget(y, ps[1..], g, typ);
      (h, b1 || b2)
  }

  function TrackOpt(y: string, e: Option<Expr>, f: bool, typ: bool): (bool, bool) {
    if e.None? then (f, false) else TrackExpr(y, e.value, Val, f, typ)
  }

  function TrackAssign(y: string, lv: LValue, value: Expr, f: bool, typ: bool): Exits {
    var (g, b1) := TrackExpr(y, value, Val, f, typ);
    TrackStore(y, lv, g, typ, b1)
  }

  function TrackStore(y: string, lv: LValue, f: bool, typ: bool, before: bool): Exits {
    var (g, bad) := TrackTarget(y, TargetParts(lv), f, typ);
    Only(g && lv != LName(y), before || bad)
  }

  function TypeAfter(y: string, st: Stmt, typ: bool): bool { if st.VarDecl? && st.name == y then st.moves else typ }

  function TrackBlock(y: string, b: Block, f: bool, typ: bool): Exits
    decreases b, |b.stmts| + 1
  {
    TrackFrom(y, b, 0, f, typ)
  }

  function TrackFrom(y: string, b: Block, i: nat, f: bool, typ: bool): Exits
    requires i <= |b.stmts|
    decreases b, |b.stmts| - i
  {
    if i == |b.stmts| then
      var (g, bad) := TrackOpt(y, b.trailing, f, typ);
      Only(g, bad)
    else
      var a := TrackStmt(y, b.stmts[i], f, typ);
      if a.normal.None? then a else Then(a, TrackFrom(y, b, i + 1, a.normal.value, TypeAfter(y, b.stmts[i], typ)))
  }

  function TrackStmt(y: string, st: Stmt, f: bool, typ: bool): Exits
    decreases st, 3
  {
    match st
    case VarDecl(x, _, init) =>
      var (g, bad) := TrackExpr(y, init, Val, f, typ);
      Only(g && x != y, bad)
    case Assign(lv, value) => TrackAssign(y, lv, value, f, typ)
    case CompoundAssign(lv, op, value) => TrackAssign(y, lv, Binary(lv.ToExpr(), op, value), f, typ)
    case ExprStmt(e) =>
      var (g, bad) := TrackExpr(y, e, Val, f, typ);
      Only(g, bad)
    case If(c, t, e) =>
      var (g, bad) := TrackExpr(y, c, Val, f, typ);
      var x := Either(TrackBlock(y, t, g, typ), TrackBlock(y, e, g, typ));
      x.(bad := bad || x.bad)
    case Loop(_) => TrackRounds(y, st, f, typ)
    case While(_, _) => TrackRounds(y, st, f, typ)
    case For(v, _, _, _, _, _) =>
      var (g, bad) := TrackEntry(y, st, f, typ);
      var x := TrackRounds(y, st, g && v != y, typ && v != y);
      x.(bad := bad || x.bad)
    case Match(e, _) =>
      var (g, bad) := TrackExpr(y, e, Val, f, typ);
      var x := TrackArms(y, st, 0, g, typ);
      x.(bad := bad || x.bad)
    case Return(e) => Exits(None, None, None, TrackOpt(y, e, f, typ).1)
    case Break => Exits(None, Some(f), None, false)
    case Continue => Exits(None, None, Some(f), false)
    case BlockStmt(b) => TrackBlock(y, b, f, typ)
    case Claim(_, b) => TrackBlock(y, b, f, typ)
  }

  // The bounds and the step of a counted loop.
  function TrackEntry(y: string, st: Stmt, f: bool, typ: bool): (bool, bool)
    requires st.For?
  {
    var (g1, b1) := TrackExpr(y, st.start, Val, f, typ);
    var (g2, b2) := TrackExpr(y, st.end, Val, g1, typ);
    var (g3, b3) := TrackOpt(y, st.step, g2, typ);
    (g3, b1 || b2 || b3)
  }

  // One round: `normal` goes on, `brk` is the end of the loop.
  function TrackRound(y: string, st: Stmt, f: bool, typ: bool): Exits
    requires IsLoop(st)
    decreases st, 0
  {
    var (g, bad) := if st.While? then TrackExpr(y, st.cond, Val, f, typ) else (f, false);
    var x := TrackBlock(y, st.body, g, typ);
    Exits(Merge(x.normal, x.cont), if st.Loop? then x.brk else Merge(x.brk, Some(g)), None, bad || x.bad)
  }

  // The flag at the head of the loop, over all rounds.
  function HeadFlag(y: string, st: Stmt, f: bool, typ: bool): bool
    requires IsLoop(st)
    decreases st, 1
  {
    f || TrackRound(y, st, f, typ).normal == Some(true)
  }

  function TrackRounds(y: string, st: Stmt, f: bool, typ: bool): Exits
    requires IsLoop(st)
    decreases st, 2
  {
    var x := TrackRound(y, st, HeadFlag(y, st, f, typ), typ);
    Exits(x.brk, None, None, x.bad)
  }

  // Arms after a `_` arm are never reached.
  function TrackArms(y: string, st: Stmt, i: nat, f: bool, typ: bool): Exits
    requires st.Match? && i <= |st.arms|
    decreases st, 0, |st.arms| - i
  {
    if i == |st.arms| then Only(f, false)
    else
      var x := TrackBlock(y, st.arms[i].body, f, typ);
      if PWild in st.arms[i].patterns then x else Either(x, TrackArms(y, st, i + 1, f, typ))
  }

  // --- whole bodies ---

  // A function body with its parameters; each says whether its type moves.
  function Entered(params: map<string, bool>): Moved { Moved({}, set x | x in params && params[x], {}) }

  // What E305 and E347 establish before moves are looked at.
  predicate WellScoped(body: Block, params: map<string, bool>, globals: set<string>) {
    params.Keys !! globals && ScopedBlock(body, params.Keys + globals)
  }

  // The analysis of a whole body.
  predicate UsedAfterMove(y: string, body: Block, params: map<string, bool>) {
    TrackBlock(y, body, false, y in params && params[y]).bad
  }

  ghost predicate FaultsOn(negates: bool, y: string, body: Block, params: map<string, bool>, t: Tape, fuel: nat) {
    y in ExecBlock(MoveAct(negates), body, Driven(t, Entered(params)), fuel).1.d.faulted
  }
}
