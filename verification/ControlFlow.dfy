// Which outcomes a statement can have: the return analysis that guards against
// falling off the end of a function, and the restrictions that keep control
// inside a `claim` window.
module ControlFlow {
  import opened Ast
  import opened Semantics

  predicate BlockDefinitelyReturns(b: Block) {
    exists st <- b.stmts :: StmtDefinitelyReturns(st)
  }

  predicate StmtDefinitelyReturns(st: Stmt) {
    match st
    case Return(_) => true
    case BlockStmt(b) => BlockDefinitelyReturns(b)
    case Claim(_, b) => BlockDefinitelyReturns(b)
    case If(_, t, e) => BlockDefinitelyReturns(t) && BlockDefinitelyReturns(e)
    case Match(_, arms) => forall arm <- arms :: BlockDefinitelyReturns(arm.body)
    case Loop(b) => BlockDefinitelyReturns(b) && !BlockMayBreak(b)
    case _ => false
  }

  predicate BlockMayBreak(b: Block) {
    exists st <- b.stmts :: StmtMayBreak(st)
  }

  predicate StmtMayBreak(st: Stmt) {
    match st
    case Break => true
    case BlockStmt(b) => BlockMayBreak(b)
    case Claim(_, b) => BlockMayBreak(b)
    case If(_, t, e) => BlockMayBreak(t) || BlockMayBreak(e)
    case Match(_, arms) => exists arm <- arms :: BlockMayBreak(arm.body)
    case _ => false
  }

  predicate CallFree(e: Expr) {
    !e.Call? && forall p <- Parts(e, Val) :: CallFree(p.0)
  }

  predicate CallFreeOpt(e: Option<Expr>) {
    e.Some? ==> CallFree(e.value)
  }

  // The restrictions on a claim body (E614); `depth` counts the loops that lie
  // inside the window. Only the value of an assignment is walked.
  predicate ClaimOkBlock(b: Block, depth: nat) {
    (forall st <- b.stmts :: ClaimOkStmt(st, depth)) && CallFreeOpt(b.trailing)
  }

  predicate ClaimOkStmt(st: Stmt, depth: nat) {
    match st
    case VarDecl(_, _, init) => CallFree(init)
    case Assign(_, value) => CallFree(value)
    case CompoundAssign(_, _, value) => CallFree(value)
    case ExprStmt(e) => CallFree(e)
    case If(c, t, e) => CallFree(c) && ClaimOkBlock(t, depth) && ClaimOkBlock(e, depth)
    case Loop(b) => ClaimOkBlock(b, depth + 1)
    case While(c, b) => CallFree(c) && ClaimOkBlock(b, depth + 1)
    case For(_, a, _, z, k, b) => CallFree(a) && CallFree(z) && CallFreeOpt(k) && ClaimOkBlock(b, depth + 1)
    case Match(e, arms) => CallFree(e) && forall arm <- arms :: ClaimOkBlock(arm.body, depth)
    case Return(_) => false
    case Break => depth > 0
    case Continue => depth > 0
    case BlockStmt(b) => ClaimOkBlock(b, depth)
    case Claim(_, b) => ClaimOkBlock(b, depth)
  }

  // Every claim statement is checked as a window of its own, wherever it sits.
  predicate ClaimsCheckedBlock(b: Block) {
    forall st <- b.stmts :: ClaimsCheckedStmt(st)
  }

  predicate ClaimsCheckedStmt(st: Stmt) {
    match st
    case If(_, t, e) => ClaimsCheckedBlock(t) && ClaimsCheckedBlock(e)
    case Loop(b) => ClaimsCheckedBlock(b)
    case While(_, b) => ClaimsCheckedBlock(b)
    case For(_, _, _, _, _, b) => ClaimsCheckedBlock(b)
    case Match(_, arms) => forall arm <- arms :: ClaimsCheckedBlock(arm.body)
    case BlockStmt(b) => ClaimsCheckedBlock(b)
    case Claim(_, b) => ClaimOkBlock(b, 0) && ClaimsCheckedBlock(b)
    case _ => true
  }

  // Matches on enums have their `_` arm last.
  predicate SwitchesOrdered(b: Block) {
    forall st <- b.stmts :: SwitchesOrderedStmt(st)
  }

  predicate SwitchesOrderedStmt(st: Stmt) {
    match st
    case If(_, t, e) => SwitchesOrdered(t) && SwitchesOrdered(e)
    case Loop(b) => SwitchesOrdered(b)
    case While(_, b) => SwitchesOrdered(b)
    case For(_, _, _, _, _, b) => SwitchesOrdered(b)
    case Match(_, arms) => (OnEnum(arms) ==> WildLast(arms)) && forall arm <- arms :: SwitchesOrdered(arm.body)
    case BlockStmt(b) => SwitchesOrdered(b)
    case Claim(_, b) => SwitchesOrdered(b)
    case _ => true
  }

  // `break` and `continue` occur only where an enclosing loop exists.
  predicate JumpsInLoopsBlock(b: Block, inLoop: bool) {
    forall st <- b.stmts :: JumpsInLoopsStmt(st, inLoop)
  }

  predicate JumpsInLoopsStmt(st: Stmt, inLoop: bool) {
    match st
    case Break => inLoop
    case Continue => inLoop
    case If(_, t, e) => JumpsInLoopsBlock(t, inLoop) && JumpsInLoopsBlock(e, inLoop)
    case Loop(b) => JumpsInLoopsBlock(b, true)
    case While(_, b) => JumpsInLoopsBlock(b, true)
    case For(_, _, _, _, _, b) => JumpsInLoopsBlock(b, true)
    case Match(_, arms) => forall arm <- arms :: JumpsInLoopsBlock(arm.body, inLoop)
    case BlockStmt(b) => JumpsInLoopsBlock(b, inLoop)
    case Claim(_, b) => JumpsInLoopsBlock(b, inLoop)
    case _ => true
  }

  // Every match has a `_` arm. (An enum match that lists every variant is
  // represented with `_` as its last pattern.)
  predicate MatchesCoverBlock(b: Block) {
    forall st <- b.stmts :: MatchesCoverStmt(st)
  }

  predicate MatchesCoverStmt(st: Stmt) {
    match st
    case If(_, t, e) => MatchesCoverBlock(t) && MatchesCoverBlock(e)
    case Loop(b) => MatchesCoverBlock(b)
    case While(_, b) => MatchesCoverBlock(b)
    case For(_, _, _, _, _, b) => MatchesCoverBlock(b)
    case Match(_, arms) =>
      (exists arm <- arms :: PWild in arm.patterns) && forall arm <- arms :: MatchesCoverBlock(arm.body)
    case BlockStmt(b) => MatchesCoverBlock(b)
    case Claim(_, b) => MatchesCoverBlock(b)
    case _ => true
  }

  // What the four analyses promise about an outcome, as one invariant so that
  // one induction over executions proves them together.
  ghost predicate OutcomeFits(o: Outcome, returning: bool, breaking: bool, jumpsInLoops: bool, claimOk: bool, claimOk0: bool) {
    && (returning ==> o != Normal)
    && (o == Broke ==> breaking)
    && (jumpsInLoops ==> o != Broke && o != Continued)
    && (claimOk ==> o != Returned)
    && (claimOk0 ==> o != Broke && o != Continued)
  }

  // Some statement from the `i`th on definitely returns; some arm from the
  // `i`th on is a `_` arm.
  predicate ReturnsFrom(b: Block, i: nat) { exists j :: i <= j < |b.stmts| && StmtDefinitelyReturns(b.stmts[j]) }

  predicate CoversFrom(st: Stmt, i: nat)
    requires st.Match?
  {
    exists j :: i <= j < |st.arms| && PWild in st.arms[j].patterns
  }

  lemma {:induction false} FromOutcome<S>(act: Act<S>, b: Block, i: nat, s: S, fuel: nat, d: nat)
    requires i <= |b.stmts|
    ensures OutcomeFits(ExecFrom(act, b, i, s, fuel).0,
      MatchesCoverBlock(b) && ReturnsFrom(b, i),
      BlockMayBreak(b), JumpsInLoopsBlock(b, false), ClaimOkBlock(b, d), ClaimOkBlock(b, 0))
    decreases fuel, b, |b.stmts| - i
  {
    if i < |b.stmts| {
      StmtOutcome(act, b.stmts[i], s, fuel, d);
      assert b.stmts[i] in b.stmts;
      var (o, s1) := ExecStmt(act, b.stmts[i], s, fuel);
      if o == Normal { FromOutcome(act, b, i + 1, s1, fuel, d); }
    }
  }

  lemma {:induction false} BlockOutcome<S>(act: Act<S>, b: Block, s: S, fuel: nat, d: nat)
    ensures OutcomeFits(ExecBlock(act, b, s, fuel).0, MatchesCoverBlock(b) && BlockDefinitelyReturns(b),
      BlockMayBreak(b), JumpsInLoopsBlock(b, false), ClaimOkBlock(b, d), ClaimOkBlock(b, 0))
    decreases fuel, b, |b.stmts| + 1
  {
    FromOutcome(act, b, 0, s, fuel, d);
    if BlockDefinitelyReturns(b) { var i :| 0 <= i < |b.stmts| && StmtDefinitelyReturns(b.stmts[i]); }
  }

  lemma {:induction false} StmtOutcome<S>(act: Act<S>, st: Stmt, s: S, fuel: nat, d: nat)
    ensures OutcomeFits(ExecStmt(act, st, s, fuel).0, MatchesCoverStmt(st) && StmtDefinitelyReturns(st),
      StmtMayBreak(st), JumpsInLoopsStmt(st, false), ClaimOkStmt(st, d), ClaimOkStmt(st, 0))
    decreases fuel, st, 1
  {
    match st
    case If(c, t, e) =>
      var (v, s1) := Eval(act, c, Val, s);
      BlockOutcome(act, if v != 0 then t else e, s1, fuel, d);
    case Loop(_) => LoopOutcome(act, st, s, fuel, d);
    case While(_, _) => LoopOutcome(act, st, s, fuel, d);
    case For(x, a, _, z, k, _) =>
      var (v, s1) := Eval(act, a, Val, s);
      var (bound, s2) := Eval(act, z, Val, s1);
      var (inc, s3) := EvalStep(act, k, s2);
      ForOutcome(act, st, bound, inc, act(ForInit(x), [v], s3).1, fuel, d);
    case Match(e, arms) =>
      var (v, s1) := Eval(act, e, Val, s);
      ArmsOutcome(act, st, 0, v, s1, fuel, d);
      if MatchesCoverStmt(st) { var i :| 0 <= i < |arms| && PWild in arms[i].patterns; }
    case BlockStmt(b) => BlockOutcome(act, b, s, fuel, d);
    case Claim(x, b) => BlockOutcome(act, b, act(Enter(x), [], s).1, fuel, d);
    case _ =>
  }

  lemma {:induction false} LoopOutcome<S>(act: Act<S>, st: Stmt, s: S, fuel: nat, d: nat)
    requires st.Loop? || st.While?
    ensures OutcomeFits(ExecLoop(act, st, s, fuel).0, st.Loop? && !BlockMayBreak(st.body),
      false, true, ClaimOkStmt(st, d), true)
    decreases fuel, st, 0
  {
    if fuel > 0 {
      var (v, s1) := if st.While? then Eval(act, st.cond, Val, s) else (1, s);
      if v != 0 {
        BlockOutcome(act, st.body, s1, fuel - 1, d + 1);
        var (o, s2) := ExecBlock(act, st.body, s1, fuel - 1);
        if o == Normal || o == Continued { LoopOutcome(act, st, s2, fuel - 1, d); }
      }
    }
  }

  lemma {:induction false} ForOutcome<S>(act: Act<S>, st: Stmt, bound: int, inc: int, s: S, fuel: nat, d: nat)
    requires st.For?
    ensures OutcomeFits(ExecFor(act, st, bound, inc, s, fuel).0, false, false, true, ClaimOkStmt(st, d), true)
    decreases fuel, st, 0
  {
    if fuel > 0 {
      var (v, s1) := act(ForMore(st.v, st.dir), [bound], s);
      if v != 0 {
        BlockOutcome(act, st.body, s1, fuel - 1, d + 1);
        var (o, s2) := ExecBlock(act, st.body, s1, fuel - 1);
        if o == Normal || o == Continued {
          ForOutcome(act, st, bound, inc, act(ForStep(st.v, st.dir), [inc], s2).1, fuel - 1, d);
        }
      }
    }
  }

  lemma {:induction false} ArmsOutcome<S>(act: Act<S>, st: Stmt, i: nat, v: int, s: S, fuel: nat, d: nat)
    requires st.Match? && i <= |st.arms|
    ensures OutcomeFits(ExecArms(act, st, i, v, s, fuel).0,
      MatchesCoverStmt(st) && StmtDefinitelyReturns(st) && CoversFrom(st, i),
      StmtMayBreak(st), JumpsInLoopsStmt(st, false), ClaimOkStmt(st, d), ClaimOkStmt(st, 0))
    decreases fuel, st, 0, |st.arms| - i
  {
    if i < |st.arms| {
      var arm := st.arms[i];
      assert arm in st.arms;
      var (hit, s1) := act(Select(arm.patterns), [v], s);
      if PWild in arm.patterns {
        BlockOutcome(act, arm.body, s, fuel, d);
      } else if hit != 0 {
        BlockOutcome(act, arm.body, s1, fuel, d);
      } else {
        ArmsOutcome(act, st, i + 1, v, s1, fuel, d);
      }
    }
  }

  // No fall-through: a body the return analysis accepts never runs off its end,
  // whatever the branches do and however long its loops run. It returns, or has
  // not finished yet.
  lemma {:induction false} AcceptedBodyNeverFallsThrough<S>(act: Act<S>, body: Block, s: S, fuel: nat)
    requires BlockDefinitelyReturns(body)
    requires MatchesCoverBlock(body) && JumpsInLoopsBlock(body, false)
    ensures ExecBlock(act, body, s, fuel).0 in {Returned, Timeout}
  {
    BlockOutcome(act, body, s, fuel, 0);
  }

  // A `loop` with an accepted body and no `break` of its own cannot be left
  // normally, even by bodies that only ever `continue`.
  lemma {:induction false} LoopWithoutBreakNeverEnds<S>(act: Act<S>, body: Block, s: S, fuel: nat)
    requires !BlockMayBreak(body)
    ensures ExecStmt(act, Loop(body), s, fuel).0 in {Returned, Timeout}
  {
    LoopOutcome(act, Loop(body), s, fuel, 0);
  }

  // Claim windows close: an accepted window body reaches its end, so the
  // closing half runs. Inside `depth` loops of the window it may also leave the
  // innermost loop, and it never returns.
  lemma {:induction false} ClaimBodyStaysInside<S>(act: Act<S>, body: Block, s: S, fuel: nat, depth: nat)
    requires ClaimOkBlock(body, depth)
    ensures ExecBlock(act, body, s, fuel).0 != Returned
    ensures depth == 0 ==> ExecBlock(act, body, s, fuel).0 in {Normal, Timeout}
  {
    BlockOutcome(act, body, s, fuel, depth);
  }
}
