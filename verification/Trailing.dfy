// Trailing expressions of blocks, which lowering drops: which bodies can evaluate
// one on a run that ends, and that all the others lose nothing.
module Trailing {
  import opened Ast
  import opened Semantics
  import opened Paths

  // --- bodies without them ---

  // The block without the trailing expressions of it and its inner blocks.
  function Strip(b: Block): (r: Block)
    ensures |r.stmts| == |b.stmts| && r.trailing == None
    decreases b
  {
    Block(seq(|b.stmts|, i requires 0 <= i < |b.stmts| => StripStmt(b.stmts[i])), None)
  }

  function StripArms(arms: seq<Arm>): (r: seq<Arm>)
    ensures |r| == |arms|
    decreases arms
  {
    seq(|arms|, i requires 0 <= i < |arms| => Arm(arms[i].patterns, Strip(arms[i].body)))
  }

  function StripStmt(s: Stmt): Stmt {
    match s
    case If(c, t, e) => If(c, Strip(t), Strip(e))
    case Loop(b) => Loop(Strip(b))
    case While(c, b) => While(c, Strip(b))
    case For(v, a, d, z, k, b) => For(v, a, d, z, k, Strip(b))
    case Match(e, arms) => Match(e, StripArms(arms))
    case BlockStmt(b) => BlockStmt(Strip(b))
    case Claim(x, b) => Claim(x, Strip(b))
    case _ => s
  }

  // --- the analysis ---

  // For each way of leaving a piece of code: `None` if no path leaves that way,
  // and otherwise whether one that does evaluates a trailing expression.
  datatype Ways = Ways(normal: Option<bool>, brk: Option<bool>, cont: Option<bool>, ret: Option<bool>)
  {
    function At(o: Outcome): Option<bool> {
      match o case Normal => normal case Broke => brk case Continued => cont case Returned => ret case Timeout => None
    }
  }

  const Nowhere := Ways(None, None, None, None)

  function Merge(a: Option<bool>, b: Option<bool>): Option<bool> {
    if a.None? then b else if b.None? then a else Some(a.value || b.value)
  }

  predicate Flagged(a: Option<bool>) { a.Some? && a.value }

  function Either(a: Ways, b: Ways): Ways { Ways(Merge(a.normal, b.normal), Merge(a.brk, b.brk), Merge(a.cont, b.cont), Merge(a.ret, b.ret)) }

  // What was evaluated before counts.
  function After(seen: bool, a: Option<bool>): Option<bool> { if a.None? then None else Some(seen || a.value) }

  // `b` continues where `a` ends normally.
  function Then(a: Ways, b: Ways): Ways
    requires a.normal.Some?
  {
    var seen := a.normal.value;
    Ways(After(seen, b.normal), Merge(a.brk, After(seen, b.brk)), Merge(a.cont, After(seen, b.cont)), Merge(a.ret, After(seen, b.ret)))
  }

  function StraightWays(st: Stmt): Ways {
    match st
    case Return(_) => Nowhere.(ret := Some(false))
    case Break => Nowhere.(brk := Some(false))
    case Continue => Nowhere.(cont := Some(false))
    case _ => Nowhere.(normal := Some(false))
  }

  function BlockWays(b: Block): Ways
    decreases b, |b.stmts| + 1
  {
    FromWays(b, 0)
  }

  function FromWays(b: Block, i: nat): Ways
    requires i <= |b.stmts|
    decreases b, |b.stmts| - i
  {
    if i == |b.stmts| then Nowhere.(normal := Some(b.trailing.Some?))
    else
      var a := StmtWays(b.stmts[i]);
      if a.normal.None? then a else Then(a, FromWays(b, i + 1))
  }

  function StmtWays(st: Stmt): Ways
    decreases st, 2
  {
    match st
    case If(_, t, e) => Either(BlockWays(t), BlockWays(e))
    case Loop(_) => RoundsWays(st)
    case While(_, _) => RoundsWays(st)
    case For(_, _, _, _, _, _) => RoundsWays(st)
    case Match(_, _) => ArmsWays(st, 0)
    case BlockStmt(b) => BlockWays(b)
    case Claim(_, b) => BlockWays(b)
    case _ => StraightWays(st)
  }

  // One round: `normal` goes on, `brk` is the end of the loop.
  function RoundWays(st: Stmt): Ways
    requires IsLoop(st)
    decreases st, 0
  {
    var x := BlockWays(st.body);
    Ways(Merge(x.normal, x.cont), if st.Loop? then x.brk else Merge(x.brk, Some(false)), None, x.ret)
  }

  function RoundsWays(st: Stmt): Ways
    requires IsLoop(st)
    decreases st, 1
  {
    var r := RoundWays(st);
    var seen := Flagged(r.normal);
    Ways(After(seen, r.brk), None, None, After(seen, r.ret))
  }

  function ArmsWays(st: Stmt, i: nat): Ways
    requires st.Match? && i <= |st.arms|
    decreases st, 0, |st.arms| - i
  {
    if i == |st.arms| then Nowhere.(normal := Some(false))
    else
      var x := BlockWays(st.arms[i].body);
      if PWild in st.arms[i].patterns then x else Either(x, ArmsWays(st, i + 1))
  }

  // Some path through the body ends, and evaluates a trailing expression.
  predicate DropsTrailing(body: Block) { Flagged(BlockWays(body).normal) || Flagged(BlockWays(body).ret) }

  // --- the others lose nothing ---

  // A run and the run of the stripped code: whichever ends does so in a way the
  // analysis knows, and if no path of that way evaluates a trailing expression
  // both end alike.
  ghost predicate Alike<S>(w: Ways, a: (Outcome, S), b: (Outcome, S)) {
    Follows(w, a, b) && Follows(w, b, a)
  }

  ghost predicate Follows<S>(w: Ways, a: (Outcome, S), b: (Outcome, S)) {
    a.0 != Timeout ==> w.At(a.0).Some? && (!w.At(a.0).value ==> b == a)
  }

  lemma EitherAlike<S>(v: Ways, w: Ways, a: (Outcome, S), b: (Outcome, S))
    requires Alike(v, a, b) || Alike(w, a, b)
    ensures Alike(Either(v, w), a, b)
  {}

  lemma {:induction false} BlockAlike<S>(act: Act<S>, b: Block, s: S, fuel: nat)
    ensures Alike(BlockWays(b), ExecBlock(act, b, s, fuel), ExecBlock(act, Strip(b), s, fuel))
    decreases fuel, b, |b.stmts| + 1
  {
    FromAlike(act, b, 0, s, fuel);
  }

  lemma {:induction false} FromAlike<S>(act: Act<S>, b: Block, i: nat, s: S, fuel: nat)
    requires i <= |b.stmts|
    ensures Alike(FromWays(b, i), ExecFrom(act, b, i, s, fuel), ExecFrom(act, Strip(b), i, s, fuel))
    decreases fuel, b, |b.stmts| - i
  {
    if i < |b.stmts| {
      var st := b.stmts[i];
      assert Strip(b).stmts[i] == StripStmt(st);
      StmtAlike(act, st, s, fuel);
      var (o, s1) := ExecStmt(act, st, s, fuel);
      var (o', s1') := ExecStmt(act, StripStmt(st), s, fuel);
      if o == Normal { FromAlike(act, b, i + 1, s1, fuel); }
      if o' == Normal { FromAlike(act, b, i + 1, s1', fuel); }
    }
  }

  lemma {:induction false} StmtAlike<S>(act: Act<S>, st: Stmt, s: S, fuel: nat)
    ensures Alike(StmtWays(st), ExecStmt(act, st, s, fuel), ExecStmt(act, StripStmt(st), s, fuel))
    decreases fuel, st, 3
  {
    match st
    case If(c, t, e) =>
      var (v, s1) := Eval(act, c, Val, s);
      BlockAlike(act, if v != 0 then t else e, s1, fuel);
      EitherAlike(BlockWays(t), BlockWays(e), ExecStmt(act, st, s, fuel), ExecStmt(act, StripStmt(st), s, fuel));
    case Loop(_) => LoopAlike(act, st, s, fuel);
    case While(_, _) => LoopAlike(act, st, s, fuel);
    case For(_, _, _, _, _, _) => LoopAlike(act, st, s, fuel);
    case Match(e, _) =>
      var (v, s1) := Eval(act, e, Val, s);
      ArmsAlike(act, st, 0, v, s1, fuel);
    case BlockStmt(b) => BlockAlike(act, b, s, fuel);
    case Claim(x, b) => BlockAlike(act, b, act(Enter(x), [], s).1, fuel);
    case _ =>
  }

  lemma {:induction false} LoopAlike<S>(act: Act<S>, st: Stmt, s: S, fuel: nat)
    requires IsLoop(st)
    ensures Alike(RoundsWays(st), ExecStmt(act, st, s, fuel), ExecStmt(act, StripStmt(st), s, fuel))
    decreases fuel, st, 2
  {
    LoopIsRounds(act, st, s, fuel);
    LoopIsRounds(act, StripStmt(st), s, fuel);
    var (bound, inc, s1) := Entry(act, st, s);
    RoundsAlike(act, st, bound, inc, s1, fuel);
  }

  lemma {:induction false} RoundsAlike<S>(act: Act<S>, st: Stmt, bound: int, inc: int, s: S, fuel: nat)
    requires IsLoop(st)
    ensures Alike(RoundsWays(st), Rounds(act, st, bound, inc, s, fuel), Rounds(act, StripStmt(st), bound, inc, s, fuel))
    decreases fuel, st, 1
  {
    if fuel > 0 {
      RoundsUnroll(act, st, bound, inc, s, fuel);
      RoundsUnroll(act, StripStmt(st), bound, inc, s, fuel);
      RoundAlike(act, st, bound, inc, s, fuel);
      var (o, s1) := Round(act, st, bound, inc, s, fuel);
      var (o', s1') := Round(act, StripStmt(st), bound, inc, s, fuel);
      if o == Normal { RoundsAlike(act, st, bound, inc, s1, fuel - 1); }
      if o' == Normal { RoundsAlike(act, st, bound, inc, s1', fuel - 1); }
      MoreRoundsAlike(RoundWays(st), RoundsWays(st), (o, s1), (o', s1'),
                      Rounds(act, st, bound, inc, s1, fuel - 1), Rounds(act, StripStmt(st), bound, inc, s1', fuel - 1),
                      Rounds(act, StripStmt(st), bound, inc, s1, fuel - 1), Rounds(act, st, bound, inc, s1', fuel - 1));
    }
  }

  function Last<S>(o: Outcome, s: S): (Outcome, S) { (if o == Broke then Normal else o, s) }

  // One round each, and what follows: `ra` and `rb` after the rounds as they
  // are, `xa` and `xb` with the code exchanged.
  lemma MoreRoundsAlike<S>(r: Ways, w: Ways, a: (Outcome, S), b: (Outcome, S), ra: (Outcome, S), rb: (Outcome, S), xa: (Outcome, S), xb: (Outcome, S))
    requires w == (var seen := Flagged(r.normal); Ways(After(seen, r.brk), None, None, After(seen, r.ret))) && r.cont == None
    requires Alike(r, a, b) && (a.0 == Normal ==> Alike(w, ra, xa)) && (b.0 == Normal ==> Alike(w, xb, rb))
    requires a == b ==> xa == rb && xb == ra
    ensures Alike(w, if a.0 == Normal then ra else Last(a.0, a.1), if b.0 == Normal then rb else Last(b.0, b.1))
  {}

  lemma {:induction false} RoundAlike<S>(act: Act<S>, st: Stmt, bound: int, inc: int, s: S, fuel: nat)
    requires IsLoop(st) && fuel > 0
    ensures Alike(RoundWays(st), Round(act, st, bound, inc, s, fuel), Round(act, StripStmt(st), bound, inc, s, fuel))
    decreases fuel, st, 0
  {
    var (v, s1) := Test(act, st, bound, s);
    if v != 0 { BlockAlike(act, st.body, s1, fuel - 1); }
  }

  lemma {:induction false} ArmsAlike<S>(act: Act<S>, st: Stmt, i: nat, v: int, s: S, fuel: nat)
    requires st.Match? && i <= |st.arms|
    ensures Alike(ArmsWays(st, i), ExecArms(act, st, i, v, s, fuel), ExecArms(act, StripStmt(st), i, v, s, fuel))
    decreases fuel, st, 1, |st.arms| - i
  {
    if i < |st.arms| {
      var arm := st.arms[i];
      assert StripStmt(st).arms[i] == Arm(arm.patterns, Strip(arm.body));
      var (hit, s1) := act(Select(arm.patterns), [v], s);
      if PWild in arm.patterns {
        BlockAlike(act, arm.body, s, fuel);
      } else {
        if hit != 0 { BlockAlike(act, arm.body, s1, fuel); } else { ArmsAlike(act, st, i + 1, v, s1, fuel); }
        EitherAlike(BlockWays(arm.body), ArmsWays(st, i + 1), ExecArms(act, st, i, v, s, fuel), ExecArms(act, StripStmt(st), i, v, s, fuel));
      }
    }
  }

  ghost predicate Finishes<S(!new)>(act: Act<S>, b: Block, s: S, fuel: nat, x: S) {
    ExecBlock(act, b, s, fuel) == (Normal, x) || ExecBlock(act, b, s, fuel) == (Returned, x)
  }

  ghost predicate Ends<S(!new)>(act: Act<S>, b: Block, s: S, x: S) { exists fuel: nat :: Finishes(act, b, s, fuel, x) }

  // A body none of whose paths to an end evaluates a trailing expression loses
  // nothing.
  lemma FinishesAlike<S(!new)>(act: Act<S>, body: Block, s: S, x: S)
    requires !DropsTrailing(body)
    ensures Ends(act, body, s, x) <==> Ends(act, Strip(body), s, x)
  {
    forall fuel: nat ensures Finishes(act, body, s, fuel, x) <==> Finishes(act, Strip(body), s, fuel, x) {
      BlockAlike(act, body, s, fuel);
      var (w, a, b) := (BlockWays(body), ExecBlock(act, body, s, fuel), ExecBlock(act, Strip(body), s, fuel));
      assert Follows(w, a, b) && Follows(w, b, a);
    }
  }
}
