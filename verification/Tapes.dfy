// Runs whose values are read from a tape. Every choice of values a run can meet
// is some tape, and a path through a body is the piece of tape that takes it.
module Tapes {
  import opened Ast
  import opened Semantics

  // What is left to read. `None`: a run has read past the end, and reads zeros.
  type Tape = Option<seq<int>>

  datatype Driven<+D> = Driven(tape: Tape, d: D)

  function Head(t: Tape): int { if t.Some? && t.value != [] then t.value[0] else 0 }

  function Rest(t: Tape): Tape { if t.Some? && t.value != [] then Some(t.value[1..]) else None }

  predicate IsNot(a: Action) { a.Node? && a.e.Unary? && a.e.uop == Not }

  // Every action takes one value from the tape, except that `!` yields the
  // negation of its operand and takes none if `negates`. `obs` is what the
  // action does.
  function Drive<D>(obs: (Action, D) -> D, negates: bool): Act<Driven<D>> {
    (a: Action, vs: seq<int>, r: Driven<D>) =>
      (Value(a, vs, Head(r.tape), negates), Driven(if Silent(a, vs, negates) then r.tape else Rest(r.tape), obs(a, r.d)))
  }

  predicate Silent(a: Action, vs: seq<int>, negates: bool) { negates && IsNot(a) && |vs| == 1 }

  function Value(a: Action, vs: seq<int>, h: int, negates: bool): int {
    if Silent(a, vs, negates) then (if vs[0] == 0 then 1 else 0) else h
  }

  lemma DriveIs<D>(obs: (Action, D) -> D, negates: bool, a: Action, vs: seq<int>, r: Driven<D>)
    ensures Drive(obs, negates)(a, vs, r) ==
      (Value(a, vs, Head(r.tape), negates), Driven(if Silent(a, vs, negates) then r.tape else Rest(r.tape), obs(a, r.d)))
  {}

  lemma OneAction<D>(obs: (Action, D) -> D, negates: bool, a: Action, vs: seq<int>, v: int, u: seq<int>, d: D)
    requires !Silent(a, vs, negates)
    ensures var (x, r) := Drive(obs, negates)(a, vs, Driven(Some([v] + u), d)); x == v && r == Driven(Some(u), obs(a, d))
  {
    DriveIs(obs, negates, a, vs, Driven(Some([v] + u), d));
    assert ([v] + u)[1..] == u;
  }

  // --- expressions ---

  // What an evaluation that skips no operand does.
  function Full<D>(obs: (Action, D) -> D, e: Expr, mode: Mode, d: D): D
    decreases e
  {
    match e
    case Ident(x) => obs(if mode == Val then Read(x) else Addr(x), d)
    case Group(i) => Full(obs, i, mode, d)
    case Binary(l, And, r) => Full(obs, r, Val, Full(obs, l, Val, d))
    case Binary(l, Or, r) => Full(obs, r, Val, Full(obs, l, Val, d))
    case _ => obs(Node(e), FullParts(obs, e, Parts(e, mode), d))
  }

  function FullParts<D>(obs: (Action, D) -> D, whole: Expr, ps: seq<(Expr, Mode)>, d: D): D
    requires forall p <- ps :: p.0 < whole
    decreases whole, |ps|
  {
    if ps == [] then d else FullParts(obs, whole, ps[1..], Full(obs, ps[0].0, ps[0].1, d))
  }

  function FullTarget<D>(obs: (Action, D) -> D, ps: seq<(Expr, Mode)>, d: D): D
    decreases |ps|
  {
    if ps == [] then d else FullTarget(obs, ps[1..], Full(obs, ps[0].0, ps[0].1, d))
  }

  function FullOpt<D>(obs: (Action, D) -> D, e: Option<Expr>, d: D): D {
    match e case None => d case Some(x) => Full(obs, x, Val, d)
  }

  // The tape `w` takes the evaluation of `e` to `d2`, with a true value or a
  // false one as wanted, whatever follows on the tape.
  ghost predicate Evals<D>(act: Act<Driven<D>>, e: Expr, mode: Mode, w: seq<int>, d: D, want: bool, d2: D) {
    forall u: seq<int> :: EvalsOn(act, e, mode, w + u, d, want, u, d2)
  }

  ghost predicate EvalsOn<D>(act: Act<Driven<D>>, e: Expr, mode: Mode, t: seq<int>, d: D, want: bool, u: seq<int>, d2: D) {
    var (v, r) := Eval(act, e, mode, Driven(Some(t), d));
    (v != 0 <==> want) && r == Driven(Some(u), d2)
  }

  lemma Concat(a: seq<int>, b: seq<int>, u: seq<int>)
    ensures a + b + u == a + (b + u)
  {}

  function Sign(want: bool): int { if want then 1 else 0 }

  lemma {:induction false} ExprPath<D>(obs: (Action, D) -> D, negates: bool, e: Expr, mode: Mode, d: D, want: bool) returns (w: seq<int>)
    ensures w != [] && Evals(Drive(obs, negates), e, mode, w, d, want, Full(obs, e, mode, d))
    decreases e, 1
  {
    var act, d2 := Drive(obs, negates), Full(obs, e, mode, d);
    if e.Ident? {
      w := [Sign(want)];
      var a := if mode == Val then Read(e.name) else Addr(e.name);
      forall u ensures EvalsOn(act, e, mode, w + u, d, want, u, d2) { OneAction(obs, negates, a, [], Sign(want), u, d); }
    } else if e.Group? {
      w := ExprPath(obs, negates, e.inner, mode, d, want);
      forall u ensures EvalsOn(act, e, mode, w + u, d, want, u, d2) { assert EvalsOn(act, e.inner, mode, w + u, d, want, u, d2); }
    } else if Logical(e) {
      w := LogicalPath(obs, negates, e, mode, d, want);
    } else {
      w := NodePath(obs, negates, e, mode, d, want);
    }
  }

  lemma {:induction false} LogicalPath<D>(obs: (Action, D) -> D, negates: bool, e: Expr, mode: Mode, d: D, want: bool) returns (w: seq<int>)
    requires Logical(e)
    ensures w != [] && Evals(Drive(obs, negates), e, mode, w, d, want, Full(obs, e, mode, d))
    decreases e, 0
  {
    var act, d1, d2 := Drive(obs, negates), Full(obs, e.left, Val, d), Full(obs, e, mode, d);
    var w1 := ExprPath(obs, negates, e.left, Val, d, e.bop == And);
    var w2 := ExprPath(obs, negates, e.right, Val, d1, want);
    w := w1 + w2;
    forall u ensures EvalsOn(act, e, mode, w + u, d, want, u, d2) {
      Concat(w1, w2, u);
      assert EvalsOn(act, e.left, Val, w1 + (w2 + u), d, e.bop == And, w2 + u, d1);
      assert EvalsOn(act, e.right, Val, w2 + u, d1, want, u, d2);
    }
  }

  lemma {:induction false} NodePath<D>(obs: (Action, D) -> D, negates: bool, e: Expr, mode: Mode, d: D, want: bool) returns (w: seq<int>)
    requires !e.Ident? && !e.Group? && !Logical(e)
    ensures w != [] && Evals(Drive(obs, negates), e, mode, w, d, want, Full(obs, e, mode, d))
    decreases e, 0
  {
    var act, ps, d1 := Drive(obs, negates), Parts(e, mode), FullParts(obs, e, Parts(e, mode), d);
    var w1 := PartsPath(obs, negates, e, ps, d, !want);
    var last := if negates && IsNot(Node(e)) then [] else [Sign(want)];
    w := w1 + last;
    forall u ensures EvalsOn(act, e, mode, w + u, d, want, u, Full(obs, e, mode, d)) {
      Concat(w1, last, u);
      assert PartsOn(act, e, ps, w1 + (last + u), d, !want, last + u, d1);
      var vs := EvalParts(act, e, ps, Driven(Some(w + u), d)).0;
      NodeDone(obs, negates, e, vs, want, last, u, d1);
    }
  }

  // The operator itself reads one value, or negates its operand.
  lemma NodeDone<D>(obs: (Action, D) -> D, negates: bool, e: Expr, vs: seq<int>, want: bool, last: seq<int>, u: seq<int>, d: D)
    requires IsNot(Node(e)) ==> |vs| == 1 && (vs[0] != 0 <==> !want)
    requires last == if negates && IsNot(Node(e)) then [] else [Sign(want)]
    ensures var (x, r) := Drive(obs, negates)(Node(e), vs, Driven(Some(last + u), d)); (x != 0 <==> want) && r == Driven(Some(u), obs(Node(e), d))
  {
    if last == [] {
      assert last + u == u;
      DriveIs(obs, negates, Node(e), vs, Driven(Some(last + u), d));
    } else {
      OneAction(obs, negates, Node(e), vs, Sign(want), u, d);
    }
  }

  // The parts of a node; `first` is the truth of the first one's value.
  ghost predicate PartsOn<D>(act: Act<Driven<D>>, whole: Expr, ps: seq<(Expr, Mode)>, t: seq<int>, d: D, first: bool, u: seq<int>, d2: D)
    requires forall p <- ps :: p.0 < whole
  {
    var (vs, r) := EvalParts(act, whole, ps, Driven(Some(t), d));
    (ps != [] ==> (vs[0] != 0 <==> first)) && r == Driven(Some(u), d2)
  }

  lemma {:induction false} PartsPath<D>(obs: (Action, D) -> D, negates: bool, whole: Expr, ps: seq<(Expr, Mode)>, d: D, first: bool) returns (w: seq<int>)
    requires forall p <- ps :: p.0 < whole
    ensures (ps != [] ==> w != []) && forall u :: PartsOn(Drive(obs, negates), whole, ps, w + u, d, first, u, FullParts(obs, whole, ps, d))
    decreases whole, 0, |ps|
  {
    var act, d2 := Drive(obs, negates), FullParts(obs, whole, ps, d);
    if ps == [] {
      w := [];
      forall u: seq<int> ensures PartsOn(act, whole, ps, w + u, d, first, u, d2) { assert w + u == u; }
    } else {
      var d1 := Full(obs, ps[0].0, ps[0].1, d);
      var w1 := ExprPath(obs, negates, ps[0].0, ps[0].1, d, first);
      var w2 := PartsPath(obs, negates, whole, ps[1..], d1, true);
      w := w1 + w2;
      forall u ensures PartsOn(act, whole, ps, w + u, d, first, u, d2) {
        Concat(w1, w2, u);
        assert EvalsOn(act, ps[0].0, ps[0].1, w1 + (w2 + u), d, first, w2 + u, d1);
        assert PartsOn(act, whole, ps[1..], w2 + u, d1, true, u, d2);
      }
    }
  }

  ghost predicate TargetOn<D>(act: Act<Driven<D>>, ps: seq<(Expr, Mode)>, t: seq<int>, d: D, u: seq<int>, d2: D) {
    EvalTarget(act, ps, Driven(Some(t), d)).1 == Driven(Some(u), d2)
  }

  lemma {:induction false} TargetPath<D>(obs: (Action, D) -> D, negates: bool, ps: seq<(Expr, Mode)>, d: D) returns (w: seq<int>)
    ensures forall u :: TargetOn(Drive(obs, negates), ps, w + u, d, u, FullTarget(obs, ps, d))
    decreases |ps|
  {
    var act, d2 := Drive(obs, negates), FullTarget(obs, ps, d);
    if ps == [] {
      w := [];
      forall u: seq<int> ensures TargetOn(act, ps, w + u, d, u, d2) { assert w + u == u; }
    } else {
      var d1 := Full(obs, ps[0].0, ps[0].1, d);
      var w1 := ExprPath(obs, negates, ps[0].0, ps[0].1, d, true);
      var w2 := TargetPath(obs, negates, ps[1..], d1);
      w := w1 + w2;
      forall u ensures TargetOn(act, ps, w + u, d, u, d2) {
        Concat(w1, w2, u);
        assert EvalsOn(act, ps[0].0, ps[0].1, w1 + (w2 + u), d, true, w2 + u, d1);
        assert TargetOn(act, ps[1..], w2 + u, d1, u, d2);
      }
    }
  }

  ghost predicate OptOn<D>(act: Act<Driven<D>>, e: Option<Expr>, t: seq<int>, d: D, u: seq<int>, d2: D) {
    EvalOpt(act, e, Driven(Some(t), d)) == Driven(Some(u), d2) && EvalStep(act, e, Driven(Some(t), d)).1 == Driven(Some(u), d2)
  }

  lemma {:induction false} OptPath<D>(obs: (Action, D) -> D, negates: bool, e: Option<Expr>, d: D) returns (w: seq<int>)
    ensures forall u :: OptOn(Drive(obs, negates), e, w + u, d, u, FullOpt(obs, e, d))
    ensures e.Some? ==> w != []
  {
    var act, d2 := Drive(obs, negates), FullOpt(obs, e, d);
    if e.None? {
      w := [];
      forall u: seq<int> ensures OptOn(act, e, w + u, d, u, d2) { assert w + u == u; }
    } else {
      w := ExprPath(obs, negates, e.value, Val, d, true);
      forall u ensures OptOn(act, e, w + u, d, u, d2) { assert EvalsOn(act, e.value, Val, w + u, d, true, u, d2); }
    }
  }

  // --- what an evaluation has read ---

  lemma ActionReads<D>(obs: (Action, D) -> D, negates: bool, a: Action, vs: seq<int>, r: Driven<D>)
    requires !Silent(a, vs, negates) && Drive(obs, negates)(a, vs, r).1.tape.Some?
    ensures r.tape.Some? && r.tape.value != [] && r.tape.value == [Head(r.tape)] + Drive(obs, negates)(a, vs, r).1.tape.value
  {
    DriveIs(obs, negates, a, vs, r);
  }

  // An evaluation that stays on its tape has read a piece of it, and reads the
  // same from any tape that begins with that piece.
  lemma {:induction false} EvalReads<D>(obs: (Action, D) -> D, negates: bool, e: Expr, mode: Mode, r: Driven<D>) returns (w: seq<int>)
    requires Eval(Drive(obs, negates), e, mode, r).1.tape.Some?
    ensures w != [] && r.tape.Some?
    ensures var (v, r2) := Eval(Drive(obs, negates), e, mode, r);
      r.tape.value == w + r2.tape.value && Evals(Drive(obs, negates), e, mode, w, r.d, v != 0, r2.d)
    decreases e, 1
  {
    var act := Drive(obs, negates);
    var (v, r2) := Eval(act, e, mode, r);
    if e.Ident? {
      var a := if mode == Val then Read(e.name) else Addr(e.name);
      ActionReads(obs, negates, a, [], r);
      w := [Head(r.tape)];
      forall u ensures EvalsOn(act, e, mode, w + u, r.d, v != 0, u, r2.d) { OneAction(obs, negates, a, [], Head(r.tape), u, r.d); }
    } else if e.Group? {
      w := EvalReads(obs, negates, e.inner, mode, r);
      forall u ensures EvalsOn(act, e, mode, w + u, r.d, v != 0, u, r2.d) { assert EvalsOn(act, e.inner, mode, w + u, r.d, v != 0, u, r2.d); }
    } else if Logical(e) {
      w := LogicalReads(obs, negates, e, mode, r);
    } else {
      w := NodeReads(obs, negates, e, mode, r);
    }
  }

  lemma {:induction false} LogicalReads<D>(obs: (Action, D) -> D, negates: bool, e: Expr, mode: Mode, r: Driven<D>) returns (w: seq<int>)
    requires Logical(e) && Eval(Drive(obs, negates), e, mode, r).1.tape.Some?
    ensures w != [] && r.tape.Some?
    ensures var (v, r2) := Eval(Drive(obs, negates), e, mode, r);
      r.tape.value == w + r2.tape.value && Evals(Drive(obs, negates), e, mode, w, r.d, v != 0, r2.d)
    decreases e, 0
  {
    var act := Drive(obs, negates);
    var (v1, r1) := Eval(act, e.left, Val, r);
    var (v, r2) := Eval(act, e, mode, r);
    var w2 := [];
    var on := (v1 != 0) == (e.bop == And);
    if on { w2 := EvalReads(obs, negates, e.right, Val, r1); }
    var w1 := EvalReads(obs, negates, e.left, Val, r);
    w := w1 + w2;
    forall u ensures EvalsOn(act, e, mode, w + u, r.d, v != 0, u, r2.d) {
      Concat(w1, w2, u);
      assert EvalsOn(act, e.left, Val, w1 + (w2 + u), r.d, v1 != 0, w2 + u, r1.d);
      if on { assert EvalsOn(act, e.right, Val, w2 + u, r1.d, v != 0, u, r2.d); } else { assert w2 + u == u; }
    }
  }

  lemma {:induction false} NodeReads<D>(obs: (Action, D) -> D, negates: bool, e: Expr, mode: Mode, r: Driven<D>) returns (w: seq<int>)
    requires !e.Ident? && !e.Group? && !Logical(e) && Eval(Drive(obs, negates), e, mode, r).1.tape.Some?
    ensures w != [] && r.tape.Some?
    ensures var (v, r2) := Eval(Drive(obs, negates), e, mode, r);
      r.tape.value == w + r2.tape.value && Evals(Drive(obs, negates), e, mode, w, r.d, v != 0, r2.d)
    decreases e, 0
  {
    var act, ps := Drive(obs, negates), Parts(e, mode);
    var (vs, r1) := EvalParts(act, e, ps, r);
    var (v, r2) := act(Node(e), vs, r1);
    var silent := negates && IsNot(Node(e));
    if silent { DriveIs(obs, negates, Node(e), vs, r1); } else { ActionReads(obs, negates, Node(e), vs, r1); }
    var last := if silent then [] else [Head(r1.tape)];
    var first := ps != [] && vs[0] != 0;
    var w1 := PartsRead(obs, negates, e, ps, r);
    w := w1 + last;
    forall u ensures EvalsOn(act, e, mode, w + u, r.d, v != 0, u, r2.d) {
      Concat(w1, last, u);
      assert PartsOn(act, e, ps, w1 + (last + u), r.d, first, last + u, r1.d);
      var vs1 := EvalParts(act, e, ps, Driven(Some(w + u), r.d)).0;
      SameNode(obs, negates, e, vs, vs1, r1, last, u);
    }
  }

  // The truth of an operator's value depends on the truth of its first operand
  // and on what is read.
  lemma SameNode<D>(obs: (Action, D) -> D, negates: bool, e: Expr, vs: seq<int>, ws: seq<int>, r: Driven<D>, last: seq<int>, u: seq<int>)
    requires last == (if negates && IsNot(Node(e)) then [] else [Head(r.tape)]) && |vs| == |ws| && (IsNot(Node(e)) ==> |vs| == 1)
    requires vs != [] ==> (vs[0] != 0 <==> ws[0] != 0)
    ensures var (x, y) := (Drive(obs, negates)(Node(e), vs, r), Drive(obs, negates)(Node(e), ws, Driven(Some(last + u), r.d)));
      (x.0 != 0 <==> y.0 != 0) && y.1 == Driven(Some(u), x.1.d)
  {
    DriveIs(obs, negates, Node(e), vs, r);
    DriveIs(obs, negates, Node(e), ws, Driven(Some(last + u), r.d));
    if last == [] { assert last + u == u; } else { OneAction(obs, negates, Node(e), ws, last[0], u, r.d); }
  }

  lemma {:induction false} PartsRead<D>(obs: (Action, D) -> D, negates: bool, whole: Expr, ps: seq<(Expr, Mode)>, r: Driven<D>) returns (w: seq<int>)
    requires (forall p <- ps :: p.0 < whole) && EvalParts(Drive(obs, negates), whole, ps, r).1.tape.Some?
    ensures r.tape.Some?
    ensures var (vs, r2) := EvalParts(Drive(obs, negates), whole, ps, r);
      (ps != [] ==> w != []) && r.tape.value == w + r2.tape.value && forall u :: PartsOn(Drive(obs, negates), whole, ps, w + u, r.d, ps != [] && vs[0] != 0, u, r2.d)
    decreases whole, 0, |ps|
  {
    var act := Drive(obs, negates);
    var (vs, r2) := EvalParts(act, whole, ps, r);
    var first := ps != [] && vs[0] != 0;
    if ps == [] {
      w := [];
      forall u: seq<int> ensures PartsOn(act, whole, ps, w + u, r.d, first, u, r2.d) { assert w + u == u; }
    } else {
      var (v1, r1) := Eval(act, ps[0].0, ps[0].1, r);
      var w2 := PartsRead(obs, negates, whole, ps[1..], r1);
      var w1 := EvalReads(obs, negates, ps[0].0, ps[0].1, r);
      w := w1 + w2;
      var second := ps[1..] != [] && EvalParts(act, whole, ps[1..], r1).0[0] != 0;
      forall u ensures PartsOn(act, whole, ps, w + u, r.d, first, u, r2.d) {
        Concat(w1, w2, u);
        assert EvalsOn(act, ps[0].0, ps[0].1, w1 + (w2 + u), r.d, v1 != 0, w2 + u, r1.d);
        assert PartsOn(act, whole, ps[1..], w2 + u, r1.d, second, u, r2.d);
      }
    }
  }

  lemma {:induction false} TargetReads<D>(obs: (Action, D) -> D, negates: bool, ps: seq<(Expr, Mode)>, r: Driven<D>) returns (w: seq<int>)
    requires EvalTarget(Drive(obs, negates), ps, r).1.tape.Some?
    ensures r.tape.Some?
    ensures var r2 := EvalTarget(Drive(obs, negates), ps, r).1;
      r.tape.value == w + r2.tape.value && forall u :: TargetOn(Drive(obs, negates), ps, w + u, r.d, u, r2.d)
    decreases |ps|
  {
    var act := Drive(obs, negates);
    var r2 := EvalTarget(act, ps, r).1;
    if ps == [] {
      w := [];
      forall u: seq<int> ensures TargetOn(act, ps, w + u, r.d, u, r2.d) { assert w + u == u; }
    } else {
      var (v1, r1) := Eval(act, ps[0].0, ps[0].1, r);
      var w2 := TargetReads(obs, negates, ps[1..], r1);
      var w1 := EvalReads(obs, negates, ps[0].0, ps[0].1, r);
      w := w1 + w2;
      forall u ensures TargetOn(act, ps, w + u, r.d, u, r2.d) {
        Concat(w1, w2, u);
        assert EvalsOn(act, ps[0].0, ps[0].1, w1 + (w2 + u), r.d, v1 != 0, w2 + u, r1.d);
        assert TargetOn(act, ps[1..], w2 + u, r1.d, u, r2.d);
      }
    }
  }

  lemma {:induction false} OptReads<D>(obs: (Action, D) -> D, negates: bool, e: Option<Expr>, r: Driven<D>) returns (w: seq<int>)
    requires EvalOpt(Drive(obs, negates), e, r).tape.Some? || EvalStep(Drive(obs, negates), e, r).1.tape.Some?
    ensures r.tape.Some? && (e.Some? ==> w != [])
    ensures EvalStep(Drive(obs, negates), e, r).1 == EvalOpt(Drive(obs, negates), e, r)
    ensures var r2 := EvalOpt(Drive(obs, negates), e, r);
      r2.tape.Some? && r.tape.value == w + r2.tape.value && forall u :: OptOn(Drive(obs, negates), e, w + u, r.d, u, r2.d)
  {
    var act := Drive(obs, negates);
    var r2 := EvalOpt(act, e, r);
    if e.None? {
      w := [];
      forall u: seq<int> ensures OptOn(act, e, w + u, r.d, u, r2.d) { assert w + u == u; }
    } else {
      w := EvalReads(obs, negates, e.value, Val, r);
      var v := Eval(act, e.value, Val, r).0;
      forall u ensures OptOn(act, e, w + u, r.d, u, r2.d) { assert EvalsOn(act, e.value, Val, w + u, r.d, v != 0, u, r2.d); }
    }
  }
}
