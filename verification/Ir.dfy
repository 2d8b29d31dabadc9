// The target of lowering: labelled blocks, and a machine that runs them.
//
// Falling into a label is a crash, so is jumping to a label that is not there
// and a phi reached from a block it does not name. The machine remembers the
// current block and the one it came from, as phis require.
module Ir {
  import opened Ast
  import opened Semantics

  datatype Label = Entry | Lab(n: nat)

  datatype Operand = Reg(r: nat) | Imm(v: int)

  datatype Line =
    | Mark(l: Label)
    | Br(l: Label)
    | CondBr(c: Operand, yes: Label, no: Label)
    | Ret(result: Option<Operand>)
    | Switch(v: Operand, cases: seq<(seq<Pattern>, Label)>, other: Label)
    | Do(dst: nat, a: Action, args: seq<Operand>)
    | Phi(dst: nat, v0: Operand, from0: Label, v1: Operand, from1: Label)

  type Code = seq<Line>

  datatype Config<S> =
    | Running(pc: nat, regs: map<nat, int>, cur: Label, prev: Label, s: S)
    | Halted(s: S)
    | Crashed

  function Get(op: Operand, regs: map<nat, int>): int {
    match op
    case Imm(v) => v
    case Reg(r) => if r in regs then regs[r] else 0
  }

  function Gets(ops: seq<Operand>, regs: map<nat, int>): seq<int> {
    seq(|ops|, i requires 0 <= i < |ops| => Get(ops[i], regs))
  }

  function PosFrom(p: Code, l: Label, i: nat): (r: nat)
    requires i <= |p|
    ensures i <= r <= |p| && (r < |p| ==> p[r] == Mark(l))
    decreases |p| - i
  {
    if i == |p| || p[i] == Mark(l) then i else PosFrom(p, l, i + 1)
  }

  function Jump<S>(p: Code, l: Label, m: Config<S>): Config<S>
    requires m.Running?
  {
    var i := PosFrom(p, l, 0);
    if i < |p| then Running(i + 1, m.regs, l, m.cur, m.s) else Crashed
  }

  // The case a switch takes: the first whose patterns match. `Switches` shows that
  // for variants this is the jump to the one case that lists the value.
  function Pick<S>(act: Act<S>, cases: seq<(seq<Pattern>, Label)>, other: Label, v: int, s: S): (Label, S)
    decreases |cases|
  {
    if cases == [] then (other, s)
    else
      var (hit, s1) := act(Select(cases[0].0), [v], s);
      if hit != 0 then (cases[0].1, s1) else Pick(act, cases[1..], other, v, s1)
  }

  function Step<S>(act: Act<S>, p: Code, m: Config<S>): Config<S> {
    if !m.Running? then m
    else if m.pc >= |p| then Crashed
    else match p[m.pc]
      case Mark(_) => Crashed
      case Br(l) => Jump(p, l, m)
      case CondBr(c, yes, no) => Jump(p, if Get(c, m.regs) != 0 then yes else no, m)
      case Ret(None) => Halted(m.s)
      case Ret(Some(v)) => Halted(act(Result, [Get(v, m.regs)], m.s).1)
      case Switch(v, cases, other) =>
        var (l, s1) := Pick(act, cases, other, Get(v, m.regs), m.s);
        Jump(p, l, m.(s := s1))
      case Do(dst, a, args) =>
        var (v, s1) := act(a, Gets(args, m.regs), m.s);
        Running(m.pc + 1, m.regs[dst := v], m.cur, m.prev, s1)
      case Phi(dst, v0, from0, v1, from1) =>
        if m.prev == from0 then m.(pc := m.pc + 1, regs := m.regs[dst := Get(v0, m.regs)])
        else if m.prev == from1 then m.(pc := m.pc + 1, regs := m.regs[dst := Get(v1, m.regs)])
        else Crashed
  }

  function Steps<S>(act: Act<S>, p: Code, m: Config<S>, k: nat): Config<S>
    decreases k
  {
    if k == 0 then m else Steps(act, p, Step(act, p, m), k - 1)
  }

  lemma {:induction false} StepsAdd<S>(act: Act<S>, p: Code, m: Config<S>, j: nat, k: nat)
    ensures Steps(act, p, m, j + k) == Steps(act, p, Steps(act, p, m, j), k)
    decreases j
  {
    if j > 0 { StepsAdd(act, p, Step(act, p, m), j - 1, k); }
  }

  lemma {:induction false} StoppedStays<S>(act: Act<S>, p: Code, m: Config<S>, k: nat)
    requires !m.Running?
    ensures Steps(act, p, m, k) == m
    decreases k
  {
    if k > 0 { StoppedStays(act, p, m, k - 1); }
  }

  // --- code inside a program ---

  ghost predicate Unique(p: Code) {
    forall i, j :: 0 <= i < |p| && 0 <= j < |p| && p[i].Mark? && p[i] == p[j] ==> i == j
  }

  // The lines `code` stand in `p` from position `pc` on. Single lines are
  // looked up with `LineAt`, which keeps the quantifier out of other proofs.
  ghost predicate CodeAt(p: Code, pc: nat, code: Code) {
    pc + |code| <= |p| && forall i {:trigger Offset(i)} :: 0 <= i < |code| && Offset(i) ==> p[pc + i] == code[i]
  }

  ghost predicate Offset(i: int) { true }

  lemma LineAt(p: Code, pc: nat, code: Code, i: nat)
    requires CodeAt(p, pc, code) && i < |code|
    ensures p[pc + i] == code[i]
  {
    assert Offset(i);
  }

  // The first lines, all at once.
  lemma Lines(p: Code, pc: nat, code: Code)
    requires CodeAt(p, pc, code)
    ensures |code| > 0 ==> p[pc] == code[0]
    ensures |code| > 1 ==> p[pc + 1] == code[1]
    ensures |code| > 2 ==> p[pc + 2] == code[2]
    ensures |code| > 3 ==> p[pc + 3] == code[3]
  {
    assert Offset(0) && Offset(1) && Offset(2) && Offset(3);
  }

  lemma CodeSplit(p: Code, pc: nat, a: Code, b: Code)
    requires CodeAt(p, pc, a + b)
    ensures CodeAt(p, pc, a) && CodeAt(p, pc + |a|, b)
  {
    forall i | 0 <= i < |a| ensures p[pc + i] == a[i] { LineAt(p, pc, a + b, i); }
    forall i | 0 <= i < |b| ensures p[pc + |a| + i] == b[i] { LineAt(p, pc, a + b, |a| + i); }
  }

  lemma FourPieces(p: Code, pc: nat, code: Code, a: Code, b: Code, c: Code, d: Code)
    requires code == a + b + c + d && CodeAt(p, pc, code)
    ensures CodeAt(p, pc, a) && CodeAt(p, pc + |a|, b) && CodeAt(p, pc + |a| + |b|, c) && CodeAt(p, pc + |a| + |b| + |c|, d)
    ensures |code| == |a| + |b| + |c| + |d|
  {
    CodeSplit(p, pc, a + b + c, d);
    CodeSplit(p, pc, a + b, c);
    CodeSplit(p, pc, a, b);
  }

  lemma JumpLands<S>(p: Code, l: Label, i: nat, m: Config<S>)
    requires Unique(p) && i < |p| && p[i] == Mark(l) && m.Running?
    ensures Jump(p, l, m) == Running(i + 1, m.regs, l, m.cur, m.s)
  {
    PosFinds(p, l, 0, i);
  }

  lemma {:induction false} PosFinds(p: Code, l: Label, k: nat, i: nat)
    requires Unique(p) && k <= i < |p| && p[i] == Mark(l)
    ensures PosFrom(p, l, k) == i
    decreases i - k
  {
    if k < i { PosFinds(p, l, k + 1, i); }
  }

  // Registers below `n` keep their values.
  ghost predicate Agree(a: map<nat, int>, b: map<nat, int>, n: nat) {
    forall r :: r < n && r in a ==> r in b && b[r] == a[r]
  }

  // --- structure of code ---

  function Count(code: Code, l: Label): nat {
    if code == [] then 0 else (if code[0] == Mark(l) then 1 else 0) + Count(code[1..], l)
  }

  lemma {:induction false} CountConcat(a: Code, b: Code, l: Label)
    ensures Count(a + b, l) == Count(a, l) + Count(b, l)
    decreases a
  {
    if a == [] {
      assert a + b == b;
    } else {
      assert (a + b)[1..] == a[1..] + b;
      CountConcat(a[1..], b, l);
    }
  }

  predicate InRange(l: Label, lo: nat, hi: nat) { l.Lab? && lo <= l.n < hi }

  // How often a label may be defined by code that owns the labels lo..hi.
  function Quota(l: Label, lo: nat, hi: nat): nat { if InRange(l, lo, hi) then 1 else 0 }

  lemma {:induction false} CountAt(p: Code, i: nat)
    requires i < |p| && p[i].Mark?
    ensures Count(p, p[i].l) >= 1
    decreases p
  {
    if i > 0 { CountAt(p[1..], i - 1); }
  }

  lemma {:induction false} CountTwice(p: Code, i: nat, j: nat)
    requires i < j < |p| && p[i].Mark? && p[i] == p[j]
    ensures Count(p, p[i].l) >= 2
  {
    assert p == p[..j] + p[j..];
    CountConcat(p[..j], p[j..], p[i].l);
    CountAt(p[..j], i);
    CountAt(p[j..], 0);
  }

  lemma {:induction false} UniqueByCount(p: Code)
    requires forall l :: Count(p, l) <= 1
    ensures Unique(p)
  {
    forall i, j | 0 <= i < |p| && 0 <= j < |p| && p[i].Mark? && p[i] == p[j] ensures i == j {
      if i < j { CountTwice(p, i, j); }
      if j < i { CountTwice(p, j, i); }
    }
  }

  predicate Terminator(line: Line) { line.Br? || line.CondBr? || line.Ret? || line.Switch? }

  // Runs of lines seen from inside a block (`open`) or between blocks. `None`
  // if some block does not end in exactly one terminator.
  function Shape(code: Code, open: bool): Option<bool> {
    if code == [] then Some(open)
    else if code[0].Mark? then (if open then None else Shape(code[1..], true))
    else if !open then None
    else Shape(code[1..], !Terminator(code[0]))
  }

  lemma {:induction false} ShapeConcat(a: Code, b: Code, open: bool)
    ensures Shape(a + b, open) == (match Shape(a, open) case None => None case Some(o) => Shape(b, o))
    decreases a
  {
    if a == [] {
      assert a + b == b;
    } else {
      assert (a + b)[0] == a[0] && (a + b)[1..] == a[1..] + b;
      if a[0].Mark? {
        if !open { ShapeConcat(a[1..], b, true); }
      } else if open {
        ShapeConcat(a[1..], b, !Terminator(a[0]));
      }
    }
  }

  function One(line: Line, l: Label): nat { if line == Mark(l) then 1 else 0 }

  // Count and shape of the short straight pieces.
  lemma Single(a: Line, l: Label, open: bool)
    ensures Count([a], l) == One(a, l)
    ensures Shape([a], open) == if a.Mark? then (if open then None else Some(true)) else if open then Some(!Terminator(a)) else None
  {
    assert [a][1..] == [];
  }

  lemma Pair(a: Line, b: Line, l: Label, open: bool)
    ensures Count([a, b], l) == One(a, l) + One(b, l)
    ensures Shape([a, b], open) == (match Shape([a], open) case None => None case Some(o) => Shape([b], o))
  {
    assert [a, b] == [a] + [b];
    CountConcat([a], [b], l);
    ShapeConcat([a], [b], open);
    Single(a, l, open);
    Single(b, l, open);
  }

  lemma Triple(a: Line, b: Line, c: Line, l: Label, open: bool)
    ensures Count([a, b, c], l) == One(a, l) + One(b, l) + One(c, l)
    ensures Shape([a, b, c], open) == (match Shape([a, b], open) case None => None case Some(o) => Shape([c], o))
  {
    assert [a, b, c] == [a, b] + [c];
    CountConcat([a, b], [c], l);
    ShapeConcat([a, b], [c], open);
    Pair(a, b, l, open);
    Single(c, l, open);
  }
}
