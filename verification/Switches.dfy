// What the switch a match on an enum is lowered to does with a value, against
// the order in which arms are tried.
module Switches {
  import opened Ast
  import opened Semantics
  import opened Ir
  import opened Emit
  import opened LowerStmt

  // The discriminants a run of patterns lists.
  function Listed(ps: seq<Pattern>): set<int> { set p <- ps | p.PVariant? :: p.disc }

  // What the coverage check accepts on an enum: variants and `_` only, and no
  // variant in two arms. A variant is its discriminant here; an enum giving two
  // variants one discriminant has no valid switch over both.
  predicate Covered(arms: seq<Arm>) {
    && (forall arm <- arms :: arm.patterns != [] && forall p <- arm.patterns :: p.PVariant? || p.PWild?)
    && (forall i, j :: 0 <= i < j < |arms| ==> Listed(arms[i].patterns) !! Listed(arms[j].patterns))
  }

  // Variant patterns are tested by value, and testing them does nothing.
  ghost predicate ByValue<S(!new)>(act: Act<S>) {
    forall ps: seq<Pattern>, v, s :: (forall p <- ps :: p.PVariant?) ==> act(Select(ps), [v], s) == (if v in Listed(ps) then 1 else 0, s)
  }

  // --- the order of the source ---

  // The first arm that matches, from arm `i` on.
  function FirstMatch(arms: seq<Arm>, i: nat, v: int): (r: Option<nat>)
    requires i <= |arms|
    ensures r.Some? ==> i <= r.value < |arms|
    decreases |arms| - i
  {
    if i == |arms| then None
    else if PWild in arms[i].patterns || v in Listed(arms[i].patterns) then Some(i)
    else FirstMatch(arms, i + 1, v)
  }

  lemma {:induction false} OrderRuns<S(!new)>(act: Act<S>, arms: seq<Arm>, i: nat, v: int, s: S)
    requires i <= |arms| && Covered(arms) && ByValue(act)
    ensures Chosen(act, arms, i, v, s) == (FirstMatch(arms, i, v), s)
    decreases |arms| - i
  {
    if i < |arms| {
      assert arms[i] in arms;
      if PWild !in arms[i].patterns {
        assert act(Select(arms[i].patterns), [v], s) == (if v in Listed(arms[i].patterns) then 1 else 0, s);
        OrderRuns(act, arms, i + 1, v, s);
      }
    }
  }

  // --- the switch ---

  // The first arm without `_` that lists the value, from arm `i` on.
  function ListedAt(arms: seq<Arm>, i: nat, v: int): (r: Option<nat>)
    requires i <= |arms|
    ensures r.Some? ==> i <= r.value < |arms| && PWild !in arms[r.value].patterns && v in Listed(arms[r.value].patterns)
    ensures r.None? ==> forall j :: i <= j < |arms| && PWild !in arms[j].patterns ==> v !in Listed(arms[j].patterns)
    decreases |arms| - i
  {
    if i == |arms| then None
    else if PWild !in arms[i].patterns && v in Listed(arms[i].patterns) then Some(i)
    else ListedAt(arms, i + 1, v)
  }

  function WildAt(arms: seq<Arm>, i: nat): (r: Option<nat>)
    requires i <= |arms|
    ensures r.Some? ==> i <= r.value < |arms| && PWild in arms[r.value].patterns && forall j :: i <= j < r.value ==> PWild !in arms[j].patterns
    ensures r.None? ==> forall j :: i <= j < |arms| ==> PWild !in arms[j].patterns
    decreases |arms| - i
  {
    if i == |arms| then None else if PWild in arms[i].patterns then Some(i) else WildAt(arms, i + 1)
  }

  // The arm a switch enters: one that lists the value, wherever it stands, and the
  // `_` arm for values that none lists.
  function SwitchArm(arms: seq<Arm>, v: int): Option<nat> {
    if ListedAt(arms, 0, v).Some? then ListedAt(arms, 0, v) else WildAt(arms, 0)
  }

  function LabelOf(j: Option<nat>, arm0: nat, end: Label): Label { if j.Some? then Lab(arm0 + j.value) else end }

  lemma {:induction false} PickFrom<S(!new)>(act: Act<S>, arms: seq<Arm>, i: nat, arm0: nat, other: Label, v: int, s: S)
    requires i <= |arms| && Covered(arms) && ByValue(act)
    ensures Pick(act, CasesFrom(arms, i, arm0), other, v, s) == (if ListedAt(arms, i, v).Some? then Lab(arm0 + ListedAt(arms, i, v).value) else other, s)
    decreases |arms| - i
  {
    if i < |arms| {
      assert arms[i] in arms;
      PickFrom(act, arms, i + 1, arm0, other, v, s);
      var (cases, rest) := (CasesFrom(arms, i, arm0), CasesFrom(arms, i + 1, arm0));
      if PWild in arms[i].patterns {
        assert cases == rest;
      } else {
        assert cases[1..] == rest && cases[0] == (arms[i].patterns, Lab(arm0 + i));
        assert act(Select(arms[i].patterns), [v], s) == (if v in Listed(arms[i].patterns) then 1 else 0, s);
      }
    }
  }

  lemma {:induction false} OtherIsWild(arms: seq<Arm>, i: nat, arm0: nat, end: Label)
    requires i <= |arms|
    ensures OtherFrom(arms, i, arm0, end) == LabelOf(WildAt(arms, i), arm0, end)
    decreases |arms| - i
  {
    if i < |arms| { OtherIsWild(arms, i + 1, arm0, end); }
  }

  // The step of the emitted switch: a jump by the value alone.
  lemma {:induction false} SwitchJumps<S(!new)>(act: Act<S>, p: Code, arms: seq<Arm>, v: Operand, arm0: nat, end: Label, m: Config<S>)
    requires Covered(arms) && ByValue(act) && m.Running? && m.pc < |p|
    requires p[m.pc] == Switch(v, CasesFrom(arms, 0, arm0), OtherFrom(arms, 0, arm0, end))
    ensures Step(act, p, m) == Jump(p, LabelOf(SwitchArm(arms, Get(v, m.regs)), arm0, end), m)
  {
    PickFrom(act, arms, 0, arm0, OtherFrom(arms, 0, arm0, end), Get(v, m.regs), m.s);
    OtherIsWild(arms, 0, arm0, end);
  }

  // --- the two against each other ---

  // No variant is listed twice, so the order of the cases does not matter.
  lemma OneCase(arms: seq<Arm>, v: int, k: nat)
    requires Covered(arms) && k < |arms| && PWild !in arms[k].patterns && v in Listed(arms[k].patterns)
    ensures SwitchArm(arms, v) == Some(k)
  {
    assert ListedAt(arms, 0, v).Some?;
  }

  lemma {:induction false} FirstMatchIs(arms: seq<Arm>, i: nat, v: int, k: nat)
    requires i <= k < |arms| && (PWild in arms[k].patterns || v in Listed(arms[k].patterns))
    requires forall j :: i <= j < k ==> PWild !in arms[j].patterns && v !in Listed(arms[j].patterns)
    ensures FirstMatch(arms, i, v) == Some(k)
    decreases k - i
  {
    if i < k { FirstMatchIs(arms, i + 1, v, k); }
  }

  lemma {:induction false} NoMatch(arms: seq<Arm>, i: nat, v: int)
    requires i <= |arms| && forall j :: i <= j < |arms| ==> PWild !in arms[j].patterns && v !in Listed(arms[j].patterns)
    ensures FirstMatch(arms, i, v) == None
    decreases |arms| - i
  {
    if i < |arms| { NoMatch(arms, i + 1, v); }
  }

  // The switch enters the first arm that matches, for every value, exactly when
  // no arm with a test comes after the `_` arm.
  lemma {:induction false} SwitchFollowsOrder(arms: seq<Arm>)
    requires Covered(arms)
    ensures (forall v :: SwitchArm(arms, v) == FirstMatch(arms, 0, v)) <==> WildLast(arms)
  {
    if WildLast(arms) {
      forall v ensures SwitchArm(arms, v) == FirstMatch(arms, 0, v) { OrderedAgree(arms, v); }
    } else {
      var i, j :| 0 <= i < j < |arms| && PWild in arms[i].patterns && PWild !in arms[j].patterns;
      var d := SkippedVariant(arms, i, j);
      assert SwitchArm(arms, d) != FirstMatch(arms, 0, d);
    }
  }

  lemma OrderedAgree(arms: seq<Arm>, v: int)
    requires Covered(arms) && WildLast(arms)
    ensures SwitchArm(arms, v) == FirstMatch(arms, 0, v)
  {
    var (a, b) := (ListedAt(arms, 0, v), WildAt(arms, 0));
    if a.Some? {
      forall j | 0 <= j < a.value ensures PWild !in arms[j].patterns && v !in Listed(arms[j].patterns) {
        assert Listed(arms[j].patterns) !! Listed(arms[a.value].patterns);
      }
      FirstMatchIs(arms, 0, v, a.value);
    } else if b.Some? {
      FirstMatchIs(arms, 0, v, b.value);
    } else {
      NoMatch(arms, 0, v);
    }
  }

  // A variant listed after a `_` arm: the source never gets to it, the switch does.
  lemma SkippedVariant(arms: seq<Arm>, i: nat, j: nat) returns (d: int)
    requires Covered(arms) && i < j < |arms| && PWild in arms[i].patterns && PWild !in arms[j].patterns
    ensures d in Listed(arms[j].patterns) && SwitchArm(arms, d) == Some(j)
    ensures FirstMatch(arms, 0, d).Some? && FirstMatch(arms, 0, d).value <= i
  {
    assert arms[j] in arms;
    var p := arms[j].patterns[0];
    d := p.disc;
    assert p in arms[j].patterns && d in Listed(arms[j].patterns);
    OneCase(arms, d, j);
    MatchedBy(arms, 0, d, i);
  }

  lemma {:induction false} MatchedBy(arms: seq<Arm>, i: nat, v: int, k: nat)
    requires i <= k < |arms| && PWild in arms[k].patterns
    ensures FirstMatch(arms, i, v).Some? && FirstMatch(arms, i, v).value <= k
    decreases k - i
  {
    if i < k && PWild !in arms[i].patterns && v !in Listed(arms[i].patterns) { MatchedBy(arms, i + 1, v, k); }
  }

  // The shortest such match, which the coverage check accepts: tried in order the
  // `_` arm takes every value, by the switch the variant does not reach it.
  lemma DefaultFirst(d: int, a: Block, b: Block)
    ensures var arms := [Arm([PWild], a), Arm([PVariant(d)], b)];
      Covered(arms) && OnEnum(arms) && FirstMatch(arms, 0, d) == Some(0) && SwitchArm(arms, d) == Some(1)
  {
    var arms := [Arm([PWild], a), Arm([PVariant(d)], b)];
    assert arms[1] in arms && PVariant(d) in arms[1].patterns;
    assert Listed(arms[0].patterns) == {} && Listed(arms[1].patterns) == {d};
    OneCase(arms, d, 1);
  }
}
