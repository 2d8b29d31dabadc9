// Const items are resolved in rounds until nothing changes. Two passes do it
// with the expression evaluator and one with the interpreter, so the loop is
// stated for any evaluator that never changes its mind.
module ConstResolution {
  import opened Ast
  import ConstEval

  datatype Item = Item(name: string, init: Expr)

  // What an initializer evaluates to once some consts are known.
  type Evaluator<!V> = (Expr, map<string, V>) -> Option<V>

  ghost predicate Within<V>(m: map<string, V>, n: map<string, V>) {
    forall x <- m :: x in n && n[x] == m[x]
  }

  ghost predicate Monotone<V(!new)>(ev: Evaluator<V>) {
    forall e, m, n :: ev(e, m).Some? && Within(m, n) ==> ev(e, n) == ev(e, m)
  }

  ghost predicate Distinct(items: seq<Item>) {
    forall i, j :: 0 <= i < |items| && 0 <= j < |items| && items[i].name == items[j].name ==> i == j
  }

  // --- the reference: rounds that look only at the round before ---

  function ItemsUpTo<V>(items: seq<Item>, i: nat, ev: Evaluator<V>, known: map<string, V>): map<string, V>
    requires i <= |items|
  {
    if i == 0 then map[]
    else
      var m := ItemsUpTo(items, i - 1, ev, known);
      match ev(items[i - 1].init, known) case None => m case Some(v) => m[items[i - 1].name := v]
  }

  function Stage<V>(items: seq<Item>, ev: Evaluator<V>, k: nat): map<string, V> {
    if k == 0 then map[] else ItemsUpTo(items, |items|, ev, Stage(items, ev, k - 1))
  }

  lemma {:induction false} ItemsAt<V>(items: seq<Item>, i: nat, ev: Evaluator<V>, known: map<string, V>, x: string)
    requires i <= |items| && Distinct(items)
    ensures var m := ItemsUpTo(items, i, ev, known);
      && (x in m ==> exists j :: 0 <= j < i && items[j].name == x && ev(items[j].init, known) == Some(m[x]))
      && (forall j :: 0 <= j < i && items[j].name == x && ev(items[j].init, known).Some? ==> x in m)
    decreases i
  {
    if i > 0 { ItemsAt(items, i - 1, ev, known, x); }
  }

  // A const is in the next stage exactly when its initializer evaluates there.
  lemma {:induction false} StageAt<V>(items: seq<Item>, ev: Evaluator<V>, k: nat, it: Item)
    requires Distinct(items) && it in items
    ensures it.name in Stage(items, ev, k + 1) <==> ev(it.init, Stage(items, ev, k)).Some?
    ensures it.name in Stage(items, ev, k + 1) ==> ev(it.init, Stage(items, ev, k)) == Some(Stage(items, ev, k + 1)[it.name])
  {
    ItemsAt(items, |items|, ev, Stage(items, ev, k), it.name);
    var i :| 0 <= i < |items| && items[i] == it;
  }

  lemma {:induction false} StageNames<V>(items: seq<Item>, ev: Evaluator<V>, k: nat, x: string)
    requires Distinct(items) && x in Stage(items, ev, k)
    ensures exists it <- items :: it.name == x
  {
    ItemsAt(items, |items|, ev, Stage(items, ev, k - 1), x);
  }

  lemma {:induction false} StagesGrow<V(!new)>(items: seq<Item>, ev: Evaluator<V>, k: nat)
    requires Distinct(items) && Monotone(ev)
    ensures Within(Stage(items, ev, k), Stage(items, ev, k + 1))
    decreases k
  {
    if k > 0 {
      StagesGrow(items, ev, k - 1);
      var (a, b) := (Stage(items, ev, k - 1), Stage(items, ev, k));
      forall x | x in b ensures x in Stage(items, ev, k + 1) && Stage(items, ev, k + 1)[x] == b[x] {
        StageNames(items, ev, k, x);
        var it :| it in items && it.name == x;
        StageAt(items, ev, k - 1, it);
        StageAt(items, ev, k, it);
        assert ev(it.init, b) == ev(it.init, a);
      }
    }
  }

  // Values of which nothing more follows.
  ghost predicate Settled<V>(items: seq<Item>, ev: Evaluator<V>, m: map<string, V>) {
    forall it <- items :: ev(it.init, m).Some? ==> it.name in m
  }

  lemma {:induction false} StageInSettled<V(!new)>(items: seq<Item>, ev: Evaluator<V>, m: map<string, V>, k: nat)
    requires Distinct(items) && Monotone(ev) && Settled(items, ev, m)
    requires forall it <- items :: it.name in m ==> ev(it.init, m) == Some(m[it.name])
    ensures Within(Stage(items, ev, k), m)
    decreases k
  {
    if k > 0 {
      StageInSettled(items, ev, m, k - 1);
      forall x | x in Stage(items, ev, k) ensures x in m && m[x] == Stage(items, ev, k)[x] {
        StageNames(items, ev, k, x);
        var it :| it in items && it.name == x;
        StageAt(items, ev, k - 1, it);
      }
    }
  }

  // --- the loop ---

  function NamesOf(items: seq<Item>): set<string> { set it <- items :: it.name }

  // A state of the loop: every value known follows from values known, after at
  // most `k` rounds of the reference.
  ghost predicate Progress<V>(items: seq<Item>, ev: Evaluator<V>, m: map<string, V>, k: nat) {
    && m.Keys <= NamesOf(items) && Within(m, Stage(items, ev, k))
    && forall it <- items :: it.name in m ==> ev(it.init, m) == Some(m[it.name])
  }

  lemma {:induction false} ItemAdds<V(!new)>(items: seq<Item>, ev: Evaluator<V>, m: map<string, V>, k: nat, it: Item, v: V)
    requires Distinct(items) && Monotone(ev) && Progress(items, ev, m, k) && it in items && it.name !in m && ev(it.init, m) == Some(v)
    ensures Progress(items, ev, m[it.name := v], k + 1)
  {
    var n := m[it.name := v];
    assert Within(m, n);
    assert ev(it.init, Stage(items, ev, k)) == Some(v);
    StageAt(items, ev, k, it);
    StagesGrow(items, ev, k);
    forall jt | jt in items && jt.name in n ensures ev(jt.init, n) == Some(n[jt.name]) {
      if jt.name == it.name { assert jt == it; }
    }
  }

  lemma {:induction false} KeysBounded<V>(items: seq<Item>, m: map<string, V>)
    requires m.Keys <= NamesOf(items)
    ensures |m| <= |items|
  {
    NamesCount(items);
    SubsetCount(m.Keys, NamesOf(items));
  }

  lemma {:induction false} NamesCount(items: seq<Item>)
    ensures |NamesOf(items)| <= |items|
    decreases items
  {
    if items != [] {
      NamesCount(items[1..]);
      assert NamesOf(items) == {items[0].name} + NamesOf(items[1..]);
    }
  }

  lemma {:induction false} SubsetCount<T>(a: set<T>, b: set<T>)
    requires a <= b
    ensures |a| <= |b|
    decreases a
  {
    if a != {} {
      var x :| x in a;
      SubsetCount(a - {x}, b - {x});
    }
  }

  // --- the answer ---

  // What the loop returns is the limit of the reference stages, whatever order
  // the items come in.
  ghost predicate Limit<V>(items: seq<Item>, ev: Evaluator<V>, m: map<string, V>) {
    exists k: nat :: m == Stage(items, ev, k) && Stage(items, ev, k + 1) == m
  }

  lemma {:induction false} CollectedIsLimit<V(!new)>(items: seq<Item>, ev: Evaluator<V>, m: map<string, V>, k: nat)
    requires Distinct(items) && Monotone(ev) && Settled(items, ev, m) && Progress(items, ev, m, k)
    ensures m == Stage(items, ev, k) && Limit(items, ev, m)
  {
    StageInSettled(items, ev, m, k);
    StageInSettled(items, ev, m, k + 1);
    StagesGrow(items, ev, k);
    SameMaps(m, Stage(items, ev, k));
    SameMaps(m, Stage(items, ev, k + 1));
  }

  lemma SameMaps<V>(m: map<string, V>, n: map<string, V>)
    requires Within(m, n) && Within(n, m)
    ensures m == n
  {
    forall x ensures x in m <==> x in n {}
    assert m.Keys == n.Keys;
  }

  // Rounds over the items in their order, each using the values found so far in
  // the same round, until a round finds nothing.
  method Collect<V(!new)>(items: seq<Item>, ev: Evaluator<V>) returns (vals: map<string, V>, rounds: nat)
    requires Distinct(items) && Monotone(ev)
    ensures Limit(items, ev, vals)
    ensures rounds <= |items| + 1
  {
    vals, rounds := map[], 0;
    var changed := true;
    ghost var k := 0;
    assert Within(vals, Stage(items, ev, 0));
    while changed
      invariant Progress(items, ev, vals, k)
      invariant !changed ==> Settled(items, ev, vals)
      invariant rounds <= |vals| + (if changed then 0 else 1)
      decreases NamesOf(items) - vals.Keys, changed
    {
      changed := false;
      rounds := rounds + 1;
      ghost var before := vals;
      for i := 0 to |items|
        invariant Progress(items, ev, vals, k) && before.Keys <= vals.Keys
        invariant changed <==> vals.Keys != before.Keys
        invariant |vals| >= |before| + if changed then 1 else 0
        invariant !changed ==> vals == before && forall j :: 0 <= j < i && ev(items[j].init, vals).Some? ==> items[j].name in vals
      {
        if items[i].name !in vals {
          var r := ev(items[i].init, vals);
          if r.Some? {
            ItemAdds(items, ev, vals, k, items[i], r.value);
            vals := vals[items[i].name := r.value];
            changed := true;
            k := k + 1;
          }
        }
      }
    }
    KeysBounded(items, vals);
    CollectedIsLimit(items, ev, vals, k);
  }

  lemma {:induction false} LimitIsLast<V(!new)>(items: seq<Item>, ev: Evaluator<V>, m: map<string, V>, k: nat)
    requires Distinct(items) && Monotone(ev) && Limit(items, ev, m)
    ensures Within(Stage(items, ev, k), m)
  {
    LimitSettled(items, ev, m);
    StageInSettled(items, ev, m, k);
  }

  lemma LimitSettled<V(!new)>(items: seq<Item>, ev: Evaluator<V>, m: map<string, V>)
    requires Distinct(items) && Monotone(ev) && Limit(items, ev, m)
    ensures Settled(items, ev, m) && forall it <- items :: it.name in m ==> ev(it.init, m) == Some(m[it.name])
  {
    var k: nat :| m == Stage(items, ev, k) && Stage(items, ev, k + 1) == m;
    forall it | it in items ensures (ev(it.init, m).Some? ==> it.name in m) && (it.name in m ==> ev(it.init, m) == Some(m[it.name])) {
      StageAt(items, ev, k, it);
    }
  }

  // The order of the items does not matter.
  lemma {:induction false} OrderIsIrrelevant<V(!new)>(items: seq<Item>, other: seq<Item>, ev: Evaluator<V>, m: map<string, V>, n: map<string, V>)
    requires Distinct(items) && Distinct(other) && (forall it :: it in items <==> it in other) && Monotone(ev)
    requires Limit(items, ev, m) && Limit(other, ev, n)
    ensures m == n
  {
    LimitSettled(items, ev, m);
    LimitSettled(other, ev, n);
    var k: nat :| m == Stage(items, ev, k) && Stage(items, ev, k + 1) == m;
    var l: nat :| n == Stage(other, ev, l) && Stage(other, ev, l + 1) == n;
    StageInSettled(items, ev, n, k);
    StageInSettled(other, ev, m, l);
    SameMaps(m, n);
  }

  // Consts each of which cannot be evaluated without one of the others.
  ghost predicate Entangled<V>(items: seq<Item>, ev: Evaluator<V>, m: map<string, V>, knot: set<string>) {
    forall it <- items :: it.name in knot ==> ev(it.init, m - knot).None?
  }

  // A const is left out exactly when it is part of such a knot: consts that wait
  // for each other in a circle, wait for one that does, or have no value at all.
  lemma {:induction false} LeftOutExactly<V(!new)>(items: seq<Item>, ev: Evaluator<V>, m: map<string, V>, x: string)
    requires Distinct(items) && Monotone(ev) && Limit(items, ev, m) && x in NamesOf(items)
    ensures x !in m <==> exists knot :: x in knot && Entangled(items, ev, m, knot)
  {
    LimitSettled(items, ev, m);
    if x !in m {
      var knot := NamesOf(items) - m.Keys;
      assert m - knot == m;
      assert Entangled(items, ev, m, knot);
    }
    if knot :| x in knot && Entangled(items, ev, m, knot) {
      var k: nat :| m == Stage(items, ev, k) && Stage(items, ev, k + 1) == m;
      KnotStaysOut(items, ev, m, knot, k);
    }
  }

  lemma {:induction false} KnotStaysOut<V(!new)>(items: seq<Item>, ev: Evaluator<V>, m: map<string, V>, knot: set<string>, k: nat)
    requires Distinct(items) && Monotone(ev) && Limit(items, ev, m) && Entangled(items, ev, m, knot)
    ensures Stage(items, ev, k).Keys !! knot
    decreases k
  {
    if k > 0 {
      KnotStaysOut(items, ev, m, knot, k - 1);
      LimitIsLast(items, ev, m, k - 1);
      var known := Stage(items, ev, k - 1);
      assert Within(known, m - knot);
      forall it | it in items && it.name in knot ensures it.name !in Stage(items, ev, k) {
        NothingBelow(ev, it.init, known, m - knot);
        StageAt(items, ev, k - 1, it);
      }
      forall x | x in Stage(items, ev, k) ensures x !in knot { StageNames(items, ev, k, x); }
    }
  }

  lemma NothingBelow<V(!new)>(ev: Evaluator<V>, e: Expr, m: map<string, V>, n: map<string, V>)
    requires Monotone(ev) && Within(m, n) && ev(e, n).None?
    ensures ev(e, m).None?
  {
    if ev(e, m).Some? { assert ev(e, n) == ev(e, m); }
  }

  // An initializer replaced by one that always yields the value resolved for it.
  ghost predicate Replaced<V(!new)>(a: Item, b: Item, ev: Evaluator<V>, m: map<string, V>) {
    a.name == b.name && (a == b || (a.name in m && forall known :: ev(b.init, known) == Some(m[a.name])))
  }

  // Such replacements change no const's value, and leave no const out.
  lemma {:induction false} ReplacingKeepsValues<V(!new)>(items: seq<Item>, other: seq<Item>, ev: Evaluator<V>, m: map<string, V>, n: map<string, V>)
    requires Distinct(items) && Monotone(ev) && |other| == |items| && (forall i :: 0 <= i < |items| ==> Replaced(items[i], other[i], ev, m))
    requires Limit(items, ev, m) && Limit(other, ev, n)
    ensures m == n
  {
    LimitSettled(items, ev, m);
    assert Distinct(other);
    LimitSettled(other, ev, n);
    var k: nat :| m == Stage(items, ev, k) && Stage(items, ev, k + 1) == m;
    var l: nat :| n == Stage(other, ev, l) && Stage(other, ev, l + 1) == n;
    ReplacedStageIn(items, other, ev, m, l);
    StageInReplaced(items, other, ev, m, n, k);
    SameMaps(m, n);
  }

  lemma {:induction false} ReplacedStageIn<V(!new)>(items: seq<Item>, other: seq<Item>, ev: Evaluator<V>, m: map<string, V>, l: nat)
    requires Distinct(items) && Distinct(other) && Monotone(ev) && |other| == |items| && (forall i :: 0 <= i < |items| ==> Replaced(items[i], other[i], ev, m))
    requires Limit(items, ev, m)
    ensures Within(Stage(other, ev, l), m)
    decreases l
  {
    if l > 0 {
      ReplacedStageIn(items, other, ev, m, l - 1);
      LimitSettled(items, ev, m);
      var known := Stage(other, ev, l - 1);
      forall x | x in Stage(other, ev, l) ensures x in m && m[x] == Stage(other, ev, l)[x] {
        StageNames(other, ev, l, x);
        var i :| 0 <= i < |other| && other[i].name == x;
        StageAt(other, ev, l - 1, other[i]);
        assert Replaced(items[i], other[i], ev, m);
        if items[i] == other[i] { assert ev(items[i].init, m) == ev(items[i].init, known); }
      }
    }
  }

  lemma {:induction false} StageInReplaced<V(!new)>(items: seq<Item>, other: seq<Item>, ev: Evaluator<V>, m: map<string, V>, n: map<string, V>, k: nat)
    requires Distinct(items) && Distinct(other) && Monotone(ev) && |other| == |items| && (forall i :: 0 <= i < |items| ==> Replaced(items[i], other[i], ev, m))
    requires Limit(items, ev, m) && Limit(other, ev, n)
    ensures Within(Stage(items, ev, k), n)
    decreases k
  {
    if k > 0 {
      StageInReplaced(items, other, ev, m, n, k - 1);
      LimitIsLast(items, ev, m, k);
      LimitSettled(other, ev, n);
      var known := Stage(items, ev, k - 1);
      forall x | x in Stage(items, ev, k) ensures x in n && n[x] == Stage(items, ev, k)[x] {
        StageNames(items, ev, k, x);
        var i :| 0 <= i < |items| && items[i].name == x;
        StageAt(items, ev, k - 1, items[i]);
        assert Replaced(items[i], other[i], ev, m);
        assert other[i] in other;
        if items[i] == other[i] { assert ev(items[i].init, n) == ev(items[i].init, known); }
      }
    }
  }

  // --- the checker's and the emitter's map ---

  function Plain(): Evaluator<ConstEval.ConstVal> { (e, m) => ConstEval.EvalConst(e, m) }

  // Both passes that use the plain evaluator reach this map.
  lemma {:induction false} PlainIsMonotone()
    ensures Monotone(Plain())
  {
    var ev := Plain();
    forall e, m, n | ev(e, m).Some? && Within(m, n) ensures ev(e, n) == ev(e, m) { ConstEval.EvalMonotone(e, m, n); }
  }

  method CollectConstValues(items: seq<Item>) returns (vals: map<string, ConstEval.ConstVal>)
    requires Distinct(items)
    ensures Limit(items, Plain(), vals)
  {
    PlainIsMonotone();
    var rounds;
    vals, rounds := Collect(items, Plain());
  }
}
