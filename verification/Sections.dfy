// What a running function does to the interrupt masks, the spinlocks and the
// shared statics, as a sequence of events, and the discipline those events keep.
module Sections {
  import opened Ast
  import opened ControlFlow
  import opened Semantics
  import opened Contexts
  import Ceilings
  import opened Claims
  import Borrow

  // A mask is a BASEPRI level, or `None` for PRIMASK, which masks everything.
  datatype Event =
    | Mask(level: Option<Priority>)
    | Unmask
    | Lock(x: string)
    | Unlock(x: string)
    | Use(x: string)   // from here ...
    | Done(x: string)  // ... to here the static must not be touched by others
    | Begin(x: string) // the same for the body of a window over it ...
    | End(x: string)
    | CallFn(f: string)
    | CallPtr

  // The target: whether BASEPRI is missing, how many hardware priorities there
  // are, the ceilings of the shared statics, which of them have a spinlock, and
  // the known functions.
  datatype Target = Target(v6m: bool, priorities: nat, ceilings: map<string, Priority>, locked: set<string>, fns: set<string>)
  {
    // The mask instrument for a ceiling: BASEPRI exists, cannot express 0, and
    // only knows real interrupt priorities.
    function MaskFor(ceiling: Priority): Option<Priority> {
      if !v6m && 0 < ceiling < priorities then Some(ceiling) else None
    }

    // One access by whole name: inside a window bare, outside it with a section
    // of its own where the declared context needs one.
    function Touch(ctx: Context, x: string, depth: nat): seq<Event> {
      if x !in ceilings then []
      else if depth == 0 && ctx.NeedsCriticalSection(ceilings[x]) then [Mask(MaskFor(ceilings[x])), Use(x), Done(x), Unmask]
      else [Use(x), Done(x)]
    }

    // An access through a projection never has a section.
    function Raw(x: string): seq<Event> {
      if x in ceilings then [Use(x), Done(x)] else []
    }

    // The opening half of a claim: mask first, then lock. A nested claim adds
    // no second mask.
    function Open(x: string, depth: nat): seq<Event> {
      (if depth == 0 then [Mask(if x in ceilings then MaskFor(ceilings[x]) else None)] else [])
      + (if x in locked then [Lock(x)] else []) + [Begin(x)]
    }

    // The closing half: unlock first, then unmask.
    function Close(x: string, depth: nat): seq<Event> {
      [End(x)] + (if x in locked then [Unlock(x)] else []) + (if depth == 1 then [Unmask] else [])
    }

    function Events(ctx: Context, a: Action, depth: nat): seq<Event> {
      match a
      case Read(x) => Touch(ctx, x, depth)
      case Addr(x) => Raw(x)
      case Store(lv) => if lv.LName? then Touch(ctx, lv.name, depth) else if HasRoot(lv) then Raw(Root(lv)) else []
      case Enter(x) => Open(x, depth)
      case Leave(x) => Close(x, depth)
      case Node(e) => if !e.Call? then [] else if Ceilings.DirectCall(e, fns) then [CallFn(e.callee.name)] else [CallPtr]
      case _ => []
    }
  }

  // The variable a target is a projection of, if it is one.
  predicate HasRoot(lv: LValue) {
    match lv
    case LName(_) => true
    case LField(b, _) => HasRoot(b)
    case LIndex(b, _) => HasRoot(b)
    case LDeref(_) => false
  }

  function Root(lv: LValue): string
    requires HasRoot(lv)
  {
    match lv
    case LName(x) => x
    case LField(b, _) => Root(b)
    case LIndex(b, _) => Root(b)
  }

  // A data state, the claim depth, and the events so far.
  datatype Traced<D> = Traced(d: D, depth: nat, trace: seq<Event>)

  function DepthAfter(a: Action, depth: nat): nat {
    if a.Enter? then depth + 1 else if a.Leave? && depth > 0 then depth - 1 else depth
  }

  // Any evaluation of the data, recording what is done to masks, locks and
  // statics.
  function Tracing<D>(base: Act<D>, t: Target, ctx: Context): Act<Traced<D>> {
    (a: Action, vs: seq<int>, s: Traced<D>) =>
      var (v, d) := base(a, vs, s.d);
      (v, Traced(d, DepthAfter(a, s.depth), s.trace + t.Events(ctx, a, s.depth)))
  }

  // --- the discipline ---

  // The mask of the open section or window, the statics in use, the locks held,
  // and the statics of the windows the code is inside.
  datatype Hold = Hold(open: Option<Option<Priority>>, used: seq<string>, locks: seq<string>, windows: seq<string>)

  const Idle := Hold(None, [], [], [])

  // Between accesses, what is in use is what the windows are over.
  function Held(open: Option<Option<Priority>>, used: seq<string>, locks: seq<string>): Hold { Hold(open, used, locks, used) }

  // A mask keeps everyone who may touch a static of ceiling `c` from preempting
  // code that runs in context `r`: it is global, or reaches the ceiling, or the
  // code itself does.
  predicate Covers(mask: Option<Priority>, r: Context, c: Priority) {
    mask.None? || mask.value <= c || (r.Isr? && r.p <= c)
  }

  // Using a static of ceiling `c`, with this mask or without one, is safe.
  predicate Guarded(open: Option<Option<Priority>>, r: Context, c: Priority) {
    r.CanAccess(c) && match open case None => r == Isr(c) case Some(mask) => Covers(mask, r, c)
  }

  predicate IsTop(s: seq<string>, x: string) { s != [] && s[|s| - 1] == x }

  function Popped(s: seq<string>): seq<string> { if s == [] then [] else s[..|s| - 1] }

  function Apply(h: Hold, e: Event): Hold {
    match e
    case Mask(l) => h.(open := Some(l))
    case Unmask => h.(open := None)
    case Lock(x) => h.(locks := h.locks + [x])
    case Unlock(_) => h.(locks := Popped(h.locks))
    case Use(x) => h.(used := h.used + [x])
    case Done(_) => h.(used := Popped(h.used))
    case Begin(x) => h.(used := h.used + [x], windows := h.windows + [x])
    case End(_) => h.(used := Popped(h.used), windows := Popped(h.windows))
    case _ => h
  }

  predicate Allowed(t: Target, r: Context, h: Hold, e: Event) {
    match e
    case Mask(l) => h == Idle && (l.Some? ==> l.value > 0)
    case Unmask => h.open.Some? && h.used == [] && h.locks == [] && h.windows == []
    case Lock(x) => x in t.ceilings && h.open.Some? && Guarded(h.open, r, t.ceilings[x]) && x !in h.locks
    case Unlock(x) => IsTop(h.locks, x) && x !in h.windows
    case Use(x) => x in t.ceilings && Guarded(h.open, r, t.ceilings[x])
    case Done(x) => IsTop(h.used, x)
    case Begin(x) => x in t.ceilings && h.open.Some? && Guarded(h.open, r, t.ceilings[x]) && (x in t.locked ==> x in h.locks)
    case End(x) => IsTop(h.used, x) && IsTop(h.windows, x)
    case CallFn(_) => h == Idle
    case CallPtr => h == Idle
  }

  function Advance(t: Target, r: Context, h: Hold, e: Event): Option<Hold> {
    if Allowed(t, r, h, e) then Some(Apply(h, e)) else None
  }

  function Follow(t: Target, r: Context, h: Hold, es: seq<Event>): Option<Hold>
    decreases |es|
  {
    if es == [] then Some(h)
    else match Advance(t, r, h, es[0]) case None => None case Some(h1) => Follow(t, r, h1, es[1..])
  }

  lemma {:induction false} FollowConcat(t: Target, r: Context, h: Hold, a: seq<Event>, b: seq<Event>)
    ensures Follow(t, r, h, a + b) == match Follow(t, r, h, a) case None => None case Some(h1) => Follow(t, r, h1, b)
    decreases |a|
  {
    if a == [] {
      assert a + b == b;
    } else {
      assert (a + b)[0] == a[0] && (a + b)[1..] == a[1..] + b;
      match Advance(t, r, h, a[0])
      case None =>
      case Some(h1) => FollowConcat(t, r, h1, a[1..], b);
    }
  }

  // --- what is asked of a body ---

  // Inside a window every shared static mentioned is covered by the window's
  // mask; outside, shared statics are used by whole name only.
  predicate IdentOk(t: Target, r: Context, x: string, mode: Mode, w: Option<Option<Priority>>) {
    x in t.ceilings ==> if w.None? then mode == Val else Covers(w.value, r, t.ceilings[x])
  }

  // No call inside a window, and no shared static as, or inside, a callee.
  predicate CallOk(t: Target, e: Expr, w: Option<Option<Priority>>) {
    e.Call? ==> w.None? && Names(e.callee) !! t.ceilings.Keys
  }

  predicate ExprOk(t: Target, r: Context, e: Expr, mode: Mode, w: Option<Option<Priority>>)
    decreases e
  {
    (e.Ident? ==> IdentOk(t, r, e.name, mode, w)) && CallOk(t, e, w) && forall p <- Parts(e, mode) :: ExprOk(t, r, p.0, p.1, w)
  }

  predicate OptOk(t: Target, r: Context, e: Option<Expr>, w: Option<Option<Priority>>) {
    e.Some? ==> ExprOk(t, r, e.value, Val, w)
  }

  predicate TargetOk(t: Target, r: Context, lv: LValue, w: Option<Option<Priority>>) {
    && (forall p <- TargetParts(lv) :: ExprOk(t, r, p.0, p.1, w))
    && (HasRoot(lv) ==> IdentOk(t, r, Root(lv), if lv.LName? then Val else Place, w))
  }

  predicate BlockOk(t: Target, r: Context, b: Block, w: Option<Option<Priority>>)
    decreases b
  {
    (forall s <- b.stmts :: StmtOk(t, r, s, w)) && OptOk(t, r, b.trailing, w)
  }

  // A claim inside a window is of a static that the mask in force covers.
  predicate StmtOk(t: Target, r: Context, s: Stmt, w: Option<Option<Priority>>)
    decreases s
  {
    match s
    case VarDecl(_, _, init) => ExprOk(t, r, init, Val, w)
    case Assign(lv, v) => ExprOk(t, r, v, Val, w) && TargetOk(t, r, lv, w)
    case CompoundAssign(lv, op, v) => ExprOk(t, r, Binary(lv.ToExpr(), op, v), Val, w) && TargetOk(t, r, lv, w)
    case ExprStmt(e) => ExprOk(t, r, e, Val, w)
    case If(c, a, b) => ExprOk(t, r, c, Val, w) && BlockOk(t, r, a, w) && BlockOk(t, r, b, w)
    case Loop(b) => BlockOk(t, r, b, w)
    case While(c, b) => ExprOk(t, r, c, Val, w) && BlockOk(t, r, b, w)
    case For(_, a, _, z, k, b) => ExprOk(t, r, a, Val, w) && ExprOk(t, r, z, Val, w) && OptOk(t, r, k, w) && BlockOk(t, r, b, w)
    case Match(e, arms) => ExprOk(t, r, e, Val, w) && forall arm <- arms :: BlockOk(t, r, arm.body, w)
    case Return(e) => OptOk(t, r, e, w)
    case Break => true
    case Continue => true
    case BlockStmt(b) => BlockOk(t, r, b, w)
    case Claim(x, b) =>
      x in t.ceilings ==>
        && (w.Some? ==> Covers(w.value, r, t.ceilings[x]))
        && BlockOk(t, r, b, if w.Some? then w else Some(t.MaskFor(t.ceilings[x])))
  }

  // The access walk has let every visited access of a shared static pass: no
  // E402 in this context.
  ghost predicate Passed(t: Target, r: Context, sites: seq<Borrow.Site>) {
    forall x <- t.ceilings :: Borrow.Access(x) in sites ==> r.CanAccess(t.ceilings[x])
  }

  // A function declared `ctx` can be running in `r`.
  predicate RunsAs(ctx: Context, r: Context) { r != Any && (ctx != Any ==> r == ctx) }

  // --- every body keeps the discipline ---

  ghost predicate Keeps<D>(t: Target, r: Context, s: Traced<D>, w: Option<Option<Priority>>, used: seq<string>, locks: seq<string>) {
    && Follow(t, r, Idle, s.trace) == Some(Held(w, used, locks)) && s.depth == |used|
    && (w.None? <==> used == []) && (used == [] ==> locks == [])
  }

  lemma TouchKeeps(t: Target, ctx: Context, r: Context, x: string, w: Option<Option<Priority>>, used: seq<string>, locks: seq<string>)
    requires RunsAs(ctx, r) && IdentOk(t, r, x, Val, w) && (x in t.ceilings ==> r.CanAccess(t.ceilings[x]))
    requires (w.None? <==> used == []) && (used == [] ==> locks == [])
    ensures Follow(t, r, Held(w, used, locks), t.Touch(ctx, x, |used|)) == Some(Held(w, used, locks))
  {
    if x in t.ceilings {
      var h := Held(w, used, locks);
      if w.None? && ctx.NeedsCriticalSection(t.ceilings[x]) {
        var mask := t.MaskFor(t.ceilings[x]);
        SectionFollows(t, r, x, mask);
      } else {
        assert Guarded(w, r, t.ceilings[x]);
        UseFollows(t, r, x, h);
      }
    }
  }

  lemma UseFollows(t: Target, r: Context, x: string, h: Hold)
    requires x in t.ceilings && Guarded(h.open, r, t.ceilings[x])
    ensures Follow(t, r, h, [Use(x), Done(x)]) == Some(h)
  {
    var h1 := h.(used := h.used + [x]);
    assert [Use(x), Done(x)][1..] == [Done(x)] && [Done(x)][1..] == [];
    assert h1.used[..|h1.used| - 1] == h.used;
    assert Advance(t, r, h1, Done(x)) == Some(h);
    assert Follow(t, r, h1, [Done(x)]) == Some(h);
  }

  lemma SectionFollows(t: Target, r: Context, x: string, mask: Option<Priority>)
    requires x in t.ceilings && Guarded(Some(mask), r, t.ceilings[x]) && (mask.Some? ==> mask.value > 0)
    ensures Follow(t, r, Idle, [Mask(mask), Use(x), Done(x), Unmask]) == Some(Idle)
  {
    var h := Held(Some(mask), [], []);
    assert [Mask(mask), Use(x), Done(x), Unmask] == [Mask(mask)] + ([Use(x), Done(x)] + [Unmask]);
    FollowConcat(t, r, Idle, [Mask(mask)], [Use(x), Done(x)] + [Unmask]);
    FollowConcat(t, r, h, [Use(x), Done(x)], [Unmask]);
    UseFollows(t, r, x, h);
    assert [Mask(mask)][1..] == [] && [Unmask][1..] == [];
    assert Follow(t, r, Idle, [Mask(mask)]) == Some(h);
    assert Follow(t, r, h, [Unmask]) == Some(Idle);
  }

  lemma RawKeeps(t: Target, r: Context, x: string, mode: Mode, w: Option<Option<Priority>>, used: seq<string>, locks: seq<string>)
    requires IdentOk(t, r, x, mode, w) && mode != Val && (x in t.ceilings ==> r.CanAccess(t.ceilings[x]))
    ensures Follow(t, r, Held(w, used, locks), t.Raw(x)) == Some(Held(w, used, locks))
  {
    if x in t.ceilings { UseFollows(t, r, x, Held(w, used, locks)); }
  }

  // One action whose events bring the discipline back to where it was.
  lemma ActKeeps<D>(base: Act<D>, t: Target, ctx: Context, r: Context, a: Action, vs: seq<int>, s: Traced<D>,
                    w: Option<Option<Priority>>, used: seq<string>, locks: seq<string>)
    requires Keeps(t, r, s, w, used, locks) && !a.Enter? && !a.Leave?
    requires Follow(t, r, Held(w, used, locks), t.Events(ctx, a, s.depth)) == Some(Held(w, used, locks))
    ensures Keeps(t, r, Tracing(base, t, ctx)(a, vs, s).1, w, used, locks)
  {
    var ev := t.Events(ctx, a, s.depth);
    var s1 := Tracing(base, t, ctx)(a, vs, s).1;
    assert s1 == Traced(base(a, vs, s.d).1, s.depth, s.trace + ev);
    FollowConcat(t, r, Idle, s.trace, ev);
  }

  lemma QuietKeeps<D>(base: Act<D>, t: Target, ctx: Context, r: Context, a: Action, vs: seq<int>, s: Traced<D>,
                      w: Option<Option<Priority>>, used: seq<string>, locks: seq<string>)
    requires Keeps(t, r, s, w, used, locks) && (a.Declare? || a.ForInit? || a.ForMore? || a.ForStep? || a.Select? || a.Result?)
    ensures Keeps(t, r, Tracing(base, t, ctx)(a, vs, s).1, w, used, locks)
  {
    ActKeeps(base, t, ctx, r, a, vs, s, w, used, locks);
  }

  // --- expressions ---

  // An expression that is in order: accepted by the walk, and asked for above.
  ghost predicate Fine(t: Target, r: Context, e: Expr, mode: Mode, w: Option<Option<Priority>>) {
    ExprOk(t, r, e, mode, w) && Passed(t, r, Borrow.ExprSites(e))
  }

  lemma {:induction false} SitesContain(es: seq<Expr>, i: nat, x: string)
    requires i < |es| && Borrow.Access(x) in Borrow.ExprSites(es[i])
    ensures Borrow.Access(x) in Borrow.SitesOf(es)
    decreases es
  {
    if i > 0 { SitesContain(es[1..], i - 1, x); }
  }

  lemma ElementPassed(t: Target, r: Context, es: seq<Expr>, i: nat)
    requires i < |es| && Passed(t, r, Borrow.SitesOf(es))
    ensures Passed(t, r, Borrow.ExprSites(es[i]))
  {
    forall x | x in t.ceilings && Borrow.Access(x) in Borrow.ExprSites(es[i]) ensures r.CanAccess(t.ceilings[x]) { SitesContain(es, i, x); }
  }

  lemma {:induction false} PartFine(t: Target, r: Context, e: Expr, mode: Mode, w: Option<Option<Priority>>, i: nat)
    requires Fine(t, r, e, mode, w) && i < |Parts(e, mode)|
    ensures Fine(t, r, Parts(e, mode)[i].0, Parts(e, mode)[i].1, w)
  {
    var p := Parts(e, mode)[i];
    assert p in Parts(e, mode);
    if e.Call? {
      if i == 0 {
        forall x | x in t.ceilings ensures Borrow.Access(x) !in Borrow.ExprSites(e.callee) { Borrow.ExprMention(e.callee, x); }
      } else {
        ElementPassed(t, r, e.args, i - 1);
      }
    } else if e.ArrayInit? {
      ElementPassed(t, r, e.elems, i);
    } else if e.Build? {
      ElementPassed(t, r, e.parts, i);
    }
  }

  lemma {:induction false} EvalKeeps<D>(base: Act<D>, t: Target, ctx: Context, r: Context, e: Expr, mode: Mode, s: Traced<D>,
                                        w: Option<Option<Priority>>, used: seq<string>, locks: seq<string>)
    requires Keeps(t, r, s, w, used, locks) && RunsAs(ctx, r) && Fine(t, r, e, mode, w)
    ensures Keeps(t, r, Eval(Tracing(base, t, ctx), e, mode, s).1, w, used, locks)
    decreases e, 1
  {
    var act := Tracing(base, t, ctx);
    if e.Ident? {
      IdentKeeps(base, t, ctx, r, e.name, mode, s, w, used, locks);
    } else if e.Group? {
      PartFine(t, r, e, mode, w, 0);
      EvalKeeps(base, t, ctx, r, e.inner, mode, s, w, used, locks);
    } else if Logical(e) {
      PartFine(t, r, e, mode, w, 0);
      PartFine(t, r, e, mode, w, 1);
      EvalKeeps(base, t, ctx, r, e.left, Val, s, w, used, locks);
      var s1 := Eval(act, e.left, Val, s).1;
      EvalKeeps(base, t, ctx, r, e.right, Val, s1, w, used, locks);
    } else {
      forall i | 0 <= i < |Parts(e, mode)| ensures Fine(t, r, Parts(e, mode)[i].0, Parts(e, mode)[i].1, w) { PartFine(t, r, e, mode, w, i); }
      PartsKeep(base, t, ctx, r, e, Parts(e, mode), s, w, used, locks);
      var (vs, s1) := EvalParts(act, e, Parts(e, mode), s);
      NodeKeeps(base, t, ctx, r, e, vs, s1, w, used, locks);
    }
  }

  lemma IdentKeeps<D>(base: Act<D>, t: Target, ctx: Context, r: Context, x: string, mode: Mode, s: Traced<D>,
                      w: Option<Option<Priority>>, used: seq<string>, locks: seq<string>)
    requires Keeps(t, r, s, w, used, locks) && RunsAs(ctx, r) && Fine(t, r, Ident(x), mode, w)
    ensures Keeps(t, r, Eval(Tracing(base, t, ctx), Ident(x), mode, s).1, w, used, locks)
  {
    if mode == Val {
      TouchKeeps(t, ctx, r, x, w, used, locks);
      ActKeeps(base, t, ctx, r, Read(x), [], s, w, used, locks);
    } else {
      RawKeeps(t, r, x, mode, w, used, locks);
      ActKeeps(base, t, ctx, r, Addr(x), [], s, w, used, locks);
    }
  }

  // A call runs outside windows, with nothing held.
  lemma NodeKeeps<D>(base: Act<D>, t: Target, ctx: Context, r: Context, e: Expr, vs: seq<int>, s: Traced<D>,
                     w: Option<Option<Priority>>, used: seq<string>, locks: seq<string>)
    requires Keeps(t, r, s, w, used, locks) && CallOk(t, e, w)
    ensures Keeps(t, r, Tracing(base, t, ctx)(Node(e), vs, s).1, w, used, locks)
  {
    if e.Call? {
      var ev := t.Events(ctx, Node(e), s.depth);
      assert ev[1..] == [];
      assert Advance(t, r, Idle, ev[0]) == Some(Idle);
      assert Follow(t, r, Held(w, used, locks), ev) == Some(Held(w, used, locks));
    }
    ActKeeps(base, t, ctx, r, Node(e), vs, s, w, used, locks);
  }

  lemma {:induction false} PartsKeep<D>(base: Act<D>, t: Target, ctx: Context, r: Context, whole: Expr, ps: seq<(Expr, Mode)>, s: Traced<D>,
                                        w: Option<Option<Priority>>, used: seq<string>, locks: seq<string>)
    requires Keeps(t, r, s, w, used, locks) && RunsAs(ctx, r)
    requires (forall p <- ps :: p.0 < whole) && forall i :: 0 <= i < |ps| ==> Fine(t, r, ps[i].0, ps[i].1, w)
    ensures Keeps(t, r, EvalParts(Tracing(base, t, ctx), whole, ps, s).1, w, used, locks)
    decreases whole, 0, |ps|
  {
    if ps != [] {
      EvalKeeps(base, t, ctx, r, ps[0].0, ps[0].1, s, w, used, locks);
      var s1 := Eval(Tracing(base, t, ctx), ps[0].0, ps[0].1, s).1;
      PartsKeep(base, t, ctx, r, whole, ps[1..], s1, w, used, locks);
    }
  }

  lemma {:induction false} TargetKeeps<D>(base: Act<D>, t: Target, ctx: Context, r: Context, ps: seq<(Expr, Mode)>, s: Traced<D>,
                                          w: Option<Option<Priority>>, used: seq<string>, locks: seq<string>)
    requires Keeps(t, r, s, w, used, locks) && RunsAs(ctx, r) && forall i :: 0 <= i < |ps| ==> Fine(t, r, ps[i].0, ps[i].1, w)
    ensures Keeps(t, r, EvalTarget(Tracing(base, t, ctx), ps, s).1, w, used, locks)
    decreases |ps|
  {
    if ps != [] {
      EvalKeeps(base, t, ctx, r, ps[0].0, ps[0].1, s, w, used, locks);
      var s1 := Eval(Tracing(base, t, ctx), ps[0].0, ps[0].1, s).1;
      TargetKeeps(base, t, ctx, r, ps[1..], s1, w, used, locks);
    }
  }

  lemma {:induction false} TargetSites(lv: LValue)
    ensures Borrow.ExprSites(lv.ToExpr()) == Borrow.LSites(lv)
    decreases lv
  {
    match lv
    case LField(b, _) => TargetSites(b);
    case LIndex(b, _) => TargetSites(b);
    case _ =>
  }

  lemma {:induction false} RootIsSite(lv: LValue)
    requires HasRoot(lv)
    ensures Borrow.Access(Root(lv)) in Borrow.LSites(lv)
    decreases lv
  {
    match lv
    case LField(b, _) => RootIsSite(b);
    case LIndex(b, _) => RootIsSite(b);
    case LName(_) =>
  }

  lemma TargetPartsFine(t: Target, r: Context, lv: LValue, w: Option<Option<Priority>>)
    requires TargetOk(t, r, lv, w) && Passed(t, r, Borrow.LSites(lv))
    ensures forall i :: 0 <= i < |TargetParts(lv)| ==> Fine(t, r, TargetParts(lv)[i].0, TargetParts(lv)[i].1, w)
  {
    var ps := TargetParts(lv);
    forall i | 0 <= i < |ps| ensures Fine(t, r, ps[i].0, ps[i].1, w) {
      assert ps[i] in ps;
      match lv
      case LField(b, _) => TargetSites(b);
      case LIndex(b, _) => TargetSites(b);
      case _ =>
    }
  }

  lemma {:induction false} AssignKeeps<D>(base: Act<D>, t: Target, ctx: Context, r: Context, lv: LValue, value: Expr, s: Traced<D>,
                                          w: Option<Option<Priority>>, used: seq<string>, locks: seq<string>)
    requires Keeps(t, r, s, w, used, locks) && RunsAs(ctx, r)
    requires Fine(t, r, value, Val, w) && TargetOk(t, r, lv, w) && Passed(t, r, Borrow.LSites(lv))
    ensures ExecAssign(Tracing(base, t, ctx), lv, value, s).0 == Normal
    ensures Keeps(t, r, ExecAssign(Tracing(base, t, ctx), lv, value, s).1, w, used, locks)
  {
    var act := Tracing(base, t, ctx);
    EvalKeeps(base, t, ctx, r, value, Val, s, w, used, locks);
    var (v, s1) := Eval(act, value, Val, s);
    TargetPartsFine(t, r, lv, w);
    TargetKeeps(base, t, ctx, r, TargetParts(lv), s1, w, used, locks);
    var (vs, s2) := EvalTarget(act, TargetParts(lv), s1);
    if HasRoot(lv) {
      RootIsSite(lv);
      if lv.LName? { TouchKeeps(t, ctx, r, lv.name, w, used, locks); } else { RawKeeps(t, r, Root(lv), Place, w, used, locks); }
    }
    ActKeeps(base, t, ctx, r, Store(lv), vs + [v], s2, w, used, locks);
  }

  // --- statements ---

  lemma PassedSplit(t: Target, r: Context, a: seq<Borrow.Site>, b: seq<Borrow.Site>)
    requires Passed(t, r, a + b)
    ensures Passed(t, r, a) && Passed(t, r, b)
  {}

  lemma {:induction false} StmtPassed(t: Target, r: Context, b: Block, n: nat, i: nat)
    requires i < n <= |b.stmts| && Passed(t, r, Borrow.SitesUpTo(b, n))
    ensures Passed(t, r, Borrow.StmtSites(b.stmts[i]))
    decreases n
  {
    PassedSplit(t, r, Borrow.SitesUpTo(b, n - 1), Borrow.StmtSites(b.stmts[n - 1]));
    if i < n - 1 { StmtPassed(t, r, b, n - 1, i); }
  }

  lemma {:induction false} ArmPassed(t: Target, r: Context, s: Stmt, n: nat, i: nat)
    requires s.Match? && i < n <= |s.arms| && Passed(t, r, Borrow.ArmSites(s, n))
    ensures Passed(t, r, Borrow.BlockSites(s.arms[i].body))
    decreases n
  {
    PassedSplit(t, r, Borrow.ArmSites(s, n - 1), Borrow.BlockSites(s.arms[n - 1].body));
    if i < n - 1 { ArmPassed(t, r, s, n - 1, i); }
  }

  // A body in order: what is asked above, the walk's approval, and claims as
  // E614 requires them.
  ghost predicate Sane(t: Target, r: Context, b: Block, w: Option<Option<Priority>>, claimed: set<string>) {
    BlockOk(t, r, b, w) && Passed(t, r, Borrow.BlockSites(b)) && ClaimsCheckedBlock(b) && NoReclaim(b, t.ceilings.Keys, claimed)
  }

  ghost predicate SaneStmt(t: Target, r: Context, s: Stmt, w: Option<Option<Priority>>, claimed: set<string>) {
    StmtOk(t, r, s, w) && Passed(t, r, Borrow.StmtSites(s)) && ClaimsCheckedStmt(s) && NoReclaimStmt(s, t.ceilings.Keys, claimed)
  }

  // After a run: cut off anywhere, the discipline has held so far; otherwise it
  // is back where it was.
  ghost predicate Kept<D>(t: Target, r: Context, o: Outcome, s: Traced<D>, w: Option<Option<Priority>>, used: seq<string>, locks: seq<string>) {
    if o == Timeout then Follow(t, r, Idle, s.trace).Some? else Keeps(t, r, s, w, used, locks)
  }

  // The claims in force: the stack of names, and the locks among them.
  ghost predicate Stack(used: seq<string>, locks: seq<string>, claimed: set<string>) {
    (forall x <- used :: x in claimed) && forall x <- locks :: x in claimed
  }

  lemma {:induction false} BlockKeeps<D>(base: Act<D>, t: Target, ctx: Context, r: Context, b: Block, s: Traced<D>, fuel: nat,
                                         w: Option<Option<Priority>>, used: seq<string>, locks: seq<string>, claimed: set<string>)
    requires Keeps(t, r, s, w, used, locks) && RunsAs(ctx, r) && Sane(t, r, b, w, claimed) && Stack(used, locks, claimed)
    ensures var (o, s1) := ExecBlock(Tracing(base, t, ctx), b, s, fuel); Kept(t, r, o, s1, w, used, locks)
    decreases fuel, b, |b.stmts| + 1
  {
    FromKeeps(base, t, ctx, r, b, 0, s, fuel, w, used, locks, claimed);
  }

  lemma {:induction false} FromKeeps<D>(base: Act<D>, t: Target, ctx: Context, r: Context, b: Block, i: nat, s: Traced<D>, fuel: nat,
                                        w: Option<Option<Priority>>, used: seq<string>, locks: seq<string>, claimed: set<string>)
    requires i <= |b.stmts| && Keeps(t, r, s, w, used, locks) && RunsAs(ctx, r) && Sane(t, r, b, w, claimed) && Stack(used, locks, claimed)
    ensures var (o, s1) := ExecFrom(Tracing(base, t, ctx), b, i, s, fuel); Kept(t, r, o, s1, w, used, locks)
    decreases fuel, b, |b.stmts| - i
  {
    PassedSplit(t, r, Borrow.SitesUpTo(b, |b.stmts|), Borrow.OptSites(b.trailing));
    if i == |b.stmts| {
      if b.trailing.Some? { EvalKeeps(base, t, ctx, r, b.trailing.value, Val, s, w, used, locks); }
    } else {
      assert b.stmts[i] in b.stmts;
      StmtPassed(t, r, b, |b.stmts|, i);
      StmtKeeps(base, t, ctx, r, b.stmts[i], s, fuel, w, used, locks, claimed);
      var (o, s1) := ExecStmt(Tracing(base, t, ctx), b.stmts[i], s, fuel);
      if o == Normal { FromKeeps(base, t, ctx, r, b, i + 1, s1, fuel, w, used, locks, claimed); }
    }
  }

  lemma {:induction false} StmtKeeps<D>(base: Act<D>, t: Target, ctx: Context, r: Context, st: Stmt, s: Traced<D>, fuel: nat,
                                        w: Option<Option<Priority>>, used: seq<string>, locks: seq<string>, claimed: set<string>)
    requires Keeps(t, r, s, w, used, locks) && RunsAs(ctx, r) && SaneStmt(t, r, st, w, claimed) && Stack(used, locks, claimed)
    ensures var (o, s1) := ExecStmt(Tracing(base, t, ctx), st, s, fuel); Kept(t, r, o, s1, w, used, locks)
    decreases fuel, st, 2
  {
    match st
    case If(_, _, _) => IfKeeps(base, t, ctx, r, st, s, fuel, w, used, locks, claimed);
    case Loop(_) => LoopKeeps(base, t, ctx, r, st, s, fuel, w, used, locks, claimed);
    case While(_, _) => LoopKeeps(base, t, ctx, r, st, s, fuel, w, used, locks, claimed);
    case For(_, _, _, _, _, _) => ForStartKeeps(base, t, ctx, r, st, s, fuel, w, used, locks, claimed);
    case Match(_, _) => MatchKeeps(base, t, ctx, r, st, s, fuel, w, used, locks, claimed);
    case BlockStmt(b) => BlockKeeps(base, t, ctx, r, b, s, fuel, w, used, locks, claimed);
    case Claim(_, _) => ClaimKeeps(base, t, ctx, r, st, s, fuel, w, used, locks, claimed);
    case Break =>
    case Continue =>
    case _ => SimpleKeeps(base, t, ctx, r, st, s, fuel, w, used, locks, claimed);
  }

  lemma {:induction false} SimpleKeeps<D>(base: Act<D>, t: Target, ctx: Context, r: Context, st: Stmt, s: Traced<D>, fuel: nat,
                                          w: Option<Option<Priority>>, used: seq<string>, locks: seq<string>, claimed: set<string>)
    requires st.VarDecl? || st.Assign? || st.CompoundAssign? || st.ExprStmt? || st.Return?
    requires Keeps(t, r, s, w, used, locks) && RunsAs(ctx, r) && SaneStmt(t, r, st, w, claimed)
    ensures var (o, s1) := ExecStmt(Tracing(base, t, ctx), st, s, fuel); Kept(t, r, o, s1, w, used, locks)
  {
    var act := Tracing(base, t, ctx);
    match st
    case VarDecl(x, moves, init) =>
      EvalKeeps(base, t, ctx, r, init, Val, s, w, used, locks);
      var (v, s1) := Eval(act, init, Val, s);
      QuietKeeps(base, t, ctx, r, Declare(x, moves), [v], s1, w, used, locks);
    case Assign(lv, value) => AssignKeeps(base, t, ctx, r, lv, value, s, w, used, locks);
    case CompoundAssign(lv, op, value) =>
      TargetSites(lv);
      AssignKeeps(base, t, ctx, r, lv, Binary(lv.ToExpr(), op, value), s, w, used, locks);
    case ExprStmt(e) => EvalKeeps(base, t, ctx, r, e, Val, s, w, used, locks);
    case Return(None) =>
    case Return(Some(e)) =>
      EvalKeeps(base, t, ctx, r, e, Val, s, w, used, locks);
      var (v, s1) := Eval(act, e, Val, s);
      QuietKeeps(base, t, ctx, r, Result, [v], s1, w, used, locks);
  }

  lemma {:induction false} IfKeeps<D>(base: Act<D>, t: Target, ctx: Context, r: Context, st: Stmt, s: Traced<D>, fuel: nat,
                                      w: Option<Option<Priority>>, used: seq<string>, locks: seq<string>, claimed: set<string>)
    requires st.If? && Keeps(t, r, s, w, used, locks) && RunsAs(ctx, r) && SaneStmt(t, r, st, w, claimed) && Stack(used, locks, claimed)
    ensures var (o, s1) := ExecStmt(Tracing(base, t, ctx), st, s, fuel); Kept(t, r, o, s1, w, used, locks)
    decreases fuel, st, 1
  {
    EvalKeeps(base, t, ctx, r, st.cond, Val, s, w, used, locks);
    var (v, s1) := Eval(Tracing(base, t, ctx), st.cond, Val, s);
    BlockKeeps(base, t, ctx, r, if v != 0 then st.thn else st.els, s1, fuel, w, used, locks, claimed);
  }

  lemma {:induction false} LoopKeeps<D>(base: Act<D>, t: Target, ctx: Context, r: Context, st: Stmt, s: Traced<D>, fuel: nat,
                                        w: Option<Option<Priority>>, used: seq<string>, locks: seq<string>, claimed: set<string>)
    requires (st.Loop? || st.While?) && Keeps(t, r, s, w, used, locks) && RunsAs(ctx, r) && SaneStmt(t, r, st, w, claimed) && Stack(used, locks, claimed)
    ensures var (o, s1) := ExecLoop(Tracing(base, t, ctx), st, s, fuel); Kept(t, r, o, s1, w, used, locks)
    decreases fuel, st, 1
  {
    if fuel > 0 {
      var act := Tracing(base, t, ctx);
      if st.While? { EvalKeeps(base, t, ctx, r, st.cond, Val, s, w, used, locks); }
      var (v, s1) := if st.While? then Eval(act, st.cond, Val, s) else (1, s);
      if v != 0 {
        BlockKeeps(base, t, ctx, r, st.body, s1, fuel - 1, w, used, locks, claimed);
        var (o, s2) := ExecBlock(act, st.body, s1, fuel - 1);
        if o == Normal || o == Continued { LoopKeeps(base, t, ctx, r, st, s2, fuel - 1, w, used, locks, claimed); }
      }
    }
  }

  lemma {:induction false} ForStartKeeps<D>(base: Act<D>, t: Target, ctx: Context, r: Context, st: Stmt, s: Traced<D>, fuel: nat,
                                            w: Option<Option<Priority>>, used: seq<string>, locks: seq<string>, claimed: set<string>)
    requires st.For? && Keeps(t, r, s, w, used, locks) && RunsAs(ctx, r) && SaneStmt(t, r, st, w, claimed) && Stack(used, locks, claimed)
    ensures var (o, s1) := ExecStmt(Tracing(base, t, ctx), st, s, fuel); Kept(t, r, o, s1, w, used, locks)
    decreases fuel, st, 1
  {
    var act := Tracing(base, t, ctx);
    EvalKeeps(base, t, ctx, r, st.start, Val, s, w, used, locks);
    var (v, s1) := Eval(act, st.start, Val, s);
    EvalKeeps(base, t, ctx, r, st.end, Val, s1, w, used, locks);
    var (bound, s2) := Eval(act, st.end, Val, s1);
    if st.step.Some? { EvalKeeps(base, t, ctx, r, st.step.value, Val, s2, w, used, locks); }
    var (inc, s3) := EvalStep(act, st.step, s2);
    QuietKeeps(base, t, ctx, r, ForInit(st.v), [v], s3, w, used, locks);
    ForKeeps(base, t, ctx, r, st, bound, inc, act(ForInit(st.v), [v], s3).1, fuel, w, used, locks, claimed);
  }

  lemma {:induction false} ForKeeps<D>(base: Act<D>, t: Target, ctx: Context, r: Context, st: Stmt, bound: int, inc: int, s: Traced<D>, fuel: nat,
                                       w: Option<Option<Priority>>, used: seq<string>, locks: seq<string>, claimed: set<string>)
    requires st.For? && Keeps(t, r, s, w, used, locks) && RunsAs(ctx, r) && SaneStmt(t, r, st, w, claimed) && Stack(used, locks, claimed)
    ensures var (o, s1) := ExecFor(Tracing(base, t, ctx), st, bound, inc, s, fuel); Kept(t, r, o, s1, w, used, locks)
    decreases fuel, st, 0
  {
    if fuel > 0 {
      var act := Tracing(base, t, ctx);
      QuietKeeps(base, t, ctx, r, ForMore(st.v, st.dir), [bound], s, w, used, locks);
      var (v, s1) := act(ForMore(st.v, st.dir), [bound], s);
      if v != 0 {
        BlockKeeps(base, t, ctx, r, st.body, s1, fuel - 1, w, used, locks, claimed);
        var (o, s2) := ExecBlock(act, st.body, s1, fuel - 1);
        if o == Normal || o == Continued {
          QuietKeeps(base, t, ctx, r, ForStep(st.v, st.dir), [inc], s2, w, used, locks);
          ForKeeps(base, t, ctx, r, st, bound, inc, act(ForStep(st.v, st.dir), [inc], s2).1, fuel - 1, w, used, locks, claimed);
        }
      }
    }
  }

  lemma {:induction false} MatchKeeps<D>(base: Act<D>, t: Target, ctx: Context, r: Context, st: Stmt, s: Traced<D>, fuel: nat,
                                         w: Option<Option<Priority>>, used: seq<string>, locks: seq<string>, claimed: set<string>)
    requires st.Match? && Keeps(t, r, s, w, used, locks) && RunsAs(ctx, r) && SaneStmt(t, r, st, w, claimed) && Stack(used, locks, claimed)
    ensures var (o, s1) := ExecStmt(Tracing(base, t, ctx), st, s, fuel); Kept(t, r, o, s1, w, used, locks)
    decreases fuel, st, 1
  {
    EvalKeeps(base, t, ctx, r, st.scrutinee, Val, s, w, used, locks);
    var (v, s1) := Eval(Tracing(base, t, ctx), st.scrutinee, Val, s);
    PassedSplit(t, r, Borrow.ExprSites(st.scrutinee), Borrow.ArmSites(st, |st.arms|));
    ArmsKeep(base, t, ctx, r, st, 0, v, s1, fuel, w, used, locks, claimed);
  }

  lemma {:induction false} ArmsKeep<D>(base: Act<D>, t: Target, ctx: Context, r: Context, st: Stmt, i: nat, v: int, s: Traced<D>, fuel: nat,
                                       w: Option<Option<Priority>>, used: seq<string>, locks: seq<string>, claimed: set<string>)
    requires st.Match? && i <= |st.arms| && Keeps(t, r, s, w, used, locks) && RunsAs(ctx, r) && Stack(used, locks, claimed)
    requires SaneStmt(t, r, st, w, claimed) && Passed(t, r, Borrow.ArmSites(st, |st.arms|))
    ensures var (o, s1) := ExecArms(Tracing(base, t, ctx), st, i, v, s, fuel); Kept(t, r, o, s1, w, used, locks)
    decreases fuel, st, 0, |st.arms| - i
  {
    if i < |st.arms| {
      var act := Tracing(base, t, ctx);
      var arm := st.arms[i];
      assert arm in st.arms;
      ArmPassed(t, r, st, |st.arms|, i);
      QuietKeeps(base, t, ctx, r, Select(arm.patterns), [v], s, w, used, locks);
      var (hit, s1) := act(Select(arm.patterns), [v], s);
      if PWild in arm.patterns {
        BlockKeeps(base, t, ctx, r, arm.body, s, fuel, w, used, locks, claimed);
      } else if hit != 0 {
        BlockKeeps(base, t, ctx, r, arm.body, s1, fuel, w, used, locks, claimed);
      } else {
        ArmsKeep(base, t, ctx, r, st, i + 1, v, s1, fuel, w, used, locks, claimed);
      }
    }
  }

  // --- windows ---

  function WithLock(t: Target, locks: seq<string>, x: string): seq<string> {
    if x in t.locked then locks + [x] else locks
  }

  lemma OpenFollows(t: Target, r: Context, x: string, w: Option<Option<Priority>>, used: seq<string>, locks: seq<string>)
    requires x in t.ceilings && r.CanAccess(t.ceilings[x]) && x !in locks && (w.Some? ==> Covers(w.value, r, t.ceilings[x]))
    requires (w.None? <==> used == []) && (used == [] ==> locks == [])
    ensures Follow(t, r, Held(w, used, locks), t.Open(x, |used|))
         == Some(Held(if w.Some? then w else Some(t.MaskFor(t.ceilings[x])), used + [x], WithLock(t, locks, x)))
  {
    var w1 := if w.Some? then w else Some(t.MaskFor(t.ceilings[x]));
    var (h0, h1, h2) := (Held(w, used, locks), Held(w1, used, locks), Held(w1, used, WithLock(t, locks, x)));
    var a := if used == [] then [Mask(t.MaskFor(t.ceilings[x]))] else [];
    var b := if x in t.locked then [Lock(x)] else [];
    assert Guarded(w1, r, t.ceilings[x]);
    assert t.Open(x, |used|) == a + b + [Begin(x)];
    ThreeEvents(t, r, h0, a, h1, b, h2, [Begin(x)], Held(w1, used + [x], WithLock(t, locks, x)));
  }

  predicate OneOrNone(t: Target, r: Context, h: Hold, es: seq<Event>, h1: Hold) {
    |es| <= 1 && (es == [] ==> h == h1) && (es != [] ==> Advance(t, r, h, es[0]) == Some(h1))
  }

  lemma ThreeEvents(t: Target, r: Context, h0: Hold, a: seq<Event>, h1: Hold, b: seq<Event>, h2: Hold, c: seq<Event>, h3: Hold)
    requires OneOrNone(t, r, h0, a, h1) && OneOrNone(t, r, h1, b, h2) && OneOrNone(t, r, h2, c, h3)
    ensures Follow(t, r, h0, a + b + c) == Some(h3)
  {
    FollowConcat(t, r, h0, a + b, c);
    FollowConcat(t, r, h0, a, b);
    OneEvent(t, r, h0, a, h1);
    OneEvent(t, r, h1, b, h2);
    OneEvent(t, r, h2, c, h3);
  }

  lemma OneEvent(t: Target, r: Context, h: Hold, es: seq<Event>, h1: Hold)
    requires OneOrNone(t, r, h, es, h1)
    ensures Follow(t, r, h, es) == Some(h1)
  {
    if es != [] { assert es[1..] == []; }
  }

  lemma CloseFollows(t: Target, r: Context, x: string, w1: Option<Option<Priority>>, used: seq<string>, locks: seq<string>)
    requires w1.Some? && (used == [] ==> locks == []) && x !in used
    ensures Follow(t, r, Held(w1, used + [x], WithLock(t, locks, x)), t.Close(x, |used| + 1))
         == Some(Held(if used == [] then None else w1, used, locks))
  {
    var (h0, h1, h2) := (Held(w1, used + [x], WithLock(t, locks, x)), Held(w1, used, WithLock(t, locks, x)), Held(w1, used, locks));
    var b := if x in t.locked then [Unlock(x)] else [];
    var c := if used == [] then [Unmask] else [];
    assert (used + [x])[..|used|] == used && (locks + [x])[..|locks|] == locks;
    ThreeEvents(t, r, h0, [End(x)], h1, b, h2, c, Held(if used == [] then None else w1, used, locks));
  }

  // A window is opened, kept and closed: its body cannot leave it.
  lemma {:induction false} ClaimKeeps<D>(base: Act<D>, t: Target, ctx: Context, r: Context, st: Stmt, s: Traced<D>, fuel: nat,
                                         w: Option<Option<Priority>>, used: seq<string>, locks: seq<string>, claimed: set<string>)
    requires st.Claim? && Keeps(t, r, s, w, used, locks) && RunsAs(ctx, r) && SaneStmt(t, r, st, w, claimed) && Stack(used, locks, claimed)
    ensures var (o, s1) := ExecStmt(Tracing(base, t, ctx), st, s, fuel); Kept(t, r, o, s1, w, used, locks)
    decreases fuel, st, 1
  {
    var (act, x, b) := (Tracing(base, t, ctx), st.name, st.body);
    PassedSplit(t, r, [Borrow.Access(x)], Borrow.BlockSites(b));
    assert Borrow.Access(x) in [Borrow.Access(x)];
    var w1 := if w.Some? then w else Some(t.MaskFor(t.ceilings[x]));
    var (used1, locks1) := (used + [x], WithLock(t, locks, x));
    OpenFollows(t, r, x, w, used, locks);
    var s1 := act(Enter(x), [], s).1;
    WindowKeeps(base, t, ctx, r, x, true, s, Held(w, used, locks), Held(w1, used1, locks1));
    BlockKeeps(base, t, ctx, r, b, s1, fuel, w1, used1, locks1, claimed + {x});
    ClaimBodyStaysInside(act, b, s1, fuel, 0);
    var (o, s2) := ExecBlock(act, b, s1, fuel);
    if o == Normal {
      CloseFollows(t, r, x, w1, used, locks);
      WindowKeeps(base, t, ctx, r, x, false, s2, Held(w1, used1, locks1), Held(if used == [] then None else w1, used, locks));
    }
  }

  // One half of a window, after what has been traced so far.
  lemma WindowKeeps<D>(base: Act<D>, t: Target, ctx: Context, r: Context, x: string, opens: bool, s: Traced<D>, h: Hold, h1: Hold)
    requires Follow(t, r, Idle, s.trace) == Some(h) && (opens || s.depth > 0)
    requires Follow(t, r, h, if opens then t.Open(x, s.depth) else t.Close(x, s.depth)) == Some(h1)
    ensures var s1 := Tracing(base, t, ctx)(if opens then Enter(x) else Leave(x), [], s).1;
      Follow(t, r, Idle, s1.trace) == Some(h1) && s1.depth == if opens then s.depth + 1 else s.depth - 1
  {
    var (a, es) := if opens then (Enter(x), t.Open(x, s.depth)) else (Leave(x), t.Close(x, s.depth));
    assert Tracing(base, t, ctx)(a, [], s).1 == Traced(base(a, [], s.d).1, DepthAfter(a, s.depth), s.trace + es);
    FollowConcat(t, r, Idle, s.trace, es);
  }

  // Every run of a function body, in every context it can run in, keeps the
  // discipline at every point; a run that ends leaves every window closed,
  // every lock released and every use finished.
  lemma {:induction false} BodyKeepsDiscipline<D>(base: Act<D>, t: Target, ctx: Context, r: Context, body: Block, d: D, fuel: nat)
    requires RunsAs(ctx, r) && Sane(t, r, body, None, {})
    ensures
      var (o, s) := ExecBlock(Tracing(base, t, ctx), body, Traced(d, 0, []), fuel);
      var h := Follow(t, r, Idle, s.trace);
      h.Some? && (o != Timeout ==> h == Some(Idle))
  {
    BlockKeeps(base, t, ctx, r, body, Traced(d, 0, []), fuel, None, [], [], {});
  }

  // The shared statics and their ceilings, as the symbol table has them.
  ghost predicate CeilingsOf(t: Target, sy: Borrow.Symbols) {
    forall x <- t.ceilings :: x in sy.statics && Borrow.Shared(Some(t.ceilings[x])) in sy.statics[x]
  }

  // A function the access walk reports no E402 for has passed in every context
  // it can run in.
  lemma {:induction false} AcceptedHasPassed(t: Target, sy: Borrow.Symbols, f: Ceilings.Fn, r: Context)
    requires Borrow.Materialized(sy.statics) && CeilingsOf(t, sy) && r != Any
    requires forall x <- t.ceilings :: Borrow.E402(x, f.name) !in Borrow.Report(Borrow.BlockSites(f.body), f.name, f.context, sy)
    requires r == Thread || r in Borrow.IsrContexts(f.name, f.context, sy.possible)
    ensures Passed(t, r, Borrow.BlockSites(f.body))
  {
    forall x | x in t.ceilings && Borrow.Access(x) in Borrow.BlockSites(f.body) ensures r.CanAccess(t.ceilings[x]) {
      Borrow.OutrankedExactly(f.body, x, f.name, f.context, sy);
      assert Borrow.Shared(Some(t.ceilings[x])) in sy.statics[x];
    }
  }
}
