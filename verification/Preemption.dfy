// Preemption on one or two cores, under the rules of the ARMv7-M Architecture
// Reference Manual, sections B1.4.3 and B1.5.4: interrupts nest by priority,
// PRIMASK holds off all of them, BASEPRI those at its level and below. A function
// is any set of event sequences; the protocol's guarantee is about functions that
// keep the discipline of `Sections` in every context they are called in.
module Preemption {
  import opened Ast
  import opened Contexts
  import opened Sections
  import opened ControlFlow
  import opened Claims
  import Semantics
  import Ceilings
  import Borrow
  import Calls

  // A running or preempted context: what it has still to do, what it holds, and
  // the BASEPRI value its open section will restore.
  datatype Frame = Frame(ctx: Context, rest: seq<Event>, hold: Hold, saved: nat)

  // The last frame is the one that runs. BASEPRI 0 masks nothing.
  datatype Core = Core(frames: seq<Frame>, primask: bool, basepri: nat)

  // The cores and the spinlocks they own.
  datatype System = System(cores: seq<Core>, owner: map<string, nat>)

  // The program: the event sequences each function can execute, the functions
  // entered in each context (interrupt vectors and thread code), and those a
  // pointer can hold.
  datatype Code = Code(runs: (string, seq<Event>) -> bool, entry: (Context, string) -> bool, taken: set<string>)

  // The priority a context executes at; thread code yields to everything.
  function Base(c: Context): nat { if c.Isr? then c.p else 256 }

  function ActivePriority(frames: seq<Frame>): nat {
    if frames == [] then 256
    else
      var (a, b) := (ActivePriority(frames[..|frames| - 1]), Base(frames[|frames| - 1].ctx));
      if a < b then a else b
  }

  // The execution priority: that of the active contexts, boosted by BASEPRI and
  // PRIMASK.
  function ExecutionPriority(c: Core): nat {
    if c.primask then 0
    else
      var a := ActivePriority(c.frames);
      if c.basepri != 0 && c.basepri < a then c.basepri else a
  }

  // A write to BASEPRI_MAX takes effect only where it raises the masking level.
  function Raised(basepri: nat, level: nat): nat {
    if level != 0 && (basepri == 0 || level < basepri) then level else basepri
  }

  function Top(c: Core): Frame
    requires c.frames != []
  {
    c.frames[|c.frames| - 1]
  }

  function WithTop(c: Core, f: Frame): Core
    requires c.frames != []
  {
    c.(frames := c.frames[..|c.frames| - 1] + [f])
  }

  // --- steps ---

  // What a whole sequence leaves held.
  function AfterAll(h: Hold, es: seq<Event>): Hold
    decreases |es|
  {
    if es == [] then h else AfterAll(Apply(h, es[0]), es[1..])
  }

  // A call runs a sequence of the callee first, in the context of the caller. One
  // that has ended leaves the rest of the caller to run; one that has not never
  // comes back.
  ghost predicate Inlined(code: Code, g: string, es: seq<Event>, tail: seq<Event>, rest: seq<Event>) {
    code.runs(g, es) && (rest == es || (AfterAll(Idle, es) == Idle && rest == es + tail))
  }

  // The running context performs its next event on core `k`.
  ghost predicate Runs(t: Target, code: Code, k: nat, c: Core, owner: map<string, nat>, c1: Core, owner1: map<string, nat>) {
    c.frames != [] && Top(c).rest != [] &&
    var f := Top(c);
    var (e, f1) := (f.rest[0], f.(rest := f.rest[1..], hold := Apply(f.hold, f.rest[0])));
    match e
    case Mask(None) => c1 == WithTop(c, f1).(primask := true) && owner1 == owner
    case Mask(Some(l)) => c1 == WithTop(c, f1.(saved := c.basepri)).(basepri := Raised(c.basepri, l)) && owner1 == owner
    case Unmask =>
      owner1 == owner && c1 == (if f.hold.open == Some(None) then WithTop(c, f1).(primask := false) else WithTop(c, f1).(basepri := f.saved))
    case Lock(x) => if x in owner then c1 == c && owner1 == owner else c1 == WithTop(c, f1) && owner1 == owner[x := k]
    case Unlock(x) => c1 == WithTop(c, f1) && owner1 == owner - {x}
    case Use(_) => c1 == WithTop(c, f1) && owner1 == owner
    case Done(_) => c1 == WithTop(c, f1) && owner1 == owner
    case Begin(_) => c1 == WithTop(c, f1) && owner1 == owner
    case End(_) => c1 == WithTop(c, f1) && owner1 == owner
    case CallFn(g) => owner1 == owner && exists es, rest :: Inlined(code, g, es, f1.rest, rest) && c1 == WithTop(c, f1.(rest := rest))
    case CallPtr =>
      owner1 == owner && exists g, es, rest :: g in code.taken && Inlined(code, g, es, f1.rest, rest) && c1 == WithTop(c, f1.(rest := rest))
  }

  ghost predicate PreemptsBy(code: Code, p: Priority, f: string, es: seq<Event>, c: Core, c1: Core) {
    code.entry(Isr(p), f) && code.runs(f, es) && p < ExecutionPriority(c) && c1 == c.(frames := c.frames + [Frame(Isr(p), es, Idle, 0)])
  }

  // An interrupt is taken when its priority beats the execution priority.
  ghost predicate Preempts(code: Code, c: Core, c1: Core) {
    exists p: Priority, f, es :: PreemptsBy(code, p, f, es, c, c1)
  }

  // A handler that is done returns to what it preempted.
  ghost predicate Returns(c: Core, c1: Core) {
    |c.frames| > 1 && Top(c).rest == [] && Top(c).hold == Idle && c1 == c.(frames := c.frames[..|c.frames| - 1])
  }

  ghost predicate Step(t: Target, code: Code, s: System, s1: System) {
    exists k: nat, c1, owner1 :: StepOn(t, code, k, s, c1, owner1) && s1 == System(s.cores[k := c1], owner1)
  }

  ghost predicate StepOn(t: Target, code: Code, k: nat, s: System, c1: Core, owner1: map<string, nat>) {
    k < |s.cores| && var c := s.cores[k];
    Runs(t, code, k, c, s.owner, c1, owner1) || (owner1 == s.owner && (Preempts(code, c, c1) || Returns(c, c1)))
  }

  // Every core starts in thread code, with nothing masked and nothing locked.
  ghost predicate Initial(code: Code, s: System) {
    s.owner == map[] && forall c <- s.cores :: StartsIn(code, c)
  }

  ghost predicate StartsIn(code: Code, c: Core) {
    exists f, es :: code.entry(Thread, f) && code.runs(f, es) && c == Core([Frame(Thread, es, Idle, 0)], false, 0)
  }

  ghost predicate Run(t: Target, code: Code, run: seq<System>) {
    run != [] && Initial(code, run[0]) && forall i :: 0 <= i < |run| - 1 ==> Step(t, code, run[i], run[i + 1])
  }

  // The contexts each function may run in.
  type Placement = (string, Context) -> bool

  // Everything called may run where it is called.
  ghost predicate CallsPlaced(code: Code, may: Placement, r: Context, es: seq<Event>) {
    forall e <- es :: (e.CallFn? ==> may(e.f, r)) && (e.CallPtr? ==> forall g <- code.taken :: may(g, r))
  }

  // Every function keeps the discipline, and calls functions that may run there,
  // wherever it may run; and what is entered may run where it is entered.
  ghost predicate Places(t: Target, code: Code, may: Placement) {
    && (forall r, f :: code.entry(r, f) ==> may(f, r))
    && (forall f, r, es :: may(f, r) && code.runs(f, es) ==> r != Any && Follow(t, r, Idle, es).Some? && CallsPlaced(code, may, r, es))
  }

  ghost predicate Disciplined(t: Target, code: Code) { exists may :: Places(t, code, may) }

  // --- the invariant ---

  // The BASEPRI value the first `n` frames have built up.
  function Mounted(frames: seq<Frame>, n: nat): nat
    requires n <= |frames|
  {
    if n == 0 then 0
    else match frames[n - 1].hold.open
      case Some(Some(l)) => Raised(Mounted(frames, n - 1), l)
      case _ => Mounted(frames, n - 1)
  }

  // What a frame holds, it holds under guard.
  ghost predicate FrameOk(t: Target, f: Frame) {
    && f.ctx != Any
    && Follow(t, f.ctx, f.hold, f.rest).Some?
    && (f.hold.open.Some? && f.hold.open.value.Some? ==> f.hold.open.value.value > 0)
    && (f.hold.open.None? ==> f.hold.locks == [])
    && (forall x <- f.hold.used :: x in t.ceilings && Guarded(f.hold.open, f.ctx, t.ceilings[x]))
    && (forall x <- f.hold.locks :: x in t.ceilings && Guarded(f.hold.open, f.ctx, t.ceilings[x]))
    && (forall i, j :: 0 <= i < j < |f.hold.locks| ==> f.hold.locks[i] != f.hold.locks[j])
    && (forall x <- f.hold.windows :: x in t.locked ==> x in f.hold.locks)
  }

  // `g`, above `f` on one stack, got there past the priority and mask of `f`.
  predicate Above(f: Frame, g: Frame) {
    && g.ctx.Isr? && g.ctx.p < Base(f.ctx)
    && (f.hold.open.Some? ==> f.hold.open.value.Some? && g.ctx.p < f.hold.open.value.value)
  }

  ghost predicate CoreOk(t: Target, c: Core) {
    && c.frames != []
    && (forall f <- c.frames :: FrameOk(t, f))
    && (forall i, j :: 0 <= i < j < |c.frames| ==> Above(c.frames[i], c.frames[j]))
    && (c.primask <==> Top(c).hold.open == Some(None))
    && c.basepri == Mounted(c.frames, |c.frames|)
    && (forall i :: 0 <= i < |c.frames| ==> RestoresOk(c.frames, i))
  }

  // What the frames have still to call may run there.
  ghost predicate FramesPlaced(code: Code, may: Placement, c: Core) {
    forall f <- c.frames :: CallsPlaced(code, may, f.ctx, f.rest)
  }

  ghost predicate RestoresOk(frames: seq<Frame>, i: nat)
    requires i < |frames|
  {
    frames[i].hold.open.Some? && frames[i].hold.open.value.Some? ==> frames[i].saved == Mounted(frames, i)
  }

  // --- exclusion on one core follows from the invariant ---

  // No context that preempted another uses, or is about to use, a static the
  // other is in the middle of using.
  lemma PreemptorStaysOut(t: Target, f: Frame, g: Frame, x: string)
    requires FrameOk(t, f) && FrameOk(t, g) && Above(f, g) && x in f.hold.used + f.hold.locks
    ensures x !in g.hold.used && x !in g.hold.locks
    ensures g.rest != [] ==> g.rest[0] != Use(x) && g.rest[0] != Begin(x) && g.rest[0] != Lock(x)
  {
    assert x in t.ceilings && Guarded(f.hold.open, f.ctx, t.ceilings[x]);
    assert !g.ctx.CanAccess(t.ceilings[x]);
    if g.rest != [] { assert Advance(t, g.ctx, g.hold, g.rest[0]).Some?; }
  }

  // --- every step keeps the invariant ---

  lemma {:induction false} ActiveBelow(frames: seq<Frame>, i: nat)
    requires i < |frames|
    ensures ActivePriority(frames) <= Base(frames[i].ctx)
    decreases frames
  {
    var n := |frames| - 1;
    if i < n { ActiveBelow(frames[..n], i); }
  }

  lemma {:induction false} MountedBelow(frames: seq<Frame>, n: nat, i: nat, l: nat)
    requires i < n <= |frames| && frames[i].hold.open.Some? && frames[i].hold.open.value == Some(l) && l > 0
    ensures 0 < Mounted(frames, n) <= l
    decreases n
  {
    if i < n - 1 { MountedBelow(frames, n - 1, i, l); }
  }

  lemma {:induction false} MountedPrefix(a: seq<Frame>, b: seq<Frame>, n: nat)
    requires n <= |a| && n <= |b| && a[..n] == b[..n]
    ensures Mounted(a, n) == Mounted(b, n)
    decreases n
  {
    if n > 0 {
      assert a[..n - 1] == a[..n][..n - 1] && b[..n - 1] == b[..n][..n - 1];
      assert a[n - 1] == a[..n][n - 1] && b[n - 1] == b[..n][n - 1];
      MountedPrefix(a, b, n - 1);
    }
  }

  lemma {:induction false} FollowIsAfterAll(t: Target, r: Context, h: Hold, es: seq<Event>)
    requires Follow(t, r, h, es).Some?
    ensures Follow(t, r, h, es) == Some(AfterAll(h, es))
    decreases |es|
  {
    if es != [] { FollowIsAfterAll(t, r, Apply(h, es[0]), es[1..]); }
  }

  lemma {:induction false} PreemptKeeps(t: Target, code: Code, may: Placement, c: Core, c1: Core)
    requires Places(t, code, may) && CoreOk(t, c) && FramesPlaced(code, may, c) && Preempts(code, c, c1)
    ensures CoreOk(t, c1) && FramesPlaced(code, may, c1)
  {
    var p: Priority, f, es :| PreemptsBy(code, p, f, es, c, c1);
    var g := Frame(Isr(p), es, Idle, 0);
    assert may(f, Isr(p));
    NewcomerIsAbove(t, c, g);
    NewcomerMountsNothing(c.frames, g);
  }

  // A context that holds nothing changes no mask and nothing to be restored.
  lemma NewcomerMountsNothing(frames: seq<Frame>, g: Frame)
    requires g.hold == Idle && forall i :: 0 <= i < |frames| ==> RestoresOk(frames, i)
    ensures Mounted(frames + [g], |frames| + 1) == Mounted(frames, |frames|)
    ensures forall i :: 0 <= i < |frames| + 1 ==> RestoresOk(frames + [g], i)
  {
    var (all, n) := (frames + [g], |frames|);
    MountedPrefix(frames, all, n);
    forall i | 0 <= i < n + 1 ensures RestoresOk(all, i) {
      if i < n { assert RestoresOk(frames, i); MountedPrefix(frames, all, i); }
    }
  }

  // An interrupt that beats the execution priority beats every frame and mask.
  lemma {:induction false} NewcomerIsAbove(t: Target, c: Core, g: Frame)
    requires CoreOk(t, c) && g.ctx.Isr? && g.ctx.p < ExecutionPriority(c)
    ensures forall f <- c.frames :: Above(f, g)
  {
    var n := |c.frames|;
    forall i | 0 <= i < n ensures Above(c.frames[i], g) {
      ActiveBelow(c.frames, i);
      if i < n - 1 { assert Above(c.frames[i], Top(c)); }
      assert FrameOk(t, c.frames[i]);
      var open := c.frames[i].hold.open;
      if open.Some? { MountedBelow(c.frames, n, i, open.value.value); }
    }
  }

  lemma {:induction false} ReturnKeeps(t: Target, c: Core, c1: Core)
    requires CoreOk(t, c) && Returns(c, c1)
    ensures CoreOk(t, c1)
  {
    var n := |c.frames| - 1;
    MountedPrefix(c.frames, c1.frames, n);
    assert Above(c.frames[n - 1], c.frames[n]);
    forall i | 0 <= i < n ensures RestoresOk(c1.frames, i) {
      assert RestoresOk(c.frames, i);
      MountedPrefix(c.frames, c1.frames, i);
    }
  }

  // The frame that runs changes, and no other.
  lemma {:induction false} TopKeeps(t: Target, c: Core, f1: Frame, primask: bool, basepri: nat)
    requires CoreOk(t, c) && FrameOk(t, f1) && f1.ctx == Top(c).ctx
    requires primask <==> f1.hold.open == Some(None)
    requires var m := Mounted(c.frames, |c.frames| - 1);
      && (basepri == match f1.hold.open case Some(Some(l)) => Raised(m, l) case _ => m)
      && (f1.hold.open.Some? && f1.hold.open.value.Some? ==> f1.saved == m)
    ensures CoreOk(t, Core(WithTop(c, f1).frames, primask, basepri))
  {
    var (n, c1) := (|c.frames| - 1, Core(WithTop(c, f1).frames, primask, basepri));
    MountedPrefix(c.frames, c1.frames, n);
    forall i | 0 <= i <= n ensures RestoresOk(c1.frames, i) {
      assert RestoresOk(c.frames, i);
      MountedPrefix(c.frames, c1.frames, i);
    }
    forall i, j | 0 <= i < j <= n ensures Above(c1.frames[i], c1.frames[j]) { assert Above(c.frames[i], c.frames[j]); }
  }

  // What the running frame becomes is guarded in its turn.
  lemma {:induction false} NextFrameOk(t: Target, f: Frame, saved: nat)
    requires FrameOk(t, f) && f.rest != []
    ensures Allowed(t, f.ctx, f.hold, f.rest[0])
    ensures FrameOk(t, Frame(f.ctx, f.rest[1..], Apply(f.hold, f.rest[0]), saved))
  {
    var (h, e) := (f.hold, f.rest[0]);
    assert Advance(t, f.ctx, h, e) == Some(Apply(h, e));
    var h1 := Apply(h, e);
    forall x | x in h1.used ensures x in t.ceilings && Guarded(h1.open, f.ctx, t.ceilings[x]) {
      assert x in h.used || e == Use(x) || e == Begin(x);
    }
    forall x | x in h1.locks ensures x in t.ceilings && Guarded(h1.open, f.ctx, t.ceilings[x]) {
      assert x in h.locks || e == Lock(x);
    }
    forall x | x in h1.windows && x in t.locked ensures x in h1.locks {
      assert x in h.windows || e == Begin(x);
      if e.Unlock? { assert h.locks == h1.locks + [e.x]; }
    }
  }

  lemma {:induction false} InlinedFrameOk(t: Target, code: Code, may: Placement, f: Frame, g: string, es: seq<Event>, rest: seq<Event>)
    requires Places(t, code, may) && may(g, f.ctx) && FrameOk(t, f) && CallsPlaced(code, may, f.ctx, f.rest)
    requires f.hold == Idle && Inlined(code, g, es, f.rest, rest)
    ensures FrameOk(t, f.(rest := rest)) && CallsPlaced(code, may, f.ctx, rest)
  {
    assert Follow(t, f.ctx, Idle, es).Some? && CallsPlaced(code, may, f.ctx, es);
    if rest == es + f.rest {
      FollowIsAfterAll(t, f.ctx, Idle, es);
      FollowConcat(t, f.ctx, Idle, es, f.rest);
    }
  }

  lemma {:induction false} RunKeeps(t: Target, code: Code, may: Placement, k: nat, c: Core, owner: map<string, nat>, c1: Core, owner1: map<string, nat>)
    requires Places(t, code, may) && CoreOk(t, c) && FramesPlaced(code, may, c) && Runs(t, code, k, c, owner, c1, owner1)
    ensures CoreOk(t, c1) && FramesPlaced(code, may, c1)
  {
    var f := Top(c);
    var (e, f1) := (f.rest[0], f.(rest := f.rest[1..], hold := Apply(f.hold, f.rest[0])));
    assert FrameOk(t, f) && CallsPlaced(code, may, f.ctx, f.rest) && e in f.rest;
    if e.CallFn? || e.CallPtr? {
      NextFrameOk(t, f, f.saved);
      var g, es, rest :| (e == CallFn(g) || (e == CallPtr && g in code.taken)) && Inlined(code, g, es, f1.rest, rest) && c1 == WithTop(c, f1.(rest := rest));
      CallKeeps(t, code, may, c, f1, g, es, rest);
    } else {
      EventKeeps(t, code, k, c, owner, c1, owner1);
      if c1 != c { TopPlaced(code, may, c, c1); }
    }
  }

  // What is left to do after an event is placed as before.
  lemma TopPlaced(code: Code, may: Placement, c: Core, c1: Core)
    requires c.frames != [] && Top(c).rest != [] && FramesPlaced(code, may, c)
    requires c1.frames != [] && c1.frames == WithTop(c, Top(c1)).frames && Top(c1).ctx == Top(c).ctx && Top(c1).rest == Top(c).rest[1..]
    ensures FramesPlaced(code, may, c1)
  {
    assert CallsPlaced(code, may, Top(c).ctx, Top(c).rest);
    assert CallsPlaced(code, may, Top(c1).ctx, Top(c1).rest);
    forall f | f in c1.frames ensures CallsPlaced(code, may, f.ctx, f.rest) {
      assert f == Top(c1) || f in c.frames;
    }
  }

  // An event that is no call.
  lemma {:induction false} EventKeeps(t: Target, code: Code, k: nat, c: Core, owner: map<string, nat>, c1: Core, owner1: map<string, nat>)
    requires CoreOk(t, c) && Runs(t, code, k, c, owner, c1, owner1) && !Top(c).rest[0].CallFn? && !Top(c).rest[0].CallPtr?
    ensures CoreOk(t, c1) && (c1 == c || (c1.frames != [] && c1.frames == WithTop(c, Top(c1)).frames && Top(c1).ctx == Top(c).ctx && Top(c1).rest == Top(c).rest[1..]))
  {
    var (f, n) := (Top(c), |c.frames| - 1);
    var e := f.rest[0];
    assert FrameOk(t, f) && RestoresOk(c.frames, n);
    NextFrameOk(t, f, f.saved);
    NextFrameOk(t, f, c.basepri);
    var f1 := f.(rest := f.rest[1..], hold := Apply(f.hold, e));
    match e
    case Mask(None) => TopKeeps(t, c, f1, true, c.basepri);
    case Mask(Some(l)) => TopKeeps(t, c, f1.(saved := c.basepri), false, Raised(c.basepri, l));
    case Unmask => TopKeeps(t, c, f1, false, if f.hold.open == Some(None) then c.basepri else f.saved);
    case Lock(x) => if x !in owner { TopKeeps(t, c, f1, c.primask, c.basepri); }
    case _ => TopKeeps(t, c, f1, c.primask, c.basepri);
  }

  lemma {:induction false} CallKeeps(t: Target, code: Code, may: Placement, c: Core, f1: Frame, g: string, es: seq<Event>, rest: seq<Event>)
    requires Places(t, code, may) && CoreOk(t, c) && FramesPlaced(code, may, c) && may(g, f1.ctx) && CallsPlaced(code, may, f1.ctx, f1.rest)
    requires FrameOk(t, f1) && f1.ctx == Top(c).ctx && f1.hold == Top(c).hold == Idle && f1.saved == Top(c).saved
    requires Inlined(code, g, es, f1.rest, rest)
    ensures var c1 := WithTop(c, f1.(rest := rest)); CoreOk(t, c1) && FramesPlaced(code, may, c1)
  {
    InlinedFrameOk(t, code, may, f1, g, es, rest);
    TopKeeps(t, c, f1.(rest := rest), c.primask, c.basepri);
  }

  // --- locks ---

  ghost predicate Locks(c: Core, x: string) { exists f <- c.frames :: x in f.hold.locks }

  ghost predicate OwnsIfLocked(s: System, k: nat, x: string)
    requires k < |s.cores|
  {
    Locks(s.cores[k], x) ==> x in s.owner && s.owner[x] == k
  }

  // A lock is owned by the one core that has a frame holding it.
  ghost predicate LocksOk(s: System) {
    && (forall x <- s.owner :: s.owner[x] < |s.cores| && Locks(s.cores[s.owner[x]], x))
    && (forall k, x :: 0 <= k < |s.cores| ==> OwnsIfLocked(s, k, x))
  }

  ghost predicate Ok(t: Target, code: Code, may: Placement, s: System) {
    (forall c <- s.cores :: CoreOk(t, c) && FramesPlaced(code, may, c)) && LocksOk(s)
  }

  // Stepping one core changes the locks held on it as the owner map says.
  ghost predicate LocksFollow(k: nat, c: Core, owner: map<string, nat>, c1: Core, owner1: map<string, nat>) {
    forall x :: LockFollows(x, k, c, owner, c1, owner1)
  }

  ghost predicate LockFollows(x: string, k: nat, c: Core, owner: map<string, nat>, c1: Core, owner1: map<string, nat>) {
    || (Locks(c1, x) == Locks(c, x) && (x in owner1) == (x in owner) && (x in owner ==> owner1[x] == owner[x]))
    || (Locks(c1, x) && x !in owner && x in owner1 && owner1[x] == k)
    || (Locks(c, x) && !Locks(c1, x) && x !in owner1)
  }

  lemma {:induction false} SameLocks(c: Core, c1: Core, x: string)
    requires c.frames != [] && c1.frames != [] && c1.frames[..|c1.frames| - 1] == c.frames[..|c.frames| - 1]
    ensures Locks(c, x) <==> (exists f <- c.frames[..|c.frames| - 1] :: x in f.hold.locks) || x in Top(c).hold.locks
    ensures Locks(c1, x) <==> (exists f <- c.frames[..|c.frames| - 1] :: x in f.hold.locks) || x in Top(c1).hold.locks
  {
    var n, n1 := |c.frames| - 1, |c1.frames| - 1;
    assert c.frames == c.frames[..n] + [c.frames[n]] && c1.frames == c1.frames[..n1] + [c1.frames[n1]];
  }

  lemma {:induction false} RunLocks(t: Target, code: Code, k: nat, c: Core, owner: map<string, nat>, c1: Core, owner1: map<string, nat>)
    requires CoreOk(t, c) && Runs(t, code, k, c, owner, c1, owner1)
    ensures LocksFollow(k, c, owner, c1, owner1)
  {
    var f := Top(c);
    assert FrameOk(t, f);
    NextFrameOk(t, f, f.saved);
    NewTopLocks(t, code, k, c, owner, c1, owner1);
    var e := f.rest[0];
    forall x ensures LockFollows(x, k, c, owner, c1, owner1) {
      SameLocks(c, c1, x);
      if e.Unlock? { UnlockFrees(t, c, e.x, x); }
    }
  }

  // The lock released is the top one of its frame, and of no other.
  lemma {:induction false} UnlockFrees(t: Target, c: Core, y: string, x: string)
    requires CoreOk(t, c) && IsTop(Top(c).hold.locks, y)
    ensures x != y ==> (x in Popped(Top(c).hold.locks) <==> x in Top(c).hold.locks)
    ensures x == y ==> x in Top(c).hold.locks && x !in Popped(Top(c).hold.locks) && forall f <- c.frames[..|c.frames| - 1] :: x !in f.hold.locks
  {
    var locks := Top(c).hold.locks;
    assert locks == Popped(locks) + [y];
    assert FrameOk(t, Top(c));
    if x == y { OnlyTopLocks(t, c, x); }
  }

  lemma NewTopLocks(t: Target, code: Code, k: nat, c: Core, owner: map<string, nat>, c1: Core, owner1: map<string, nat>)
    requires Runs(t, code, k, c, owner, c1, owner1)
    ensures c1.frames != [] && c1.frames[..|c1.frames| - 1] == c.frames[..|c.frames| - 1]
    ensures var e := Top(c).rest[0];
      && Top(c1).hold.locks == (if e.Lock? && e.x in owner then Top(c).hold.locks else Apply(Top(c).hold, e).locks)
      && owner1 == (if e.Lock? && e.x !in owner then owner[e.x := k] else if e.Unlock? then owner - {e.x} else owner)
  {}

  lemma {:induction false} OnlyTopLocks(t: Target, c: Core, x: string)
    requires CoreOk(t, c) && x in Top(c).hold.locks
    ensures forall f <- c.frames[..|c.frames| - 1] :: x !in f.hold.locks
  {
    var n := |c.frames| - 1;
    forall i | 0 <= i < n ensures x !in c.frames[i].hold.locks {
      assert Above(c.frames[i], Top(c)) && FrameOk(t, c.frames[i]);
      if x in c.frames[i].hold.locks { PreemptorStaysOut(t, c.frames[i], Top(c), x); }
    }
  }

  lemma {:induction false} StepKeeps(t: Target, code: Code, may: Placement, s: System, s1: System)
    requires Places(t, code, may) && Ok(t, code, may, s) && Step(t, code, s, s1)
    ensures Ok(t, code, may, s1)
  {
    var k: nat, c1, owner1 :| StepOn(t, code, k, s, c1, owner1) && s1 == System(s.cores[k := c1], owner1);
    var c := s.cores[k];
    if Runs(t, code, k, c, s.owner, c1, owner1) {
      RunKeeps(t, code, may, k, c, s.owner, c1, owner1);
      RunLocks(t, code, k, c, s.owner, c1, owner1);
    } else if Preempts(code, c, c1) {
      PreemptKeeps(t, code, may, c, c1);
      forall x ensures LockFollows(x, k, c, s.owner, c1, owner1) { PushedLocks(c, c1, x); }
    } else {
      ReturnKeeps(t, c, c1);
      forall x ensures LockFollows(x, k, c, s.owner, c1, owner1) { PushedLocks(c1, c, x); }
    }
    LocksStep(s, k, c1, owner1);
  }

  lemma PushedLocks(c: Core, c1: Core, x: string)
    requires |c1.frames| == |c.frames| + 1 && c1.frames[..|c.frames|] == c.frames && c1.frames[|c.frames|].hold.locks == []
    ensures Locks(c1, x) == Locks(c, x)
  {
    assert c1.frames == c.frames + [c1.frames[|c.frames|]];
  }

  lemma {:induction false} LocksStep(s: System, k: nat, c1: Core, owner1: map<string, nat>)
    requires LocksOk(s) && k < |s.cores| && LocksFollow(k, s.cores[k], s.owner, c1, owner1)
    ensures LocksOk(System(s.cores[k := c1], owner1))
  {
    var s1 := System(s.cores[k := c1], owner1);
    forall x | x in s1.owner ensures s1.owner[x] < |s1.cores| && Locks(s1.cores[s1.owner[x]], x) {
      assert LockFollows(x, k, s.cores[k], s.owner, c1, owner1) && OwnsIfLocked(s, k, x);
      if x in s.owner { assert Locks(s.cores[s.owner[x]], x); }
    }
    forall j, x | 0 <= j < |s1.cores| ensures OwnsIfLocked(s1, j, x) {
      assert LockFollows(x, k, s.cores[k], s.owner, c1, owner1) && OwnsIfLocked(s, j, x) && OwnsIfLocked(s, k, x);
    }
  }

  lemma {:induction false} RunIsOk(t: Target, code: Code, may: Placement, run: seq<System>, i: nat)
    requires Places(t, code, may) && Run(t, code, run) && i < |run|
    ensures Ok(t, code, may, run[i])
    decreases i
  {
    if i == 0 {
      forall c | c in run[0].cores ensures CoreOk(t, c) && FramesPlaced(code, may, c) {
        assert StartsIn(code, c);
        var f, es :| code.entry(Thread, f) && code.runs(f, es) && c == Core([Frame(Thread, es, Idle, 0)], false, 0);
        assert may(f, Thread);
        assert Mounted(c.frames, 0) == Mounted(c.frames, 1) == 0;
      }
      forall k, x | 0 <= k < |run[0].cores| ensures OwnsIfLocked(run[0], k, x) {
        assert run[0].cores[k] in run[0].cores && StartsIn(code, run[0].cores[k]);
      }
    } else {
      RunIsOk(t, code, may, run, i - 1);
      assert Step(t, code, run[i - 1], run[i - 1 + 1]);
      StepKeeps(t, code, may, run[i - 1], run[i]);
    }
  }

  // --- the theorems ---

  // Mutual exclusion over every preemption schedule: while a context is using a
  // shared static, or holds its lock, no context that preempted it on the same
  // core uses it, holds its lock, or is about to do either.
  lemma {:induction false} PreemptorsAreExcluded(t: Target, code: Code, run: seq<System>, i: nat, k: nat, lower: nat, upper: nat, x: string)
    requires Disciplined(t, code) && Run(t, code, run) && i < |run| && k < |run[i].cores|
    requires lower < upper < |run[i].cores[k].frames|
    requires var f := run[i].cores[k].frames[lower]; x in f.hold.used || x in f.hold.locks
    ensures var g := run[i].cores[k].frames[upper];
      x !in g.hold.used && x !in g.hold.locks && (g.rest != [] ==> g.rest[0] != Use(x) && g.rest[0] != Begin(x) && g.rest[0] != Lock(x))
  {
    var may :| Places(t, code, may);
    RunIsOk(t, code, may, run, i);
    var c := run[i].cores[k];
    assert CoreOk(t, c);
    PreemptorStaysOut(t, c.frames[lower], c.frames[upper], x);
  }

  ghost predicate InWindow(c: Core, x: string) { exists f <- c.frames :: x in f.hold.windows }

  // Two-core windows: no two cores hold the lock of one static, and so no two
  // are inside windows over it.
  lemma {:induction false} CoresAreExcluded(t: Target, code: Code, run: seq<System>, i: nat, j: nat, k: nat, x: string)
    requires Disciplined(t, code) && Run(t, code, run) && i < |run| && j < |run[i].cores| && k < |run[i].cores|
    ensures x in t.locked && InWindow(run[i].cores[j], x) ==> Locks(run[i].cores[j], x) && x in run[i].owner && run[i].owner[x] == j
    ensures x in t.locked && InWindow(run[i].cores[j], x) && InWindow(run[i].cores[k], x) ==> j == k
    ensures Locks(run[i].cores[j], x) && Locks(run[i].cores[k], x) ==> j == k
  {
    var may :| Places(t, code, may);
    RunIsOk(t, code, may, run, i);
    WindowIsLocked(t, run[i].cores[j], x);
    WindowIsLocked(t, run[i].cores[k], x);
    assert OwnsIfLocked(run[i], j, x) && OwnsIfLocked(run[i], k, x);
  }

  lemma WindowIsLocked(t: Target, c: Core, x: string)
    requires CoreOk(t, c)
    ensures x in t.locked && InWindow(c, x) ==> Locks(c, x)
  {
    if f :| f in c.frames && x in f.hold.windows { assert FrameOk(t, f); }
  }

  // A core that must wait for a lock waits for another core, never for code it
  // has itself preempted.
  lemma {:induction false} NoCoreWaitsForItself(t: Target, code: Code, run: seq<System>, i: nat, k: nat, x: string)
    requires Disciplined(t, code) && Run(t, code, run) && i < |run| && k < |run[i].cores|
    requires var c := run[i].cores[k]; c.frames != [] && Top(c).rest != [] && Top(c).rest[0] == Lock(x)
    ensures !Locks(run[i].cores[k], x)
    ensures x in run[i].owner ==> run[i].owner[x] != k
  {
    var may :| Places(t, code, may);
    RunIsOk(t, code, may, run, i);
    var c := run[i].cores[k];
    assert CoreOk(t, c) && FrameOk(t, Top(c));
    assert Advance(t, Top(c).ctx, Top(c).hold, Lock(x)).Some?;
    forall j | 0 <= j < |c.frames| ensures x !in c.frames[j].hold.locks {
      if j < |c.frames| - 1 && x in c.frames[j].hold.locks {
        assert Above(c.frames[j], Top(c)) && FrameOk(t, c.frames[j]);
        PreemptorStaysOut(t, c.frames[j], Top(c), x);
      }
    }
  }

  // --- the window must cover what is used inside it ---

  // A window of mask level `l` in context `r` over a use of `x`, and the top
  // accessor of `x`, which needs no mask. `r` runs on top of idle thread code
  // unless it is the thread itself.
  function Window(l: Priority, x: string): seq<Event> { [Mask(Some(l)), Use(x), Done(x), Unmask] }

  function TopAccess(x: string): seq<Event> { [Use(x), Done(x)] }

  ghost function WindowCode(r: Context, l: Priority, x: string, c: Priority): Code {
    Code((f, es) => (f == "window" && es == Window(l, x)) || (f == "accessor" && es == TopAccess(x)) || (f == "idle" && es == []),
         (q, f) => WindowEntry(r, c, q, f), {})
  }

  function WindowPlacement(r: Context, c: Priority): Placement { (f, q) => WindowEntry(r, c, q, f) }

  predicate WindowEntry(r: Context, c: Priority, q: Context, f: string) {
    (q == r && f == "window") || (q == Isr(c) && f == "accessor") || (q == Thread && r != Thread && f == "idle")
  }

  ghost predicate Clash(s: System, x: string) {
    exists k: nat, i: nat, j: nat :: ClashAt(s, k, i, j, x)
  }

  ghost predicate ClashAt(s: System, k: nat, i: nat, j: nat, x: string) {
    k < |s.cores| && i < j < |s.cores[k].frames| && x in s.cores[k].frames[i].hold.used && x in s.cores[k].frames[j].hold.used
  }

  lemma WindowFollows(t: Target, r: Context, l: Priority, x: string)
    requires x in t.ceilings && l > 0 && Guarded(Some(Some(l)), r, t.ceilings[x])
    ensures Follow(t, r, Idle, Window(l, x)) == Some(Idle)
  {
    SectionFollows(t, r, x, Some(l));
  }

  // Under every schedule the two keep out of each other's way exactly when the
  // window's mask covers the static: inner windows are safe only under an outer
  // mask that reaches their ceilings, or in code that does itself.
  lemma {:induction false} WindowMustCover(t: Target, r: Context, l: Priority, x: string)
    requires x in t.ceilings && r != Any && l > 0 && r.CanAccess(t.ceilings[x])
    ensures Covers(Some(l), r, t.ceilings[x]) <==>
      forall run, i :: Run(t, WindowCode(r, l, x, t.ceilings[x]), run) && 0 <= i < |run| ==> !Clash(run[i], x)
  {
    var c := t.ceilings[x];
    var code := WindowCode(r, l, x, c);
    if Covers(Some(l), r, c) {
      CoveredWindowPlaced(t, r, l, x);
      NoClash(t, code, x);
    } else {
      var run := UncoveredRun(t, r, l, x);
      assert Clash(run[|run| - 1], x);
    }
  }

  lemma AccessesCallNothing(code: Code, may: Placement, q: Context, l: Priority, x: string)
    ensures CallsPlaced(code, may, q, Window(l, x)) && CallsPlaced(code, may, q, TopAccess(x))
  {
    forall e | e in Window(l, x) ensures !e.CallFn? && !e.CallPtr? { assert e in [Mask(Some(l)), Use(x), Done(x), Unmask]; }
    forall e | e in TopAccess(x) ensures !e.CallFn? && !e.CallPtr? { assert e in [Use(x), Done(x)]; }
  }

  lemma CoveredWindowPlaced(t: Target, r: Context, l: Priority, x: string)
    requires x in t.ceilings && r != Any && l > 0 && r.CanAccess(t.ceilings[x]) && Covers(Some(l), r, t.ceilings[x])
    ensures Disciplined(t, WindowCode(r, l, x, t.ceilings[x]))
  {
    var c := t.ceilings[x];
    var (code, may) := (WindowCode(r, l, x, c), WindowPlacement(r, c));
    WindowFollows(t, r, l, x);
    UseFollows(t, Isr(c), x, Idle);
    forall f, q, es | may(f, q) && code.runs(f, es) ensures q != Any && Follow(t, q, Idle, es).Some? && CallsPlaced(code, may, q, es) {
      assert WindowEntry(r, c, q, f);
      AccessesCallNothing(code, may, q, l, x);
    }
    assert Places(t, code, may);
  }

  lemma {:induction false} NoClash(t: Target, code: Code, x: string)
    requires Disciplined(t, code)
    ensures forall run, i :: Run(t, code, run) && 0 <= i < |run| ==> !Clash(run[i], x)
  {
    forall run, i | Run(t, code, run) && 0 <= i < |run| ensures !Clash(run[i], x) {
      forall k: nat, a: nat, b: nat ensures !ClashAt(run[i], k, a, b, x) {
        if ClashAt(run[i], k, a, b, x) { PreemptorsAreExcluded(t, code, run, i, k, a, b, x); }
      }
    }
  }

  // A one-core run extended by one step.
  lemma Extend(t: Target, code: Code, run: seq<System>, c1: Core) returns (run1: seq<System>)
    requires Run(t, code, run) && |run[|run| - 1].cores| == 1
    requires var s := run[|run| - 1];
      Runs(t, code, 0, s.cores[0], s.owner, c1, s.owner) || Preempts(code, s.cores[0], c1)
    ensures Run(t, code, run1) && |run1| == |run| + 1 && run1[|run|] == System([c1], run[|run| - 1].owner)
  {
    var s := run[|run| - 1];
    assert s.cores[0 := c1] == [c1];
    assert StepOn(t, code, 0, s, c1, s.owner);
    assert Step(t, code, s, System([c1], s.owner));
    run1 := run + [System([c1], s.owner)];
    forall i | 0 <= i < |run1| - 1 ensures Step(t, code, run1[i], run1[i + 1]) {
      if i < |run| - 1 { assert Step(t, code, run[i], run[i + 1]); }
    }
  }

  // Context `r` at the beginning of a sequence of its code, over idle thread code
  // unless it is the thread.
  lemma Starts(t: Target, code: Code, r: Context, f: string, es: seq<Event>) returns (run: seq<System>)
    requires r != Any && code.entry(r, f) && code.runs(f, es) && (r == Thread || (code.entry(Thread, "idle") && code.runs("idle", [])))
    ensures Run(t, code, run) && run[|run| - 1] == System([Core(Under(r) + [Frame(r, es, Idle, 0)], false, 0)], map[])
  {
    var c0 := Core([Frame(Thread, if r == Thread then es else [], Idle, 0)], false, 0);
    assert StartsIn(code, c0);
    run := [System([c0], map[])];
    if r == Thread {
      assert [] + [Frame(r, es, Idle, 0)] == c0.frames;
    } else {
      assert c0.frames[..0] == [];
      assert ActivePriority(c0.frames) == 256;
      var c1 := Core(c0.frames + [Frame(r, es, Idle, 0)], false, 0);
      assert PreemptsBy(code, r.p, f, es, c0, c1);
      run := Extend(t, code, run, c1);
    }
  }

  // From the beginning of an access, or of a call of a function that makes one,
  // to the middle of it.
  lemma Accesses(t: Target, code: Code, run0: seq<System>, under: seq<Frame>, masked: nat, r: Context, es: seq<Event>, g: string, x: string) returns (run: seq<System>)
    requires Run(t, code, run0) && run0[|run0| - 1] == System([Core(under + [Frame(r, es, Idle, 0)], false, masked)], map[])
    requires es == TopAccess(x) || (es == [CallFn(g)] && code.runs(g, TopAccess(x)))
    ensures Run(t, code, run) && run[|run| - 1] == System([Core(under + [Frame(r, [Done(x)], Hold(None, [x], [], []), 0)], false, masked)], map[])
  {
    run := run0;
    if es != TopAccess(x) {
      var (f, f1) := (Frame(r, es, Idle, 0), Frame(r, TopAccess(x), Idle, 0));
      assert [CallFn(g)][1..] == [];
      assert Inlined(code, g, TopAccess(x), [], TopAccess(x));
      assert WithTop(Core(under + [f], false, masked), f1).frames == under + [f1];
      run := Extend(t, code, run, Core(under + [f1], false, masked));
    }
    assert TopAccess(x)[1..] == [Done(x)] && [] + [x] == [x];
    run := UseStep(t, code, run, under, masked, Frame(r, TopAccess(x), Idle, 0), x);
  }

  lemma UseStep(t: Target, code: Code, run0: seq<System>, under: seq<Frame>, masked: nat, f: Frame, x: string) returns (run: seq<System>)
    requires Run(t, code, run0) && run0[|run0| - 1] == System([Core(under + [f], false, masked)], map[])
    requires f.rest != [] && f.rest[0] == Use(x)
    ensures Run(t, code, run)
    ensures run[|run| - 1] == System([Core(under + [f.(rest := f.rest[1..], hold := f.hold.(used := f.hold.used + [x]))], false, masked)], map[])
  {
    var f1 := f.(rest := f.rest[1..], hold := f.hold.(used := f.hold.used + [x]));
    assert WithTop(Core(under + [f], false, masked), f1).frames == under + [f1];
    run := Extend(t, code, run0, Core(under + [f1], false, masked));
  }

  lemma {:induction false} UncoveredRun(t: Target, r: Context, l: Priority, x: string) returns (run: seq<System>)
    requires x in t.ceilings && r != Any && l > 0 && r.CanAccess(t.ceilings[x]) && !Covers(Some(l), r, t.ceilings[x])
    ensures Run(t, WindowCode(r, l, x, t.ceilings[x]), run) && Clash(run[|run| - 1], x)
  {
    run := UseOpens(t, r, l, x);
    run := AccessorEnters(t, r, l, x, run);
  }

  // The accessor, past both the mask and the priority.
  lemma {:induction false} AccessorEnters(t: Target, r: Context, l: Priority, x: string, run0: seq<System>) returns (run: seq<System>)
    requires x in t.ceilings && t.ceilings[x] < l && t.ceilings[x] < Base(r)
    requires Run(t, WindowCode(r, l, x, t.ceilings[x]), run0) && run0[|run0| - 1] == System([Core(Using(r, l, x), false, l)], map[])
    ensures Run(t, WindowCode(r, l, x, t.ceilings[x]), run) && Clash(run[|run| - 1], x)
  {
    var c := t.ceilings[x];
    var code := WindowCode(r, l, x, c);
    UsingPriority(r, l, x);
    run := Intrudes(t, code, run0, Using(r, l, x), l, c, "accessor", TopAccess(x), "", x);
  }

  // A handler that is let in while `x` is in use below, and its access.
  lemma Intrudes(t: Target, code: Code, run0: seq<System>, frames: seq<Frame>, masked: nat, p: Priority, f: string, es: seq<Event>, g: string, x: string) returns (run: seq<System>)
    requires Run(t, code, run0) && run0[|run0| - 1] == System([Core(frames, false, masked)], map[])
    requires frames != [] && x in frames[|frames| - 1].hold.used && p < ExecutionPriority(Core(frames, false, masked))
    requires code.entry(Isr(p), f) && code.runs(f, es) && (es == TopAccess(x) || (es == [CallFn(g)] && code.runs(g, TopAccess(x))))
    ensures Run(t, code, run) && Clash(run[|run| - 1], x)
  {
    var c1 := Core(frames + [Frame(Isr(p), es, Idle, 0)], false, masked);
    assert PreemptsBy(code, p, f, es, Core(frames, false, masked), c1);
    run := Extend(t, code, run0, c1);
    run := Accesses(t, code, run, frames, masked, Isr(p), es, g, x);
    assert ClashAt(run[|run| - 1], 0, |frames| - 1, |frames|, x);
  }

  // The stack under the window's context, and with it inside its use.
  ghost function Under(r: Context): seq<Frame> { if r == Thread then [] else [Frame(Thread, [], Idle, 0)] }

  ghost function Using(r: Context, l: Priority, x: string): seq<Frame> {
    Under(r) + [Frame(r, Window(l, x)[2..], Hold(Some(Some(l)), [x], [], []), 0)]
  }

  lemma UsingPriority(r: Context, l: Priority, x: string)
    ensures ActivePriority(Using(r, l, x)) == Base(r)
  {
    var (u, frames) := (Under(r), Using(r, l, x));
    assert frames[..|frames| - 1] == u;
    if u != [] {
      assert u[..0] == [];
      assert ActivePriority(u) == 256;
    }
  }

  // The mask, then the use.
  lemma {:induction false} UseOpens(t: Target, r: Context, l: Priority, x: string) returns (run: seq<System>)
    requires x in t.ceilings && r != Any && l > 0
    ensures Run(t, WindowCode(r, l, x, t.ceilings[x]), run) && run[|run| - 1] == System([Core(Using(r, l, x), false, l)], map[])
  {
    var code := WindowCode(r, l, x, t.ceilings[x]);
    var (u, w) := (Under(r), Window(l, x));
    run := Starts(t, code, r, "window", w);
    assert w == [Mask(Some(l))] + w[1..];
    run := MaskStep(t, code, run, u, r, l, w[1..]);
    assert w[1..][0] == Use(x) && w[1..][1..] == w[2..];
    run := UseStep(t, code, run, u, l, Frame(r, w[1..], Hold(Some(Some(l)), [], [], []), 0), x);
    assert [] + [x] == [x];
    assert run[|run| - 1] == System([Core(Using(r, l, x), false, l)], map[]);
  }

  lemma MaskStep(t: Target, code: Code, run0: seq<System>, under: seq<Frame>, r: Context, l: Priority, rest: seq<Event>) returns (run: seq<System>)
    requires Run(t, code, run0) && run0[|run0| - 1] == System([Core(under + [Frame(r, [Mask(Some(l))] + rest, Idle, 0)], false, 0)], map[]) && l > 0
    ensures Run(t, code, run) && run[|run| - 1] == System([Core(under + [Frame(r, rest, Hold(Some(Some(l)), [], [], []), 0)], false, l)], map[])
  {
    var (f, f1) := (Frame(r, [Mask(Some(l))] + rest, Idle, 0), Frame(r, rest, Hold(Some(Some(l)), [], [], []), 0));
    assert f.rest[1..] == rest;
    assert WithTop(Core(under + [f], false, 0), f1).frames == under + [f1];
    run := Extend(t, code, run0, Core(under + [f1], false, l));
  }

  // --- a callee must be declared for the context it runs in ---

  // Context `r` calls a function declared `Isr(c)`, whose accesses of a static
  // of ceiling `c` are therefore without a mask. The handler at the ceiling
  // accesses the static as well.
  ghost function CallCode(r: Context, x: string, c: Priority): Code {
    Code((f, es) => (f == "caller" && es == [CallFn("handler")]) || (f == "handler" && es == TopAccess(x)) || (f == "idle" && es == []),
         (q, f) => CallEntry(r, c, q, f), {})
  }

  function CallPlacement(r: Context, c: Priority): Placement { (f, q) => CallEntry(r, c, q, f) }

  predicate CallEntry(r: Context, c: Priority, q: Context, f: string) {
    (q == r && f == "caller") || (q == Isr(c) && f == "handler") || (q == Thread && f == "idle")
  }

  // Under every schedule the callee and the handler at the ceiling keep out of
  // each other's way exactly when the callee runs in its declared context. A
  // handler of any other priority clashes, whichever of the two preempts the
  // other, and the call check refuses such a call to threads only.
  lemma {:induction false} CalleeContextMustAgree(t: Target, r: Context, x: string)
    requires x in t.ceilings && r != Any
    ensures t.Touch(Isr(t.ceilings[x]), x, 0) == TopAccess(x)
    ensures Borrow.CallRefused(Isr(t.ceilings[x]), r) <==> r == Thread
    ensures r == Isr(t.ceilings[x]) <==>
      forall run, i :: Run(t, CallCode(r, x, t.ceilings[x]), run) && 0 <= i < |run| ==> !Clash(run[i], x)
  {
    var c := t.ceilings[x];
    var code := CallCode(r, x, c);
    if r == Isr(c) {
      AgreeingCallsPlaced(t, r, x);
      NoClash(t, code, x);
    } else {
      var run := StrayRun(t, r, x);
      assert Clash(run[|run| - 1], x);
    }
  }

  lemma AgreeingCallsPlaced(t: Target, r: Context, x: string)
    requires x in t.ceilings && r == Isr(t.ceilings[x])
    ensures Disciplined(t, CallCode(r, x, t.ceilings[x]))
  {
    var c := t.ceilings[x];
    var (code, may) := (CallCode(r, x, c), CallPlacement(r, c));
    assert [CallFn("handler")][1..] == [];
    assert Advance(t, r, Idle, CallFn("handler")) == Some(Idle);
    UseFollows(t, r, x, Idle);
    forall f, q, es | may(f, q) && code.runs(f, es) ensures q != Any && Follow(t, q, Idle, es).Some? && CallsPlaced(code, may, q, es) {
      assert CallEntry(r, c, q, f);
      AccessesCallNothing(code, may, q, c, x);
      if es == [CallFn("handler")] { assert may("handler", q) && forall e <- es :: e == CallFn("handler"); }
    }
    assert Places(t, code, may);
  }

  // Whichever has the lower priority is in the middle of its access when the
  // other comes.
  lemma {:induction false} StrayRun(t: Target, r: Context, x: string) returns (run: seq<System>)
    requires x in t.ceilings && r != Any && r != Isr(t.ceilings[x])
    ensures Run(t, CallCode(r, x, t.ceilings[x]), run) && Clash(run[|run| - 1], x)
  {
    var c := t.ceilings[x];
    var code := CallCode(r, x, c);
    var calls := [CallFn("handler")];
    if c < Base(r) {
      run := Midway(t, code, r, "caller", calls, "handler", x);
      run := Joins(t, code, run, r, c, "handler", TopAccess(x), "handler", x);
    } else {
      run := Midway(t, code, Isr(c), "handler", TopAccess(x), "handler", x);
      run := Joins(t, code, run, Isr(c), r.p, "caller", calls, "handler", x);
    }
  }

  // A context in the middle of its access.
  ghost function InUse(r: Context, x: string): seq<Frame> { Under(r) + [Frame(r, [Done(x)], Hold(None, [x], [], []), 0)] }

  lemma Midway(t: Target, code: Code, r: Context, f: string, es: seq<Event>, g: string, x: string) returns (run: seq<System>)
    requires r != Any && code.entry(r, f) && code.runs(f, es) && code.entry(Thread, "idle") && code.runs("idle", [])
    requires es == TopAccess(x) || (es == [CallFn(g)] && code.runs(g, TopAccess(x)))
    ensures Run(t, code, run) && run[|run| - 1] == System([Core(InUse(r, x), false, 0)], map[])
  {
    run := Starts(t, code, r, f, es);
    run := Accesses(t, code, run, Under(r), 0, r, es, g, x);
  }

  // A handler that beats it, and its access.
  lemma Joins(t: Target, code: Code, run0: seq<System>, r: Context, p: Priority, f: string, es: seq<Event>, g: string, x: string) returns (run: seq<System>)
    requires Run(t, code, run0) && run0[|run0| - 1] == System([Core(InUse(r, x), false, 0)], map[])
    requires p < Base(r) && code.entry(Isr(p), f) && code.runs(f, es) && (es == TopAccess(x) || (es == [CallFn(g)] && code.runs(g, TopAccess(x))))
    ensures Run(t, code, run) && Clash(run[|run| - 1], x)
  {
    InUsePriority(r, x);
    run := Intrudes(t, code, run0, InUse(r, x), 0, p, f, es, g, x);
  }

  lemma InUsePriority(r: Context, x: string)
    ensures ActivePriority(InUse(r, x)) == Base(r)
  {
    var (u, frames) := (Under(r), InUse(r, x));
    assert frames[..|frames| - 1] == u;
    if u != [] {
      assert u[..0] == [];
      assert ActivePriority(u) == 256;
    }
  }

  // --- accepted programs ---

  ghost predicate Behaviour<D(!new)>(t: Target, f: Ceilings.Fn, es: seq<Event>) {
    exists base: Semantics.Act<D>, d: D, fuel: nat :: Calls.TraceOf(base, t, f, d, fuel) == es
  }

  // What the compiler has checked of a function, and what is asked of it beside
  // that, in one context it can run in.
  ghost predicate AcceptedIn(t: Target, sy: Borrow.Symbols, f: Ceilings.Fn, r: Context) {
    && ClaimsCheckedBlock(f.body) && ClaimsAccepted(f.body, map x <- t.ceilings :: true)
    && (forall x <- t.ceilings :: Borrow.E402(x, f.name) !in Borrow.Report(Borrow.BlockSites(f.body), f.name, f.context, sy))
    && BlockOk(t, r, f.body, None)
  }

  ghost predicate Accepted(t: Target, p: Ceilings.Program, sy: Borrow.Symbols) {
    forall f <- p.fns :: f.name in sy.possible ==> forall r <- sy.possible[f.name] :: AcceptedIn(t, sy, f, r)
  }

  // The code of a program: each function behaves as its runs do, and one without
  // a body here touches no masks, locks or shared statics and calls nothing; what
  // is entered in a context is declared for it; and pointers hold functions the
  // program takes.
  ghost predicate Compiled<D(!new)>(t: Target, p: Ceilings.Program, sigs: Ceilings.Signatures, code: Code) {
    && (forall g, es :: g in sigs && code.runs(g, es) ==> es == [] || exists f <- p.fns :: f.name == g && Behaviour<D>(t, f, es))
    && (forall r, g :: code.entry(r, g) ==> r != Any && g in sigs && sigs[g] == r)
    && code.taken <= Ceilings.FactsOf(p, sigs).taken * sigs.Keys
  }

  // One function, in one context.
  lemma {:induction false} AcceptedFunction<D(!new)>(t: Target, sy: Borrow.Symbols, f: Ceilings.Fn, r: Context, base: Semantics.Act<D>, d: D, fuel: nat)
    requires Borrow.Materialized(sy.statics) && CeilingsOf(t, sy) && r != Any && (f.context != Any ==> r == f.context)
    requires f.name in sy.possible && r in sy.possible[f.name] && AcceptedIn(t, sy, f, r)
    ensures Follow(t, r, Idle, Calls.TraceOf(base, t, f, d, fuel)).Some?
  {
    AcceptedHasPassed(t, sy, f, r);
    AcceptedMeansNoReclaim(f.body, map x <- t.ceilings :: true, t.ceilings.Keys, {});
    BodyKeepsDiscipline(base, t, f.context, r, f.body, d, fuel);
  }

  // The contexts that call propagation has found.
  function Found(m: Ceilings.Possible): Placement { (f, r) => f in m && r in m[f] }

  // What a function executes where propagation has found it can run.
  lemma {:induction false} AcceptedRuns<D(!new)>(t: Target, p: Ceilings.Program, sigs: Ceilings.Signatures, sy: Borrow.Symbols, code: Code, f: string, r: Context, es: seq<Event>)
    requires Borrow.Resolved(p, sigs, sy, {}) && CeilingsOf(t, sy) && t.fns == sigs.Keys
    requires Ceilings.Consistent(sigs, Ceilings.FactsOf(p, sigs), sy.possible)
    requires Accepted(t, p, sy) && Compiled<D>(t, p, sigs, code)
    requires f in sy.possible && r in sy.possible[f] && code.runs(f, es)
    ensures r != Any && Follow(t, r, Idle, es).Some? && CallsPlaced(code, Found(sy.possible), r, es)
  {
    Ceilings.PossibleIsCarried(sigs, Ceilings.FactsOf(p, sigs), sy.possible, r, f);
    if es != [] {
      var fn :| fn in p.fns && fn.name == f && Behaviour<D>(t, fn, es);
      var base: Semantics.Act<D>, d: D, fuel: nat :| Calls.TraceOf(base, t, fn, d, fuel) == es;
      AcceptedFunction(t, sy, fn, r, base, d, fuel);
      Calls.CallsStayInContext(base, t, p, sigs, sy.possible, fn, r, d, fuel);
    }
  }

  // The end-to-end link: the code of an accepted program on whose call graph no
  // function is called outside its context keeps the discipline, so the three
  // theorems above hold of every run of it. Call propagation is what says where
  // each function runs.
  lemma {:induction false} AcceptedProgramsAreDisciplined<D(!new)>(t: Target, p: Ceilings.Program, sigs: Ceilings.Signatures, sy: Borrow.Symbols, code: Code)
    requires Borrow.Resolved(p, sigs, sy, {}) && CeilingsOf(t, sy) && t.fns == sigs.Keys
    requires Ceilings.Consistent(sigs, Ceilings.FactsOf(p, sigs), sy.possible)
    requires Accepted(t, p, sy) && Compiled<D>(t, p, sigs, code)
    ensures Disciplined(t, code)
  {
    var may := Found(sy.possible);
    forall f, r, es | may(f, r) && code.runs(f, es) ensures r != Any && Follow(t, r, Idle, es).Some? && CallsPlaced(code, may, r, es) {
      AcceptedRuns<D>(t, p, sigs, sy, code, f, r, es);
    }
    assert Places(t, code, may);
  }
}
