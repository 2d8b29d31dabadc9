// Half-precision constants: the conversion of a single-precision bit pattern to
// a binary16 one, against IEEE 754 sections 3.4, 4.3.1 and 5.4.2.
//
// Values are counted in units of 2^-149, the least positive single-precision
// number, so that every finite value of both formats is an integer.
module HalfFloat {
  import opened Arithmetic

  lemma {:induction false} Pow2Add(a: nat, b: nat)
    ensures Pow2(a + b) == Pow2(a) * Pow2(b)
    decreases a
  {
    if a > 0 {
      Pow2Add(a - 1, b);
      assert Pow2(a + b) == 2 * Pow2(a - 1 + b);
    }
  }

  // --- the formats ---

  // A single-precision pattern: sign, biased exponent, fraction.
  datatype Single = Single(negative: bool, exp: nat, mant: nat)
  {
    predicate Valid() { exp < 256 && mant < 0x80_0000 }
    predicate Finite() { exp < 255 }

    function Magnitude(): int
      requires Finite()
    {
      if exp == 0 then mant else (0x80_0000 + mant) * Pow2(exp - 1)
    }
  }

  function Unpack(x: nat): Single { Single(x / 0x8000_0000 % 2 == 1, x / 0x80_0000 % 256, x % 0x80_0000) }

  const INFINITY: nat := 0x7C00

  // The magnitude of a binary16 pattern without its sign. The pattern of
  // infinity is given the value the next exponent would have, which is what
  // rounding compares with.
  function HalfMagnitude(h: nat): int {
    var e := h / 1024;
    if e == 0 then h * Pow2(e + 125) else (1024 + h % 1024) * Pow2(e + 124)
  }

  // `h` is the nearest pattern to magnitude `v`, ties going to the even one.
  ghost predicate RoundsTo(v: int, h: nat) {
    h <= INFINITY && PastLower(v, h) && ShortOfUpper(v, h)
  }

  // Past the midpoint with the pattern below, or on it and even.
  ghost predicate PastLower(v: int, h: nat) {
    h > 0 ==> var m := HalfMagnitude(h - 1) + HalfMagnitude(h); 2 * v > m || (2 * v == m && h % 2 == 0)
  }

  ghost predicate ShortOfUpper(v: int, h: nat) {
    h < INFINITY ==> var m := HalfMagnitude(h) + HalfMagnitude(h + 1); 2 * v < m || (2 * v == m && h % 2 == 0)
  }

  // --- the shared step ---

  // The highest bit dropped is set, and so is a lower one or the lowest kept.
  predicate RoundsUp(full: nat, round: int, q: nat)
    requires round > 0
  {
    Quot(full, round) % 2 == 1 && (full % round != 0 || q % 2 == 1)
  }

  // Drop `s` bits, rounding to nearest, ties to even.
  function ShiftRound(full: nat, s: nat): nat
    requires s > 0
  {
    var q := Quot(full, Pow2(s));
    if RoundsUp(full, Pow2(s - 1), q) then q + 1 else q
  }

  // `full` between two multiples of `p`, and `h` the nearer of them, or the even
  // one.
  ghost predicate Nearest(full: int, h: int, p: int) {
    && (2 * full > (2 * h - 1) * p || (2 * full == (2 * h - 1) * p && h % 2 == 0))
    && (2 * full < (2 * h + 1) * p || (2 * full == (2 * h + 1) * p && h % 2 == 0))
  }

  // For every significand and every shift: the result is the nearest multiple,
  // and an even one on a tie.
  lemma {:induction false} ShiftRoundIsNearest(full: nat, s: nat)
    requires s > 0
    ensures Nearest(full, ShiftRound(full, s), Pow2(s))
  {
    var (p, round) := (Pow2(s), Pow2(s - 1));
    var q := Quot(full, p);
    var r := full % p;
    assert p == 2 * round;
    assert full == p * q + r;
    HalvedRemainder(full, round, q, r);
    NearestStep(full, round, q, r, if r > round || (r == round && q % 2 == 1) then 1 else 0);
  }

  lemma HalvedRemainder(full: nat, round: int, q: nat, r: nat)
    requires round > 0 && full == 2 * round * q + r && r < 2 * round
    ensures RoundsUp(full, round, q) <==> r > round || (r == round && q % 2 == 1)
  {
    assert 2 * round * q == round * (2 * q);
    if r >= round {
      assert round * (2 * q + 1) == round * (2 * q) + round;
      DivMod(full, round, 2 * q + 1, r - round);
    } else {
      DivMod(full, round, 2 * q, r);
    }
  }

  lemma NearestStep(full: nat, round: int, q: nat, r: nat, up: nat)
    requires round > 0 && full == 2 * round * q + r && r < 2 * round
    requires up == if r > round || (r == round && q % 2 == 1) then 1 else 0
    ensures Nearest(full, q + up, 2 * round)
  {
    var m := round * q;
    assert 2 * round * q == 2 * m;
    if up == 1 {
      assert (2 * (q + 1) - 1) * (2 * round) == 4 * m + 2 * round;
      assert (2 * (q + 1) + 1) * (2 * round) == 4 * m + 6 * round;
    } else {
      assert (2 * q - 1) * (2 * round) == 4 * m - 2 * round;
      assert (2 * q + 1) * (2 * round) == 4 * m + 2 * round;
    }
  }

  // --- the conversion ---

  // Exponents too small for a normal half: the implicit bit is restored and
  // shifted out.
  method SubnormalBits(e: int, mant: nat) returns (h: nat)
    requires -10 <= e <= 0
    ensures h == ShiftRound(mant + 0x80_0000, 14 - e)
  {
    h := DropBits(mant + 0x80_0000, 14 - e);
  }

  method DropBits(full: nat, shift: nat) returns (h: nat)
    requires shift > 0
    ensures h == ShiftRound(full, shift)
  {
    var (unit, round) := (Pow2(shift), Pow2(shift - 1));
    h := Quot(full, unit);
    var up := RoundsUp(full, round, h);
    if up { h := h + 1; }
  }

  // Rounding may carry into the exponent, and from the last one into infinity.
  method NormalBits(e: int, mant: nat) returns (bits: nat)
    requires 1 <= e <= 30 && mant < 0x80_0000
    ensures bits == e * 0x400 + Rounded13(mant)
  {
    var h := mant / 0x2000;
    var e16 := e;
    if RoundsUp(mant, 0x1000, h) {
      h := h + 1;
      if h == 0x400 {
        h := 0;
        e16 := e16 + 1;
        if e16 >= 31 { return INFINITY; }
      }
    }
    return e16 * 0x400 + h;
  }

  function Rounded13(mant: nat): nat {
    if RoundsUp(mant, 0x1000, mant / 0x2000) then mant / 0x2000 + 1 else mant / 0x2000
  }

  // The same branches and updates on the bit pattern.
  method F32ToF16Bits(x: nat) returns (bits: nat)
    requires x < 0x1_0000_0000
    ensures var f := Unpack(x);
      var sign := if f.negative then 0x8000 else 0;
      if f.Finite() then bits >= sign && RoundsTo(f.Magnitude(), bits - sign)
      else bits == sign + INFINITY + if f.mant != 0 then 0x200 else 0
  {
    var sign := x / 0x8000_0000 % 2 * 0x8000;
    var exp := x / 0x80_0000 % 256;
    var mant := x % 0x80_0000;
    if exp == 255 { return sign + INFINITY + if mant != 0 then 0x200 else 0; }
    var e: int := exp - 112;
    var magnitude: nat;
    if e >= 31 {
      magnitude := INFINITY;
    } else if e < -10 {
      magnitude := 0;
    } else if e <= 0 {
      magnitude := SubnormalBits(e, mant);
    } else {
      magnitude := NormalBits(e, mant);
    }
    CaseRounds(Unpack(x), magnitude);
    return sign + magnitude;
  }

  // --- the four cases ---

  lemma CaseRounds(f: Single, h: nat)
    requires f.Valid() && f.Finite()
    requires var e := f.exp - 112;
      h == if e >= 31 then INFINITY else if e < -10 then 0 else if e <= 0 then ShiftRound(f.mant + 0x80_0000, 14 - e) else e * 0x400 + Rounded13(f.mant)
    ensures RoundsTo(f.Magnitude(), h)
  {
    var e := f.exp - 112;
    if e >= 31 { Overflows(f, 142); }
    else if e < -10 { Underflows(f); }
    else if e <= 0 { SubnormalRounds(f, h); }
    else { NormalRounds(f, Rounded13(f.mant)); }
  }

  lemma Scale(a: int, b: int, p: int)
    requires p > 0
    ensures a <= b ==> a * p <= b * p
    ensures a < b ==> a * p < b * p
  {}

  lemma HalfBelow(h: nat, k: nat)
    requires h <= 2048 && k == 125
    ensures HalfMagnitude(h) == h * Pow2(k)
  {
    if 1024 <= h < 2048 {
      assert h / 1024 == 1 && h % 1024 == h - 1024;
    } else if h == 2048 {
      assert HalfMagnitude(h) == 1024 * Pow2(k + 1) && Pow2(k + 1) == 2 * Pow2(k);
    } else {
      assert h / 1024 == 0;
    }
  }

  // Within a binade, and at its upper end, which is the start of the next.
  lemma HalfIn(e: nat, m: nat)
    requires e >= 1 && m <= 1024
    ensures HalfMagnitude(e * 1024 + m) == (1024 + m) * Pow2(e + 124)
  {
    if m < 1024 {
      DivMod(e * 1024 + m, 1024, e, m);
    } else {
      DivMod(e * 1024 + m, 1024, e + 1, 0);
      assert Pow2(e + 1 + 124) == 2 * Pow2(e + 124);
    }
  }

  lemma HalfGrows(h: nat, k: nat)
    requires k == 125
    ensures HalfMagnitude(h) < HalfMagnitude(h + 1)
  {
    if h < 1024 {
      HalfBelow(h, k);
      HalfBelow(h + 1, k);
      Scale(h, h + 1, Pow2(k));
    } else {
      var (e, m) := (h / 1024, h % 1024);
      HalfIn(e, m);
      HalfIn(e, m + 1);
      Scale(1024 + m, 1024 + m + 1, Pow2(e + 124));
    }
  }

  lemma AtInfinity(v: int)
    requires v >= HalfMagnitude(INFINITY)
    ensures RoundsTo(v, INFINITY)
  {
    HalfGrows(INFINITY - 1, 125);
  }

  lemma Overflows(f: Single, k: nat)
    requires f.Valid() && 143 <= f.exp < 255 && k == 142
    ensures RoundsTo(f.Magnitude(), INFINITY)
  {
    InfinityIs(k);
    Pow2Add(f.exp - 1 - k, k);
    Scale(1, Pow2(f.exp - 1 - k), Pow2(k));
    Scale(0x80_0000, 0x80_0000 + f.mant, Pow2(f.exp - 1));
    AtInfinity(f.Magnitude());
  }

  lemma InfinityIs(k: nat)
    requires k == 142
    ensures HalfMagnitude(INFINITY) == 0x80_0000 * Pow2(k)
  {
    HalfIn(31, 0);
    BinadeUnit(k + 1);
  }

  lemma AtZero(v: int, k: nat)
    requires 2 * v < Pow2(k) && k == 125
    ensures RoundsTo(v, 0)
  {
    HalfBelow(0, k);
    HalfBelow(1, k);
  }

  lemma Underflows(f: Single)
    requires f.Valid() && f.exp < 102
    ensures RoundsTo(f.Magnitude(), 0)
  {
    Pow2Add(12, 12);
    assert Pow2(12) == 0x1000;
    if f.exp == 0 { SmallProduct(f.mant, 24, 0, 125); } else { SmallProduct(0x80_0000 + f.mant, 24, f.exp - 1, 125); }
    AtZero(f.Magnitude(), 125);
  }

  lemma SmallProduct(full: int, n: nat, a: nat, b: nat)
    requires 0 <= full < Pow2(n) && n + a + 1 <= b
    ensures 2 * (full * Pow2(a)) < Pow2(b)
  {
    Pow2Add(n, a);
    Pow2Add(n + a + 1, b - (n + a + 1));
    Scale(full, Pow2(n), Pow2(a));
    Scale(1, Pow2(b - (n + a + 1)), Pow2(n + a + 1));
  }

  lemma {:induction false} SubnormalRounds(f: Single, h: nat)
    requires f.Valid() && 102 <= f.exp <= 112 && h == ShiftRound(f.mant + 0x80_0000, 126 - f.exp)
    ensures RoundsTo(f.Magnitude(), h)
  {
    var (full, s, k) := (0x80_0000 + f.mant, 126 - f.exp, 125);
    var p := Pow2(f.exp - 1);
    ShiftRoundIsNearest(full, s);
    Pow2Add(s, f.exp - 1);
    SmallQuotient(full, s);
    HalfBelow(h, k);
    HalfBelow(h + 1, k);
    if h > 0 { HalfBelow(h - 1, k); }
    ScaledRounding(full, h, Pow2(s), p);
    EvenlySpaced(f.Magnitude(), h, Pow2(k));
  }

  // Twenty-four bits shifted by fourteen or more.
  lemma SmallQuotient(full: nat, s: nat)
    requires full < 0x100_0000 && s >= 14
    ensures ShiftRound(full, s) <= 1024
  {
    Pow2Add(14, s - 14);
    assert Pow2(14) == 0x4000;
    Scale(1, Pow2(s - 14), 0x4000);
    var (q, p) := (Quot(full, Pow2(s)), Pow2(s));
    assert full == p * q + full % p;
    Scale(1024, q, p);
  }

  // A rounding, measured in smaller units.
  lemma ScaledRounding(full: int, h: int, a: int, p: int)
    requires a > 0 && p > 0 && Nearest(full, h, a)
    ensures Nearest(full * p, h, a * p)
  {
    var (lo, hi) := ((2 * h - 1) * a, (2 * h + 1) * a);
    assert lo * p == (2 * h - 1) * (a * p) && hi * p == (2 * h + 1) * (a * p);
    assert (2 * full) * p == 2 * (full * p);
    Scale(lo, 2 * full, p);
    Scale(2 * full, hi, p);
    Scale(hi, 2 * full, p);
  }

  // Nearest among multiples is nearest among patterns that are evenly spaced.
  lemma EvenlySpaced(v: int, h: int, u: int)
    requires Nearest(v, h, u)
    ensures 2 * v > (h - 1) * u + h * u || (2 * v == (h - 1) * u + h * u && h % 2 == 0)
    ensures 2 * v < h * u + (h + 1) * u || (2 * v == h * u + (h + 1) * u && h % 2 == 0)
  {
    assert (2 * h - 1) * u == (h - 1) * u + h * u;
    assert (2 * h + 1) * u == h * u + (h + 1) * u;
  }

  lemma {:induction false} NormalRounds(f: Single, m: nat)
    requires f.Valid() && 113 <= f.exp <= 142 && m == Rounded13(f.mant)
    ensures RoundsTo(f.Magnitude(), (f.exp - 112) * 1024 + m)
  {
    Rounded13IsNearest(f.mant);
    NormalPastLower(f, f.exp - 112, m);
    NormalShortOfUpper(f, f.exp - 112, m);
  }

  // The rounding measured in the unit of the binade.
  lemma NormalScaled(f: Single, e: nat, m: nat)
    requires f.Valid() && 113 <= f.exp <= 142 && e == f.exp - 112 && m == Rounded13(f.mant)
    ensures Nearest(f.Magnitude(), 1024 + m, Pow2(e + 124))
  {
    Rounded13IsNearest(f.mant);
    ScaledRounding(0x80_0000 + f.mant, 1024 + m, 0x2000, Pow2(f.exp - 1));
    BinadeUnit(f.exp);
  }

  // The midpoint tests, from the two magnitudes.
  lemma FromMagnitudes(v: int, h: nat, a: int, b: int)
    requires HalfMagnitude(h) == a && HalfMagnitude(h + 1) == b
    ensures (2 * v > a + b || (2 * v == a + b && h % 2 == 1)) ==> PastLower(v, h + 1)
    ensures (2 * v < a + b || (2 * v == a + b && h % 2 == 0)) ==> ShortOfUpper(v, h)
  {}

  lemma NormalPastLower(f: Single, e: nat, m: nat)
    requires f.Valid() && 113 <= f.exp <= 142 && e == f.exp - 112 && m == Rounded13(f.mant) && m <= 1024
    ensures PastLower(f.Magnitude(), e * 1024 + m)
  {
    if m == 0 {
      BinadeStart(f, e);
    } else {
      var (v, u) := (f.Magnitude(), Pow2(e + 124));
      NormalScaled(f, e, m);
      HalfIn(e, m - 1);
      HalfIn(e, m);
      PastIn(v, e, m, u);
    }
  }

  lemma PastIn(v: int, e: nat, m: nat, u: int)
    requires m > 0 && Nearest(v, 1024 + m, u)
    requires HalfMagnitude(e * 1024 + m - 1) == (1024 + m - 1) * u && HalfMagnitude(e * 1024 + m) == (1024 + m) * u
    ensures PastLower(v, e * 1024 + m)
  {
    EvenlySpaced(v, 1024 + m, u);
    FromMagnitudes(v, e * 1024 + m - 1, (1024 + m - 1) * u, (1024 + m) * u);
  }

  lemma NormalShortOfUpper(f: Single, e: nat, m: nat)
    requires f.Valid() && 113 <= f.exp <= 142 && e == f.exp - 112 && m == Rounded13(f.mant) && m <= 1024
    ensures ShortOfUpper(f.Magnitude(), e * 1024 + m)
  {
    if m == 1024 {
      BinadeEnd(f, e);
    } else {
      var (v, u) := (f.Magnitude(), Pow2(e + 124));
      NormalScaled(f, e, m);
      HalfIn(e, m);
      HalfIn(e, m + 1);
      ShortIn(v, e, m, u);
    }
  }

  lemma ShortIn(v: int, e: nat, m: nat, u: int)
    requires Nearest(v, 1024 + m, u)
    requires HalfMagnitude(e * 1024 + m) == (1024 + m) * u && HalfMagnitude(e * 1024 + m + 1) == (1024 + m + 1) * u
    ensures ShortOfUpper(v, e * 1024 + m)
  {
    EvenlySpaced(v, 1024 + m, u);
    FromMagnitudes(v, e * 1024 + m, (1024 + m) * u, (1024 + m + 1) * u);
  }

  lemma BinadeUnit(exp: nat)
    requires exp >= 113
    ensures Pow2(exp + 12) == 0x2000 * Pow2(exp - 1)
  {
    Pow2Add(13, exp - 1);
    assert Pow2(13) == 0x2000;
  }

  lemma Rounded13IsNearest(mant: nat)
    requires mant < 0x80_0000
    ensures Rounded13(mant) <= 1024 && Nearest(0x80_0000 + mant, 1024 + Rounded13(mant), 0x2000)
  {
    var (q, r) := (mant / 0x2000, mant % 0x2000);
    HalvedRemainder(mant, 0x1000, q, r);
    NearestStep(mant, 0x1000, q, r, if r > 0x1000 || (r == 0x1000 && q % 2 == 1) then 1 else 0);
  }

  // Rounded down to the start of a binade: no nearer to anything below.
  lemma BinadeStart(f: Single, e: nat)
    requires f.Valid() && 113 <= f.exp <= 142 && e == f.exp - 112
    ensures 2 * f.Magnitude() > HalfMagnitude(e * 1024 - 1) + HalfMagnitude(e * 1024)
  {
    HalfIn(e, 0);
    HalfGrows(e * 1024 - 1, 125);
    BinadeUnit(f.exp);
    Scale(0x80_0000, 0x80_0000 + f.mant, Pow2(f.exp - 1));
  }

  // Rounded up to the end of a binade: no nearer to anything above.
  lemma BinadeEnd(f: Single, e: nat)
    requires f.Valid() && 113 <= f.exp <= 142 && e == f.exp - 112
    ensures 2 * f.Magnitude() < HalfMagnitude(e * 1024 + 1024) + HalfMagnitude(e * 1024 + 1025)
  {
    HalfIn(e, 1024);
    HalfGrows(e * 1024 + 1024, 125);
    BinadeUnit(f.exp);
    Scale(0x80_0000 + f.mant, 0x100_0000, Pow2(f.exp - 1));
  }

  // --- what nearest means ---

  lemma {:induction false} HalfOrdered(a: nat, b: nat)
    requires a < b
    ensures HalfMagnitude(a) < HalfMagnitude(b)
    decreases b - a
  {
    HalfGrows(b - 1, 125);
    if a < b - 1 { HalfOrdered(a, b - 1); }
  }

  function Distance(a: int, b: int): int { if a > b then a - b else b - a }

  // No other pattern is closer.
  lemma {:induction false} RoundedIsNearest(v: int, h: nat, k: nat)
    requires RoundsTo(v, h) && k <= INFINITY
    ensures Distance(v, HalfMagnitude(h)) <= Distance(v, HalfMagnitude(k)) || v > HalfMagnitude(INFINITY)
  {
    if k < h {
      if k < h - 1 { HalfOrdered(k, h - 1); }
      HalfOrdered(h - 1, h);
    } else if k > h {
      if h + 1 < k { HalfOrdered(h + 1, k); }
      HalfOrdered(h, h + 1);
    }
  }

  // A larger magnitude never rounds to a smaller pattern. In particular a
  // magnitude rounds to one pattern only.
  lemma {:induction false} RoundingIsMonotone(v: int, w: int, h: nat, k: nat)
    requires v <= w && RoundsTo(v, h) && RoundsTo(w, k)
    ensures h <= k
  {
    if h > 0 && k < INFINITY {
      if k < h {
        AtLeast(k, h - 1);
        AtLeast(k + 1, h);
        if k + 1 < h { HalfOrdered(k + 1, h); }
      }
      MidpointsOrder(v, w, h, k, HalfMagnitude(h - 1), HalfMagnitude(h), HalfMagnitude(k), HalfMagnitude(k + 1));
    }
  }

  // Past one midpoint and short of another: the other is no lower.
  lemma MidpointsOrder(v: int, w: int, h: nat, k: nat, a: int, b: int, c: int, d: int)
    requires v <= w && (k < h ==> c <= a && d <= b && (k + 1 < h ==> d < b))
    requires 2 * v > a + b || (2 * v == a + b && h % 2 == 0)
    requires 2 * w < c + d || (2 * w == c + d && k % 2 == 0)
    ensures h <= k
  {}

  lemma AtLeast(a: nat, b: nat)
    requires a <= b
    ensures HalfMagnitude(a) <= HalfMagnitude(b)
  {
    if a < b { HalfOrdered(a, b); }
  }

  // 65520, the midpoint between the largest half and the next power of two.
  function Limit(k: nat): int { 65520 * 32 * Pow2(k) }

  // Infinity is returned exactly from 65520 on: 65520 is 2^-149 times
  // 65520 * 2^149.
  lemma {:induction false} OverflowsExactly(v: int, h: nat, k: nat)
    requires RoundsTo(v, h) && k == 144
    ensures h == INFINITY <==> v >= Limit(k)
  {
    LastTwo(k);
    if h + 1 < INFINITY {
      AtLeast(h, INFINITY - 1);
      AtLeast(h + 1, INFINITY - 1);
    }
  }

  lemma LastTwo(k: nat)
    requires k == 144
    ensures HalfMagnitude(INFINITY - 1) + HalfMagnitude(INFINITY) == 2 * Limit(k) && HalfMagnitude(INFINITY - 1) < Limit(k)
  {
    HalfIn(30, 1023);
    HalfIn(31, 0);
    Pow2Add(11, k);
    Pow2Add(10, k);
    assert Pow2(10) == 1024 && Pow2(11) == 2048;
  }
}
