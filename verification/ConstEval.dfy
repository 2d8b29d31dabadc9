// Compile-time evaluation of expressions over 128-bit signed integers and
// Booleans. Every operator is checked: what does not fit has no value.
module ConstEval {
  import opened Arithmetic
  import opened Ast

  datatype ConstVal = Int(n: int) | Bool(b: bool)

  const INT_MAX: int := 0x7FFF_FFFF_FFFF_FFFF_FFFF_FFFF_FFFF_FFFF
  const INT_MIN: int := -INT_MAX - 1

  predicate Fits(n: int) { INT_MIN <= n <= INT_MAX }

  function Checked(n: int): Option<ConstVal> {
    if Fits(n) then Some(Int(n)) else None
  }

  // Division truncates toward zero; a remainder has the sign of the dividend.
  function Quotient(x: int, y: int): int
    requires y != 0
  {
    if (x >= 0) == (y > 0) then (if x >= 0 then x else -x) / (if y > 0 then y else -y)
    else -((if x >= 0 then x else -x) / (if y > 0 then y else -y))
  }

  // Bit by bit, in two's complement: the lowest `n` bits, then the sign.
  function Bitwise(op: (bool, bool) -> bool, x: int, y: int, n: nat): int
    decreases n
  {
    if n == 0 then (if op(x < 0, y < 0) then -1 else 0)
    else 2 * Bitwise(op, x / 2, y / 2, n - 1) + if op(x % 2 == 1, y % 2 == 1) then 1 else 0
  }

  function BitAnd128(x: int, y: int): int { Bitwise((a, b) => a && b, x, y, 127) }
  function BitOr128(x: int, y: int): int { Bitwise((a, b) => a || b, x, y, 127) }
  function BitXor128(x: int, y: int): int { Bitwise((a, b) => a != b, x, y, 127) }

  // The low 128 bits, read as signed.
  function Wrap128(n: int): int {
    var low := n % (2 * (INT_MAX + 1));
    if low > INT_MAX then low - 2 * (INT_MAX + 1) else low
  }

  function IntBinop(op: BinaryOp, x: int, y: int): Option<ConstVal> {
    match op
    case Add => Checked(x + y)
    case Sub => Checked(x - y)
    case Mul => Checked(x * y)
    case Div => if y == 0 then None else Checked(Quotient(x, y))
    case Mod => if y == 0 || !Fits(Quotient(x, y)) then None else Some(Int(x - y * Quotient(x, y)))
    case BitAnd => Some(Int(BitAnd128(x, y)))
    case BitOr => Some(Int(BitOr128(x, y)))
    case BitXor => Some(Int(BitXor128(x, y)))
    case Shl => if 0 <= y < 128 then Some(Int(Wrap128(x * Pow2(y)))) else None
    case Shr => if 0 <= y < 128 then Some(Int(x / Pow2(y))) else None
    case Eq => Some(Bool(x == y))
    case NotEq => Some(Bool(x != y))
    case Lt => Some(Bool(x < y))
    case Gt => Some(Bool(x > y))
    case LtEq => Some(Bool(x <= y))
    case GtEq => Some(Bool(x >= y))
    case And => None
    case Or => None
  }

  function Binop(op: BinaryOp, a: ConstVal, b: ConstVal): Option<ConstVal> {
    if a.Int? && b.Int? then IntBinop(op, a.n, b.n)
    else if a.Bool? && b.Bool? then
      match op
      case And => Some(Bool(a.b && b.b))
      case Or => Some(Bool(a.b || b.b))
      case Eq => Some(Bool(a.b == b.b))
      case NotEq => Some(Bool(a.b != b.b))
      case _ => None
    else None
  }

  function Unop(op: UnaryOp, a: ConstVal): Option<ConstVal> {
    match op
    case Neg => if a.Int? then Checked(-a.n) else None
    case BitNot => if a.Int? then Some(Int(-a.n - 1)) else None
    case Not => if a.Bool? then Some(Bool(!a.b)) else None
    case _ => None
  }

  // Width and signedness of a primitive integer type name.
  function IntTypeBits(ty: string): Option<(nat, bool)> {
    if ty == "i8" then Some((8, true))
    else if ty == "i16" then Some((16, true))
    else if ty == "i32" then Some((32, true))
    else if ty == "i64" then Some((64, true))
    else if ty == "u8" || ty == "b8" then Some((8, false))
    else if ty == "u16" then Some((16, false))
    else if ty == "u32" then Some((32, false))
    else if ty == "u64" then Some((64, false))
    else None
  }

  function TruncateInt(n: int, bits: nat, signed: bool): int
    requires 0 < bits <= 64
  {
    var low := BitAnd128(n, Pow2(bits) - 1);
    if signed && BitAnd128(low / Pow2(bits - 1), 1) == 1 then low - Pow2(bits) else low
  }

  // A cast to an integer type takes a Boolean to 0 or 1 first; any other target
  // passes the value through.
  function ApplyCast(v: ConstVal, ty: string): ConstVal {
    match IntTypeBits(ty)
    case None => v
    case Some((bits, signed)) => Int(TruncateInt(if v.Int? then v.n else if v.b then 1 else 0, bits, signed))
  }

  // Both operands of every operator are evaluated; there is no short circuit.
  function EvalConst(e: Expr, consts: map<string, ConstVal>): Option<ConstVal> {
    match e
    case IntLit(n) => Some(Int(n))
    case BoolLit(b) => Some(Bool(b))
    case Group(i) => EvalConst(i, consts)
    case Cast(i, ty) => (match EvalConst(i, consts) case None => None case Some(v) => Some(ApplyCast(v, ty)))
    case Ident(x) => if x in consts then Some(consts[x]) else None
    case Unary(op, i) => (match EvalConst(i, consts) case None => None case Some(v) => Unop(op, v))
    case Binary(l, op, r) =>
      (match EvalConst(l, consts)
       case None => None
       case Some(a) => match EvalConst(r, consts) case None => None case Some(b) => Binop(op, a, b))
    case _ => None
  }

  // --- casts wrap ---

  // A mask of `k` ones keeps the residue modulo 2^k.
  lemma {:induction false} MaskIsResidue(x: int, k: nat, n: nat)
    requires k <= n
    ensures Bitwise((a, b) => a && b, x, Pow2(k) - 1, n) == x % Pow2(k)
    decreases n
  {
    var and := (a, b) => a && b;
    if k == 0 {
      ZeroMask(x, n);
    } else {
      var m := Pow2(k - 1);
      assert (Pow2(k) - 1) % 2 == 1 && (Pow2(k) - 1) / 2 == m - 1;
      MaskIsResidue(x / 2, k - 1, n - 1);
      HalfResidue(x, m);
    }
  }

  lemma {:induction false} ZeroMask(x: int, n: nat)
    ensures Bitwise((a, b) => a && b, x, 0, n) == 0
    decreases n
  {
    if n > 0 { ZeroMask(x / 2, n - 1); }
  }

  lemma HalfResidue(x: int, m: int)
    requires m > 0
    ensures 2 * ((x / 2) % m) + x % 2 == x % (2 * m)
  {
    var (q, r) := ((x / 2) / m, (x / 2) % m);
    assert x / 2 == m * q + r;
    assert x == 2 * m * q + (2 * r + x % 2);
    DivMod(x, 2 * m, q, 2 * r + x % 2);
  }

  // The unique value of the type that is congruent to `n`.
  ghost predicate WrapsTo(n: int, bits: nat, signed: bool, r: int)
    requires bits > 0
  {
    && (n - r) % Pow2(bits) == 0
    && if signed then 0 - Pow2(bits - 1) <= r < Pow2(bits - 1) else 0 <= r < Pow2(bits)
  }

  // A cast to an integer type is run-time wrap-around at that width.
  lemma {:induction false} TruncateWraps(n: int, bits: nat, signed: bool)
    requires 0 < bits <= 64
    ensures WrapsTo(n, bits, signed, TruncateInt(n, bits, signed))
    ensures forall r :: WrapsTo(n, bits, signed, r) ==> r == TruncateInt(n, bits, signed)
  {
    var m := Pow2(bits);
    TruncateValue(n, bits, signed);
    var r := TruncateInt(n, bits, signed);
    TruncateCongruent(n, m, r);
    forall s | WrapsTo(n, bits, signed, s) ensures s == r { SameResidue(n, r, s, m); }
  }

  lemma {:induction false} TruncateValue(n: int, bits: nat, signed: bool)
    requires 0 < bits <= 64
    ensures var (m, h) := (Pow2(bits), Pow2(bits - 1));
      m == 2 * h && TruncateInt(n, bits, signed) == if signed && n % m >= h then n % m - m else n % m
  {
    var (m, h) := (Pow2(bits), Pow2(bits - 1));
    var low := n % m;
    MaskIsResidue(n, bits, 127);
    TopBit(low, h);
    MaskIsResidue(low / h, 1, 127);
    assert Pow2(1) == 2;
  }

  lemma TruncateCongruent(n: int, m: int, r: int)
    requires m > 0 && (r == n % m || r == n % m - m)
    ensures (n - r) % m == 0
  {
    var q := n / m;
    assert n == m * q + n % m;
    if r == n % m {
      DivMod(n - r, m, q, 0);
    } else {
      assert m * (q + 1) == m * q + m;
      DivMod(n - r, m, q + 1, 0);
    }
  }

  lemma TopBit(low: int, h: int)
    requires h > 0 && 0 <= low < 2 * h
    ensures (low / h) % 2 == (if low >= h then 1 else 0)
  {
    if low >= h { DivMod(low, h, 1, low - h); } else { DivMod(low, h, 0, low); }
  }

  // --- more known consts never change a value ---

  lemma {:induction false} EvalMonotone(e: Expr, m: map<string, ConstVal>, n: map<string, ConstVal>)
    requires EvalConst(e, m).Some? && forall x <- m :: x in n && n[x] == m[x]
    ensures EvalConst(e, n) == EvalConst(e, m)
    decreases e
  {
    match e
    case Group(i) => EvalMonotone(i, m, n);
    case Cast(i, _) => EvalMonotone(i, m, n);
    case Unary(_, i) => EvalMonotone(i, m, n);
    case Binary(l, _, r) => EvalMonotone(l, m, n); EvalMonotone(r, m, n);
    case _ =>
  }
}
