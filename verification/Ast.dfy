// The abstract syntax shared by every pass of the model.
//
// It keeps the statement forms the control-flow passes branch on, and every
// expression form a walker treats specially. The view, ring, bit-view, struct
// and repeat constructors only ever have their parts visited in order, so one
// form, `Build`, stands for all of them. Literals carry integers; a Boolean
// literal in a condition is 0 or 1 at run time.
module Ast {

  datatype Option<+T> = None | Some(value: T)

  datatype UnaryOp = Neg | Not | BitNot | Deref | AddrOf

  datatype BinaryOp =
    | Add | Sub | Mul | Div | Mod
    | And | Or
    | BitAnd | BitOr | BitXor | Shl | Shr
    | Eq | NotEq | Lt | Gt | LtEq | GtEq

  datatype Expr =
    | IntLit(n: nat)
    | BoolLit(b: bool)
    | Ident(name: string)
    | Unary(uop: UnaryOp, operand: Expr)
    | Binary(left: Expr, bop: BinaryOp, right: Expr)
    | Call(callee: Expr, args: seq<Expr>)
    | FieldAccess(base: Expr, field: string)
    | Index(base: Expr, idx: Expr)
    | Group(inner: Expr)
    | Cast(inner: Expr, ty: string)
    | ArrayInit(elems: seq<Expr>)
    | Build(parts: seq<Expr>)

  datatype LValue =
    | LName(name: string)
    | LField(lbase: LValue, field: string)
    | LIndex(lbase: LValue, idx: Expr)
    | LDeref(ptr: Expr)
  {
    // The read expression for this place.
    function ToExpr(): Expr {
      match this
      case LName(x) => Ident(x)
      case LField(b, f) => FieldAccess(b.ToExpr(), f)
      case LIndex(b, i) => Index(b.ToExpr(), i)
      case LDeref(e) => Unary(Deref, e)
    }
  }

  // An enum variant is its discriminant.
  datatype Pattern = PInt(v: int) | PRange(lo: int, hi: int) | PVariant(disc: int) | PWild

  datatype Arm = Arm(patterns: seq<Pattern>, body: Block)

  // A match with variant patterns is on an enum.
  predicate OnEnum(arms: seq<Arm>) { exists arm <- arms :: exists p <- arm.patterns :: p.PVariant? }

  // No arm with a test comes after a `_` arm.
  predicate WildLast(arms: seq<Arm>) {
    forall i, j :: 0 <= i < j < |arms| && PWild in arms[i].patterns ==> PWild in arms[j].patterns
  }

  datatype Direction = Upto | Downto

  // `trailing` is the last expression of a block when no semicolon follows it.
  datatype Block = Block(stmts: seq<Stmt>, trailing: Option<Expr>)

  // `VarDecl.moves` says whether the declared type has move semantics. The else
  // branch of an `if` is one statement, a block or an inner `if`: `els` holds
  // that statement, and is empty where there is none.
  datatype Stmt =
    | VarDecl(name: string, moves: bool, init: Expr)
    | Assign(target: LValue, value: Expr)
    | CompoundAssign(target: LValue, op: BinaryOp, value: Expr)
    | ExprStmt(e: Expr)
    | If(cond: Expr, thn: Block, els: Block)
    | Loop(body: Block)
    | While(cond: Expr, body: Block)
    | For(v: string, start: Expr, dir: Direction, end: Expr, step: Option<Expr>, body: Block)
    | Match(scrutinee: Expr, arms: seq<Arm>)
    | Return(result: Option<Expr>)
    | Break
    | Continue
    | BlockStmt(b: Block)
    | Claim(name: string, body: Block)

  const EmptyBlock := Block([], None)

  // `&&` and `||`, whose right operand may not be evaluated.
  predicate Logical(e: Expr) { e.Binary? && (e.bop == And || e.bop == Or) }

  // How a subexpression is evaluated: for its value, as the place of an
  // address-of or an assignment target, or as the base of an index.
  datatype Mode = Val | Place | Base

  // The parts of an expression that are evaluated before the node itself, in
  // order. `&&`, `||` and groups are not strict nodes and are handled apart.
  function Parts(e: Expr, mode: Mode): (ps: seq<(Expr, Mode)>)
    ensures forall p <- ps :: p.0 < e
  {
    match e
    case IntLit(_) => []
    case BoolLit(_) => []
    case Ident(_) => []
    case Unary(op, p) => [(p, if op == AddrOf then Place else Val)]
    case Binary(l, _, r) => [(l, Val), (r, Val)]
    case Call(callee, args) => [(callee, Val)] + seq(|args|, i requires 0 <= i < |args| => (args[i], Val))
    case FieldAccess(b, _) => [(b, if mode == Place then Place else Val)]
    case Index(b, i) => [(b, if mode == Place then Place else Base), (i, Val)]
    case Group(i) => [(i, mode)]
    case Cast(i, _) => [(i, Val)]
    case ArrayInit(es) => seq(|es|, i requires 0 <= i < |es| => (es[i], Val))
    case Build(es) => seq(|es|, i requires 0 <= i < |es| => (es[i], Val))
  }

  // The parts of an assignment target: a whole name has none, a projection
  // evaluates its base as a place.
  function TargetParts(lv: LValue): seq<(Expr, Mode)> {
    match lv
    case LName(_) => []
    case LField(b, _) => [(b.ToExpr(), Place)]
    case LIndex(b, i) => [(b.ToExpr(), Place), (i, Val)]
    case LDeref(e) => [(e, Val)]
  }

  // The identifiers an expression mentions, in any position.
  function Names(e: Expr): set<string>
    decreases e
  {
    match e
    case IntLit(_) => {}
    case BoolLit(_) => {}
    case Ident(x) => {x}
    case Unary(_, p) => Names(p)
    case Binary(l, _, r) => Names(l) + Names(r)
    case Call(callee, args) => Names(callee) + NamesOf(args)
    case FieldAccess(b, _) => Names(b)
    case Index(b, i) => Names(b) + Names(i)
    case Group(i) => Names(i)
    case Cast(i, _) => Names(i)
    case ArrayInit(es) => NamesOf(es)
    case Build(es) => NamesOf(es)
  }

  function NamesOf(es: seq<Expr>): set<string>
    decreases es
  {
    if es == [] then {} else Names(es[0]) + NamesOf(es[1..])
  }

  function LNames(lv: LValue): set<string> {
    match lv
    case LName(x) => {x}
    case LField(b, _) => LNames(b)
    case LIndex(b, i) => LNames(b) + Names(i)
    case LDeref(e) => Names(e)
  }

  lemma NamesOfContains(es: seq<Expr>, i: nat)
    requires i < |es|
    ensures Names(es[i]) <= NamesOf(es)
  {
    if i > 0 { NamesOfContains(es[1..], i - 1); }
  }

  lemma PartNames(e: Expr, mode: Mode)
    ensures forall p <- Parts(e, mode) :: Names(p.0) <= Names(e)
  {
    match e
    case Call(_, es) => forall i | 0 <= i < |es| { NamesOfContains(es, i); }
    case ArrayInit(es) => forall i | 0 <= i < |es| { NamesOfContains(es, i); }
    case Build(es) => forall i | 0 <= i < |es| { NamesOfContains(es, i); }
    case _ =>
  }

  lemma ToExprNames(lv: LValue)
    ensures Names(lv.ToExpr()) == LNames(lv)
  {}

  lemma TargetPartNames(lv: LValue)
    ensures forall p <- TargetParts(lv) :: Names(p.0) <= LNames(lv)
  {
    match lv
    case LField(b, _) => ToExprNames(b);
    case LIndex(b, _) => ToExprNames(b);
    case _ =>
  }
}
