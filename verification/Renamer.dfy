// The renamer itself: a walk that rewrites names and collects export
// violations, proved to do what `Renaming` says.
module Renamer {
  import opened Ast
  import opened Renaming

  class Renamer {
    const m: Module
    var errors: seq<(string, string)>

    constructor (m: Module)
      ensures this.m == m && errors == []
    {
      this.m := m;
      errors := [];
    }

    ghost predicate Added(before: seq<(string, string)>, more: seq<(string, string)>)
      reads this
    {
      errors == before + more
    }

    method CheckExport(q: string, name: string)
      requires q in m.exports
      modifies this
      ensures Added(old(errors), Reported(m, q, name))
    {
      if name !in m.exports[q] { errors := errors + [(q, name)]; }
    }

    method RewriteExpr(e: Expr) returns (r: Expr)
      modifies this
      ensures r == RwExpr(m, e) && Added(old(errors), ExprErrors(m, e))
      decreases e
    {
      match e
      case IntLit(_) => r := e;
      case BoolLit(_) => r := e;
      case Ident(x) => r := Ident(m.Map(x));
      case Unary(op, p) =>
        var p1 := RewriteExpr(p);
        r := Unary(op, p1);
      case Binary(x, op, y) =>
        var x1 := RewriteExpr(x);
        var y1 := RewriteExpr(y);
        r := Binary(x1, op, y1);
      case Call(callee, args) =>
        var c1 := RewriteExpr(callee);
        var a1 := RewriteAll(args);
        r := Call(c1, a1);
      case FieldAccess(b, f) =>
        if b.Ident? && b.name in m.exports {
          CheckExport(b.name, f);
          r := Ident(b.name + "." + f);
        } else {
          var b1 := RewriteExpr(b);
          r := FieldAccess(b1, f);
        }
      case Index(b, i) =>
        var b1 := RewriteExpr(b);
        var i1 := RewriteExpr(i);
        r := Index(b1, i1);
      case Group(i) =>
        var i1 := RewriteExpr(i);
        r := Group(i1);
      case Cast(i, ty) =>
        var i1 := RewriteExpr(i);
        r := Cast(i1, ty);
      case ArrayInit(es) =>
        var es1 := RewriteAll(es);
        r := ArrayInit(es1);
      case Build(es) =>
        var es1 := RewriteAll(es);
        r := Build(es1);
    }

    method RewriteAll(es: seq<Expr>) returns (r: seq<Expr>)
      modifies this
      ensures r == RwAll(m, es) && Added(old(errors), AllErrors(m, es))
      decreases es
    {
      if es == [] {
        r := [];
      } else {
        var e1 := RewriteExpr(es[0]);
        var rest := RewriteAll(es[1..]);
        r := [e1] + rest;
      }
    }

    method RewriteOpt(e: Option<Expr>) returns (r: Option<Expr>)
      modifies this
      ensures r == RwOpt(m, e) && Added(old(errors), OptErrors(m, e))
    {
      r := None;
      if e.Some? {
        var x := RewriteExpr(e.value);
        r := Some(x);
      }
    }

    // The inner place is rewritten first; only then is it looked at.
    method RewriteLValue(lv: LValue) returns (r: LValue)
      modifies this
      ensures r == RwPlace(m, lv) && Added(old(errors), PlaceErrors(m, lv))
      decreases lv
    {
      match lv
      case LName(x) => r := LName(m.Map(x));
      case LField(b, f) =>
        var b1 := RewriteLValue(b);
        if b1.LName? && b1.name in m.exports {
          CheckExport(b1.name, f);
          r := LName(b1.name + "." + f);
        } else {
          r := LField(b1, f);
        }
      case LIndex(b, i) =>
        var b1 := RewriteLValue(b);
        var i1 := RewriteExpr(i);
        r := LIndex(b1, i1);
      case LDeref(e) =>
        var e1 := RewriteExpr(e);
        r := LDeref(e1);
    }

    method RewriteBlock(b: Block) returns (r: Block)
      modifies this
      ensures r == RwBlock(m, b) && Added(old(errors), BlockErrors(m, b))
      decreases b, |b.stmts| + 1
    {
      var stmts: seq<Stmt> := [];
      for i := 0 to |b.stmts|
        invariant |stmts| == i && forall j :: 0 <= j < i ==> stmts[j] == RwStmt(m, b.stmts[j])
        invariant errors + ErrorsFrom(m, b, i) == old(errors) + BlockErrors(m, b)
      {
        ghost var before := errors;
        var s := RewriteStmt(b.stmts[i]);
        stmts := stmts + [s];
        assert before + (StmtErrors(m, b.stmts[i]) + ErrorsFrom(m, b, i + 1)) == (before + StmtErrors(m, b.stmts[i])) + ErrorsFrom(m, b, i + 1);
      }
      var t := RewriteOpt(b.trailing);
      assert stmts == RwBlock(m, b).stmts;
      r := Block(stmts, t);
    }

    method RewriteStmt(s: Stmt) returns (r: Stmt)
      modifies this
      ensures r == RwStmt(m, s) && Added(old(errors), StmtErrors(m, s))
      decreases s, 1
    {
      match s
      case VarDecl(x, moves, init) =>
        var i1 := RewriteExpr(init);
        r := VarDecl(x, moves, i1);
      case Assign(lv, v) =>
        var t1 := RewriteLValue(lv);
        var v1 := RewriteExpr(v);
        r := Assign(t1, v1);
      case CompoundAssign(lv, op, v) =>
        var t1 := RewriteLValue(lv);
        var v1 := RewriteExpr(v);
        r := CompoundAssign(t1, op, v1);
      case ExprStmt(e) =>
        var e1 := RewriteExpr(e);
        r := ExprStmt(e1);
      case If(c, t, e) =>
        var c1 := RewriteExpr(c);
        var t1 := RewriteBlock(t);
        var e1 := RewriteBlock(e);
        r := If(c1, t1, e1);
      case Loop(b) =>
        var b1 := RewriteBlock(b);
        r := Loop(b1);
      case While(c, b) =>
        var c1 := RewriteExpr(c);
        var b1 := RewriteBlock(b);
        r := While(c1, b1);
      case For(_, _, _, _, _, _) => r := RewriteFor(s);
      case Match(e, arms) => r := RewriteMatch(s);
      case Return(e) =>
        var e1 := RewriteOpt(e);
        r := Return(e1);
      case Break => r := s;
      case Continue => r := s;
      case BlockStmt(b) =>
        var b1 := RewriteBlock(b);
        r := BlockStmt(b1);
      case Claim(x, b) =>
        var b1 := RewriteBlock(b);
        r := Claim(m.Map(x), b1);
    }

    method RewriteFor(s: Stmt) returns (r: Stmt)
      requires s.For?
      modifies this
      ensures r == RwStmt(m, s) && Added(old(errors), StmtErrors(m, s))
      decreases s, 0
    {
      var a := RewriteExpr(s.start);
      var z := RewriteExpr(s.end);
      var k := RewriteOpt(s.step);
      var b := RewriteBlock(s.body);
      r := For(s.v, a, s.dir, z, k, b);
    }

    method RewriteMatch(s: Stmt) returns (r: Stmt)
      requires s.Match?
      modifies this
      ensures r == RwStmt(m, s) && Added(old(errors), StmtErrors(m, s))
      decreases s, 0
    {
      var e := RewriteExpr(s.scrutinee);
      var arms: seq<Arm> := [];
      for i := 0 to |s.arms|
        invariant |arms| == i && forall j :: 0 <= j < i ==> arms[j] == Arm(s.arms[j].patterns, RwBlock(m, s.arms[j].body))
        invariant errors + ArmErrors(m, s, i) == old(errors) + StmtErrors(m, s)
      {
        ghost var before := errors;
        var b := RewriteBlock(s.arms[i].body);
        arms := arms + [Arm(s.arms[i].patterns, b)];
        assert before + (BlockErrors(m, s.arms[i].body) + ArmErrors(m, s, i + 1)) == (before + BlockErrors(m, s.arms[i].body)) + ArmErrors(m, s, i + 1);
      }
      assert arms == RwArms(m, s.arms);
      r := Match(e, arms);
    }
  }
}
