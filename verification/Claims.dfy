// Which statics a claim may name. The checker looks at the static's type, and
// recurses into the claim body with a table in which that type has lost its
// `Shared` wrapper.
module Claims {
  import opened Ast

  // Whether each static's type is wrapped as shared.
  type Table = map<string, bool>

  predicate IsShared(t: Table, x: string) { x in t && t[x] }

  // A copy of the table in which a shared static is its inner type.
  function WithClaimed(t: Table, x: string): Table {
    if IsShared(t, x) then t[x := false] else t
  }

  // No claim is refused: each names a static that is shared in the table it is
  // checked with.
  predicate ClaimsAccepted(b: Block, t: Table) {
    forall s <- b.stmts :: ClaimsAcceptedStmt(s, t)
  }

  predicate ClaimsAcceptedStmt(s: Stmt, t: Table) {
    match s
    case If(_, a, b) => ClaimsAccepted(a, t) && ClaimsAccepted(b, t)
    case Loop(b) => ClaimsAccepted(b, t)
    case While(_, b) => ClaimsAccepted(b, t)
    case For(_, _, _, _, _, b) => ClaimsAccepted(b, t)
    case Match(_, arms) => forall arm <- arms :: ClaimsAccepted(arm.body, t)
    case BlockStmt(b) => ClaimsAccepted(b, t)
    case Claim(x, b) => IsShared(t, x) && ClaimsAccepted(b, WithClaimed(t, x))
    case _ => true
  }

  // Every claim is of a shared static that no claim around it holds.
  predicate NoReclaim(b: Block, shared: set<string>, held: set<string>) {
    forall s <- b.stmts :: NoReclaimStmt(s, shared, held)
  }

  predicate NoReclaimStmt(s: Stmt, shared: set<string>, held: set<string>) {
    match s
    case If(_, a, b) => NoReclaim(a, shared, held) && NoReclaim(b, shared, held)
    case Loop(b) => NoReclaim(b, shared, held)
    case While(_, b) => NoReclaim(b, shared, held)
    case For(_, _, _, _, _, b) => NoReclaim(b, shared, held)
    case Match(_, arms) => forall arm <- arms :: NoReclaim(arm.body, shared, held)
    case BlockStmt(b) => NoReclaim(b, shared, held)
    case Claim(x, b) => x in shared && x !in held && NoReclaim(b, shared, held + {x})
    case _ => true
  }

  // The table says what is shared and not held.
  ghost predicate Tracks(t: Table, shared: set<string>, held: set<string>) {
    forall x :: IsShared(t, x) <==> x in shared && x !in held
  }

  // Losing the wrapper rules out exactly the re-claiming of a held static.
  lemma {:induction false} AcceptedMeansNoReclaim(b: Block, t: Table, shared: set<string>, held: set<string>)
    requires Tracks(t, shared, held)
    ensures ClaimsAccepted(b, t) <==> NoReclaim(b, shared, held)
    decreases b
  {
    forall i | 0 <= i < |b.stmts| ensures ClaimsAcceptedStmt(b.stmts[i], t) <==> NoReclaimStmt(b.stmts[i], shared, held) {
      StmtAccepted(b.stmts[i], t, shared, held);
    }
  }

  lemma {:induction false} StmtAccepted(s: Stmt, t: Table, shared: set<string>, held: set<string>)
    requires Tracks(t, shared, held)
    ensures ClaimsAcceptedStmt(s, t) <==> NoReclaimStmt(s, shared, held)
    decreases s
  {
    match s
    case If(_, a, b) => AcceptedMeansNoReclaim(a, t, shared, held); AcceptedMeansNoReclaim(b, t, shared, held);
    case Loop(b) => AcceptedMeansNoReclaim(b, t, shared, held);
    case While(_, b) => AcceptedMeansNoReclaim(b, t, shared, held);
    case For(_, _, _, _, _, b) => AcceptedMeansNoReclaim(b, t, shared, held);
    case Match(_, arms) =>
      forall i | 0 <= i < |arms| ensures ClaimsAccepted(arms[i].body, t) <==> NoReclaim(arms[i].body, shared, held) {
        AcceptedMeansNoReclaim(arms[i].body, t, shared, held);
      }
    case BlockStmt(b) => AcceptedMeansNoReclaim(b, t, shared, held);
    case Claim(x, b) => if IsShared(t, x) { AcceptedMeansNoReclaim(b, WithClaimed(t, x), shared, held + {x}); }
    case _ =>
  }
}
