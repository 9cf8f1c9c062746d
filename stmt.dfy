/** Statements. */
module Stmts {
  import opened Results
  import opened Spans
  import opened ValTypes
  import opened Misc
  import opened Exprs
  import opened Patterns

  /** The fields of the `Assign` and `MatchStmt` records are the fields of the
      constructors of the same names. A match keeps its arms in source order,
      and the span of the arm list (braces included) beside the list. */
  datatype Statement =
    | Error
    | Empty
    | Test(tested: Expr)
    | Assign(name: Spanned<Id>, operator: Spanned<AssignOp>, value: Spanned<Expr>)
    | Block(statements: seq<Spanned<Statement>>)
    | Expression(expr: Spanned<Expr>)
    | Declaration(
        declarationType: DeclarationType,
        name: Spanned<Id>,
        manualType: Option<Spanned<Type>>,
        value: Spanned<Expr>)
    | FuncDeclaration(
        name: Spanned<Id>,
        parameters: Option<seq<FuncParameter>>,
        returnType: Option<Spanned<Type>>,
        statements: seq<Spanned<Statement>>)
    | IfStmt(condition: Spanned<Expr>, thenBranch: Spanned<Statement>, elseBranch: Option<Spanned<Statement>>)
    | MatchStmt(matchPredicate: Spanned<Expr>, thenBranches: seq<(Pattern, Statement)>, branchesSpan: Span)
    | WhileStmt(condition: Spanned<Expr>, thenBranch: Spanned<Statement>)
    | Defer(deferedStatement: Spanned<Statement>)

  /** No `Error` statement occurs anywhere inside `s`. */
  predicate ErrorFree(s: Statement) {
    match s
    case Error => false
    case Block(ss) => forall i :: 0 <= i < |ss| ==> ErrorFree(ss[i].value)
    case FuncDeclaration(_, _, _, ss) => forall i :: 0 <= i < |ss| ==> ErrorFree(ss[i].value)
    case IfStmt(_, t, e) => ErrorFree(t.value) && (e.Some? ==> ErrorFree(e.value.value))
    case MatchStmt(_, arms, _) => forall i :: 0 <= i < |arms| ==> ErrorFree(arms[i].1)
    case WhileStmt(_, t) => ErrorFree(t.value)
    case Defer(d) => ErrorFree(d.value)
    case _ => true
  }
}
