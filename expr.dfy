/** Expressions. Every sub-expression carries the span it was parsed from,
    except the arguments of a call. There is no error expression: a failed
    parse is reported only at the statement level. The fields of the `Binary`
    and `Unary` records are the fields of the constructors of the same names. */
module Exprs {
  import opened Results
  import opened Spans
  import opened Objects
  import opened ValTypes
  import opened Misc

  datatype Literal = Literal(value: Spanned<Object>)

  datatype Expr =
    | Binary(left: Spanned<Expr>, operator: Spanned<BinaryOp>, right: Spanned<Expr>)
    | Unary(unaryOperator: Spanned<UnaryOp>, operand: Spanned<Expr>)
    | Literal(literal: Literal)
    | Variable(name: Spanned<Id>)
    | TenaryIfStmt(condition: Spanned<Expr>, value: Spanned<Expr>, elseValue: Spanned<Expr>)
    | FunctionCall(funcName: Spanned<Id>, arguments: Option<seq<Expr>>)
}
