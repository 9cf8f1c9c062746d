/** Match-arm patterns. */
module Patterns {
  import opened Results
  import opened Spans
  import opened Objects
  import opened ValTypes
  import opened Exprs

  /** `_`, a literal (the parser only builds integer literals), or a type name. */
  datatype Pattern =
    | WildCard
    | Literal(literal: Literal)
    | TypeName(typeName: Type)

  /** `TryFrom<Expr>`: only a literal expression holding an Integer converts,
      to the literal pattern of that integer; everything else is refused. */
  function TryFromExpr(e: Expr): (r: Result<Pattern>)
    ensures r.Ok? <==> e.Literal? && e.literal.value.value.Integer?
    ensures r.Ok? ==> r.value.Literal? && Expr.Literal(r.value.literal) == e
    ensures r.Err? ==> r.error == CannotConvert
  {
    if e.Literal? then
      if e.literal.value.value.Integer? then Ok(Pattern.Literal(e.literal)) else Err(CannotConvert)
    else Err(CannotConvert)
  }
}
