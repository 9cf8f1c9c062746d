/** Operator and modifier tags, and function parameters. */
module Misc {
  import opened Results
  import opened Spans
  import opened ValTypes

  datatype BinaryOp =
    | Add | Sub | Mul | Div
    | GreaterThan | GreaterThanEqual | LessThan | LessThanEqual
    | Equal | NotEqual
    | And | Or

  datatype UnaryOp = Not | Neg

  /** `=`, `+=`, `-=`, `*=` and `/=`. */
  datatype AssignOp = Set | Add | Sub | Mul | Div

  /** `var` declares a mutable name, `let` an immutable one. */
  datatype DeclarationType = Mutable | Immutable

  /** `ref`, `val`, `in` and `out`; the parser never produces `Invalid`. */
  datatype ParamType = Reference | Value | Input | Output | Invalid

  /** `mut` and `const`; the parser never produces `Invalid`. */
  datatype ParamRestrictor = Mutable | Constant | Invalid

  /** One parameter of a function declaration: `ref x: mut T`. */
  datatype FuncParameter = FuncParameter(
    paramType: Spanned<ParamType>,
    paramValueName: Spanned<Id>,
    paramRestrictor: Option<Spanned<ParamRestrictor>>,
    paramValueType: Spanned<Type>)
}
