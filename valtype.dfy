/** Type names written in declarations and parameters. */
module ValTypes {

  /** An identifier, which the lexer represents by the 64-bit hash of its text.
      The hash is never inspected, so an identifier is an opaque number. */
  type Id = nat

  /** `Type`: a named type, or a generic type applied to arguments. The parser
      only ever builds the named form. */
  datatype Type =
    | Ident(id: Id)
    | Generic(base: Type, args: seq<Type>)
}
