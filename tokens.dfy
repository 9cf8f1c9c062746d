/** The lexer's tokens, which are the parser's input. */
module Tokens {
  import opened Spans
  import opened Objects
  import opened ValTypes

  datatype TokenType =
    // keywords
    | Test | Defer | Function | If | Else | Match | While | Let | Var
    | Ref | Val | In | Out | Mutable | Const
    | And | Or | Not | True | False | Null
    // operators
    | Plus | Minus | Times | Div
    | Assign | PlusAssign | MinusAssign | TimesAssign | DivAssign
    | Equal | NotEqual | GreaterThan | GreaterThanEqual | LessThan | LessThanEqual
    // punctuation
    | LeftParenthesis | RightParenthesis | LeftBracket | RightBracket
    | SemiColon | Colon | Comma | FatArrow | WildCard
    // tokens with a payload; a floating literal carries the decimal it denotes
    | StringLiteral(text: string)
    | CharLiteral(c: char)
    | Number(n: I32)
    | FloatingNumber(f: real)
    | Identifier(id: Id)

  datatype Token = Token(kind: TokenType, span: Span)
}
