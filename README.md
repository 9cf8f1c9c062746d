# scorpionest evaluation core in Dafny

This project models the part of the scorpionest interpreter that the
program's `run` function (`src/main.rs:46-53`) executes after scanning. The
lexer's tokens are parsed into a single `Statement` by the chumsky grammar in
`src/parser/parser.rs`. A fresh `Interperter` then evaluates that statement
with `stmt_eval`, defined in `src/interperter/interperter.rs`.

Modules, in dependency order:

- `Results`: the failures the pipeline can report. There is one
  `ErrorKind` per `anyhow!` message and one per panic that evaluation can
  reach: `todo!()`, 32-bit overflow and decimal division by zero. The two
  spellings "Not a Bool!" (`if`) and "Not a bool!" (`while`), which differ
  only in case, are merged as `NotABool`.
- `ValTypes` and `Misc`: identifiers, type names, and the operator and
  modifier tags.
- `Spans`: `Spanned<T>`, `concat_span` and the mapping helpers from
  `src/utils/spanned.rs`.
- `Objects`: runtime values from `src/utils/object.rs`.
  - The `Object` variants, their derived equality and ordering, and `Display`.
  - The four arithmetic operators, with 32-bit overflow made explicit.
  - `checked_div(..).unwrap_or(0)`, and truthiness coercion.
- `Exprs`, `Patterns` and `Stmts`: the syntax tree of `src/ast/`, with
  `TryFrom<Expr> for Pattern`.
- `Tokens`: the parser's input, with one constructor per token kind the
  grammar mentions.
- `Parser`: a recursive-descent function per chumsky parser, over
  `seq<Token>` and a position.
  - Ordered `choice` commits to its first successful alternative.
  - `repeated` and `separated_by` are greedy, and rewind an item that
    fails partway.
  - Each `map_with` span runs from the first consumed token's start to the
    last consumed token's end.
  - `parse` demands that the whole input is consumed.
- `ParserLemmas`: fold laws, first-token sets, and worked token sequences.
  These state associativity, precedence, right-folded prefixes, which
  statements take a `;`, and trailing commas.
- `Semantics`: the evaluator as functions of the variable map `vars` and
  the output log.
  - `Exec` is the meaning of `stmt_eval`.
  - A `fuel` bound makes `while` total.
- `SemanticsLemmas`: properties of `Exec`.
  - Error propagation, declaration and assignment rules, and loop
    behaviour.
  - Match arm selection and block composition.
  - A parsed statement never fails with `ErrorStatement`.
- `Interpreter`: the `Interperter` class.
  - Its `vars` map is a field, which the `*_eval` methods update in place.
  - `test` appends to an `output` field.
  - Every statement method, with its loops, is proved to reach exactly the
    state and result that `Semantics.Exec` gives.
- `Precedence`: the tree shape the binary parser builds, for every token
  sequence without `(`. Parentheses leave no trace in the tree, so this is
  the input on which the shape alone can show precedence.
- `Pipeline`: `run` from the tokens on. It also relates the tokens to the
  values they evaluate to.

The type files `src/ast/misc.rs`, `src/ast/pattern.rs` and
`src/utils/valtype.rs` disagree with their users. Where they disagree, the
model follows the parser and the interpreter:

- `AssignOp`, `BinaryOp`, `UnaryOp` and `FuncParameter` are reconstructed
  from the parser.
- `Pattern` has a `Literal(Literal)` case instead of `IntLiteral(i32)`.
- A parsed type name is `Type.Ident`.

## Model

| member | source | states |
|---|---|---|
| Spans.ConcatSpan | src/utils/spanned.rs:49-54 | the result starts at the smaller start and ends at the larger end of its two arguments |
| Spans.ConcatIsLeastCover | src/utils/spanned.rs:49-54 | `concat_span` covers both spans, and every span covering both covers it |
| Spans.ConcatCommutes | src/utils/spanned.rs:52 | `concat_span` is commutative |
| Spans.ConcatIdempotent | src/utils/spanned.rs:52 | `concat_span(s, s) == s` |
| Spans.ConcatAssociates | src/utils/spanned.rs:49-54 | `concat_span` is associative |
| Spans.Map | src/utils/spanned.rs:23-42 | `map_new`/`map_move`/`map_into` keep the span |
| Spans.MapFunctorLaws | src/utils/spanned.rs:23-46 | mapping the identity changes nothing; mapping `f` then `g` is mapping their composition; the payload is `f` of `get_value` |
| Spans.EqualityAndHash | src/utils/spanned.rs:5-14 | equal payloads with different spans are different values yet hash alike |
| Spans.CloneKeepsSpan | src/utils/spanned.rs:16-20 | `clone` keeps the span, and with an identity payload clone returns the same value |
| Spans.GetValue | src/utils/spanned.rs:44-46 | the payload is what, with the span, makes up the value |
| Spans.Hash | src/utils/spanned.rs:10-14 | the hash is the payload's hash, whatever the span |
| Spans.Clone | src/utils/spanned.rs:16-20 | a clone holds the payload's clone and the same span |
| Objects.Intern | src/utils/object.rs:35-38 | the interned handle resolves to the text interned |
| Objects.InternRoundTrip | src/utils/object.rs:35-38 | two texts intern to the same handle exactly when they are equal; interning a resolved handle gives it back |
| Objects.CheckedInteger | src/utils/object.rs:41 | succeeds exactly for a value in the 32-bit range, with an `Integer` whose numeric value is that value; otherwise an overflow failure |
| Objects.AddObjects | src/utils/object.rs:29-48 | String+String is the interned concatenation; Integer+Integer is the checked sum; a mixed or Float pair gives the `Float` sum; it fails with "Invalid operation arguments" exactly for the other pairings |
| Objects.SubObjectsAsWritten | src/utils/object.rs:51-64 | as the code is written: Integer-Integer is the checked difference; `Float(a) - b` is `a - b` for any number `b`; `Integer(i) - Float(f)` is `Float(f - i)`; it fails with "Invalid operation arguments" exactly when an operand is not a number |
| Objects.SubObjects | src/utils/object.rs:51-64 | Integer-Integer is the checked difference; a pair with a Float gives `Float(left - right)`; it fails exactly when an operand is not a number |
| Objects.MulObjects | src/utils/object.rs:66-79 | Integer*Integer is the checked product; a pair with a Float is a `Float`; it fails exactly when an operand is not a number |
| Objects.MulMixedIsProduct | src/utils/object.rs:72-75 | a pair with a Float multiplies to the product of the numeric values, in either order |
| Objects.TruncDiv | src/utils/object.rs:85-87 | the quotient's magnitude is the quotient of the magnitudes, and its sign is the product of the signs |
| Objects.TruncDivRemainder | src/utils/object.rs:85-87 | the remainder is smaller than the divisor and has the dividend's sign, so division truncates toward zero |
| Objects.CheckedDiv | src/utils/object.rs:86 | `checked_div` has no result exactly for a zero divisor or `i32::MIN / -1`, and otherwise gives the truncated quotient |
| Objects.QuotientInRange | src/utils/object.rs:86 | every other quotient fits in 32 bits |
| Objects.DivObjectsAsWritten | src/utils/object.rs:81-95 | as the code is written: Integer/Integer gives `Integer(0)` for a zero divisor or `MIN / -1` and otherwise the truncated quotient; `Float(a) / b` is the decimal quotient `a / b`; `Integer(i) / Float(f)` is `Float(f / i)` (its product with `i` is `f`), or a division-by-zero panic when `i == 0`; it fails with "Invalid operation arguments" exactly when an operand is not a number |
| Objects.DecimalDiv | src/utils/object.rs:89-91 | fails exactly on a zero divisor; otherwise the quotient times the divisor is the dividend |
| Objects.DivObjects | src/utils/object.rs:81-95 | Integer/Integer gives `Integer(0)` for a zero divisor or `MIN / -1` and otherwise the truncated quotient; a pair with a Float divides left by right, failing on a zero divisor; it fails with "Invalid operation arguments" exactly when an operand is not a number |
| Objects.MixedOperandOrderIgnored | src/utils/object.rs:54-91 | `1 - 0.5` and `2 / 0.5` give `-0.5` and `0.25` as written, and `0.5` and `4` corrected |
| Objects.AsWrittenMixedIsSymmetric | src/utils/object.rs:54-91 | as written, `Integer op Float` and `Float op Integer` always agree for `-` and `/` |
| Objects.CorrectedAgreesOutsideMixed | src/utils/object.rs:54-94 | the corrected operators differ from the written ones only for an `Integer` left and a `Float` right operand |
| Objects.NegObject | src/interperter/interperter.rs:33-37 | succeeds exactly on a number other than `i32::MIN`, keeping the variant and giving the arithmetic negation of its numeric value; `i32::MIN` overflows and a non-number fails with "Invalid value type" |
| Objects.NotObject | src/interperter/interperter.rs:38-44 | succeeds exactly on a Boolean, giving a Boolean of the opposite truthiness; otherwise "Invalid value type" |
| Objects.NegIsInvolution | src/interperter/interperter.rs:33-37 | negating twice gives the operand back whenever the first negation succeeds |
| Objects.NotIsInvolution | src/interperter/interperter.rs:38-44 | `not` twice gives a Boolean back |
| Objects.Truthy | src/utils/object.rs:97-103 | an object coerces to `true` exactly when it is `Boolean(true)` |
| Objects.CompareText | src/utils/object.rs:8 | the ordering of two texts is one of -1, 0 and 1 |
| Objects.Compare | src/utils/object.rs:8-15 | different variants order by declaration order String < Integer < Float < Boolean < NullValue; Integers and Floats order by value; two Booleans order `false < true` |
| Objects.CompareTextReflects | src/utils/object.rs:8 | text ordering is zero exactly for equal texts and is antisymmetric |
| Objects.CompareTextTransitive | src/utils/object.rs:8 | text ordering is transitive |
| Objects.CompareIsConsistentWithEquality | src/utils/object.rs:8-15 | the derived ordering is zero exactly for equal objects and is antisymmetric |
| Objects.CompareIsTransitive | src/utils/object.rs:8-15 | the derived ordering is transitive |
| Objects.IntegerIsNotFloat | src/utils/object.rs:8-15 | `Integer(i) != Float(i)`, and the Integer orders first |
| Objects.NatText | src/utils/object.rs:21 | decimal text is non-empty, digits only, without leading zeros |
| Objects.IntText | src/utils/object.rs:21 | a signed decimal text is a `-` or digit followed by digits |
| Objects.NatTextRoundTrip | src/utils/object.rs:21 | reading the decimal text of `n` gives `n` back |
| Objects.IntTextRoundTrip | src/utils/object.rs:21 | reading the signed decimal text of `i` gives `i` back |
| Objects.Display | src/utils/object.rs:17-26 | Booleans print as `true`/`false`, NullValue as `null`, a String as its resolved text, an Integer as decimal text that reads back as the integer |
| Patterns.TryFromExpr | src/ast/pattern.rs:12-24 | succeeds exactly on an integer literal, giving a literal pattern whose literal, put back as an expression, is the input; anything else fails with "Can't convert" |
| Parser.VarIdent | src/parser/parser.rs:523-527 | succeeds exactly at an identifier token, consuming that token alone |
| Parser.TypeIdent | src/parser/parser.rs:529-533 | succeeds exactly at an identifier token, consuming that token alone and giving a named type |
| Parser.Join | src/parser/parser.rs:83-141 | a fold step builds `Binary(lhs, op, rhs)`; a product spans from the left operand's start to the right operand's end, the other tiers span a cover of both operands; for operands in source order every tier spans the two operands exactly |
| Parser.Prefix | src/parser/parser.rs:158-167 | a prefix step builds `Unary(op, operand)` with a span covering both; for an operator before its operand the span runs from the operator's start to the operand's end |
| Parser.PrefixOps | src/parser/parser.rs:150-155 | takes the longest run of `not`/`-` tokens; entry `k` is the `k`-th token's operator (`not` is `Not`, `-` is `Neg`) with that token's span |
| Parser.ParseAtom | src/parser/parser.rs:172-194 | an atom consumes at least one token, and its last token is a literal, an identifier or `)` |
| Parser.ParseUnary | src/parser/parser.rs:146-170 | a unary expression consumes at least one token, and its last token is a literal, an identifier or `)` |
| Parser.ParseOperand | src/parser/parser.rs:73-129 | a tier's operand consumes at least one token, and its last token is a literal, an identifier or `)` |
| Parser.TierPairs | src/parser/parser.rs:75-130 | every operator collected by a tier belongs to that tier, and when pairs were consumed the last token is a literal, an identifier or `)` |
| Parser.ParseTier | src/parser/parser.rs:75-142 | a tier consumes at least one token, and its last token is a literal, an identifier or `)` |
| Parser.ParseBinary | src/parser/parser.rs:69-144 | a binary expression consumes at least one token, and its last token is a literal, an identifier or `)` |
| Parser.ParseFuncCall | src/parser/parser.rs:46-67 | a call consumes at least one token and ends with `)`, and its argument list is always present |
| Parser.ParseArgs | src/parser/parser.rs:54-57 | the argument list stays within the input |
| Parser.ArgsRest | src/parser/parser.rs:55 | the remaining arguments stay within the input |
| Parser.ParseTernary | src/parser/parser.rs:196-219 | a ternary consumes at least one token, and its last token is a literal, an identifier or `)` |
| Parser.TernaryBranches | src/parser/parser.rs:206-218 | the `: value else other` part builds a ternary keeping the condition already parsed, and ends as an expression does |
| Parser.ParseExpr | src/parser/parser.rs:35-44 | an expression consumes at least one token, and its last token is a literal, an identifier or `)` |
| Parser.ParsePattern | src/parser/parser.rs:503-509 | a pattern is exactly one token |
| Parser.ParseTest | src/parser/parser.rs:245-253 | a test statement consumes tokens, has no `Error` inside, is a `Test` node, and its last token is the required `;` |
| Parser.ParseAssign | src/parser/parser.rs:255-278 | an assignment consumes tokens, is an `Assign` with no `Error` inside, and its last token is not `;` |
| Parser.ParseExprStmt | src/parser/parser.rs:312-321 | an expression statement consumes tokens, is an `Expression` with no `Error` inside, and its last token is not `;` |
| Parser.ParseVarDecl | src/parser/parser.rs:323-348 | a declaration consumes tokens, is a `Declaration` with no `Error` inside, and its last token is the required `;` |
| Parser.DeclName | src/parser/parser.rs:334-347 | after `let` or `var`, the name, optional type, value and `;` form a declaration of the given kind, ending at the `;` |
| Parser.ManualType | src/parser/parser.rs:335 | the optional `: T` is present exactly when a `:` and an identifier follow, and then consumes those two tokens; otherwise it consumes nothing |
| Parser.DeclValue | src/parser/parser.rs:336-347 | `= value ;` completes the declaration with the given kind, name and type, ending at the `;` |
| Parser.ParseEmpty | src/parser/parser.rs:293-297 | the empty statement consumes its `;` |
| Parser.ParseStmt | src/parser/parser.rs:225-243 | a statement consumes tokens and never contains `Statement::Error` |
| Parser.ParseDefer | src/parser/parser.rs:280-291 | a defer statement consumes tokens and has no `Error` inside |
| Parser.StmtList | src/parser/parser.rs:303-307 | the statement list is empty exactly when nothing is consumed, and no statement in it is `Error` |
| Parser.ParseBlock | src/parser/parser.rs:299-310 | a block holds at least one statement |
| Parser.ParseIf | src/parser/parser.rs:350-378 | an `if` statement consumes tokens and has no `Error` inside |
| Parser.ParseWhile | src/parser/parser.rs:409-429 | a `while` statement consumes tokens and has no `Error` inside |
| Parser.ParseArm | src/parser/parser.rs:391-394 | an arm consumes tokens and its statement has no `Error` inside |
| Parser.ParseArms | src/parser/parser.rs:395-397 | the arms stay within the input and none holds `Error` |
| Parser.ArmsRest | src/parser/parser.rs:395-396 | the remaining arms stay within the input and none holds `Error` |
| Parser.ParseMatch | src/parser/parser.rs:380-407 | a match statement consumes tokens and has no `Error` inside |
| Parser.ParseParam | src/parser/parser.rs:431-458 | a parameter consumes at least one token |
| Parser.ParseParams | src/parser/parser.rs:467-469 | the parameter list stays within the input |
| Parser.ParamsRest | src/parser/parser.rs:468 | the remaining parameters stay within the input |
| Parser.ParseFunc | src/parser/parser.rs:460-493 | a function declaration consumes tokens, is a `FuncDeclaration` with no `Error` inside, and its body holds at least one statement |
| Parser.FuncTail | src/parser/parser.rs:476-492 | the optional `, Type` and the body complete the declaration, with at least one body statement |
| Parser.FuncBody | src/parser/parser.rs:477-492 | the braced body holds at least one statement, ends at `}`, and keeps the name and parameters parsed before it |
| Parser.Parse | src/parser/parser.rs:535-544 | the result is `Statement::Error` exactly when the tokens are not one statement, and otherwise contains no `Error` |
| Precedence.OpTier | src/parser/parser.rs:76-127 | each binary operator belongs to the tier whose operator list names it |
| Precedence.TieredRoot | src/parser/parser.rs:75-142 | at the root of a tier-shaped tree the left operand holds no looser operator and the right operand only strictly tighter ones |
| Precedence.AtomTiered | src/parser/parser.rs:176-188 | without `(`, an atom holds no binary operator |
| Precedence.FoldRightTiered | src/parser/parser.rs:156-168 | prefix operators over an operand without binary operators keep it so |
| Precedence.UnaryTiered | src/parser/parser.rs:146-170 | without `(`, a unary expression holds no binary operator |
| Precedence.OperandTiered | src/parser/parser.rs:73-129 | without `(`, an operand of a tier holds only operators of strictly tighter tiers |
| Precedence.PairsAreTiered | src/parser/parser.rs:75-130 | without `(`, every pair a tier collects has that tier's operator and a strictly tighter operand |
| Precedence.FoldLeftTiered | src/parser/parser.rs:83-141 | folding a tier's pairs to the left keeps the tree shaped for that tier |
| Precedence.TierTiered | src/parser/parser.rs:75-142 | without `(`, a tier builds a tree whose operators are no looser than that tier, grouped to the left |
| Precedence.BinaryPrecedence | src/parser/parser.rs:69-144 | for every token sequence without `(`, products bind tighter than sums, sums tighter than comparisons, every tier groups to the left, and a prefix operator applies to one atom |
| ParserLemmas.FoldLeftSnoc | src/parser/parser.rs:75-141 | folding one more pair onto a tier joins it to the fold of the earlier pairs, so operators group to the left |
| ParserLemmas.IdentTokenRoundTrip | src/parser/parser.rs:523-533 | the name or type an identifier token parses to carries that token's id and span, so the token can be rebuilt from it |
| ParserLemmas.ProductSpan | src/parser/parser.rs:84 | a product spans from its first operand's start to its last operand's end |
| ParserLemmas.FoldRightAppend | src/parser/parser.rs:155-168 | prefix operators fold right: the outer operators wrap the result of the inner ones |
| ParserLemmas.ExprFirstToken | src/parser/parser.rs:35-44 | an expression starts with a literal, an identifier, `(`, `if`, `not` or `-` |
| ParserLemmas.StmtFirstToken | src/parser/parser.rs:225-243 | a statement starts with a statement keyword, `{`, `;` or an expression's first token |
| ParserLemmas.OneTokenExpr | src/parser/parser.rs:69-144 | an atom that no operator or `(` follows is the whole expression |
| ParserLemmas.MinusChain | src/parser/parser.rs:96-115 | `a - b - c` parses as `(a - b) - c`, with `concat_span` spans |
| ParserLemmas.ProductBindsTighter | src/parser/parser.rs:75-115 | `a + b * c` parses as `a + (b * c)` |
| ParserLemmas.AssignTakesNoSemicolon | src/parser/parser.rs:255-278 | `x = 1` is an assignment, and `x = 1 ;` on its own is rejected |
| ParserLemmas.EmptyStmt | src/parser/parser.rs:293-297 | a lone `;` is the empty statement |
| ParserLemmas.AssignStmt | src/parser/parser.rs:255-278 | a name, an assignment operator and an operand form an `Assign` |
| ParserLemmas.BlockStmt | src/parser/parser.rs:228-240 | at `{` the statement parser is the block parser |
| ParserLemmas.StmtListCons | src/parser/parser.rs:303-307 | a statement list is its first spanned statement followed by the rest |
| ParserLemmas.StmtListNil | src/parser/parser.rs:303-307 | where no statement parses the list ends |
| ParserLemmas.EmptyThenEnd | src/parser/parser.rs:293-307 | a `;` before a token that opens no statement is a list of one empty statement, spanning the `;` |
| ParserLemmas.AssignAfterBrace | src/parser/parser.rs:255-278 | in `{ x = 1 ; }` the statement after `{` is the assignment `x = 1`, stopping before the `;` |
| ParserLemmas.EmptyBeforeBrace | src/parser/parser.rs:293-307 | in `{ x = 1 ; }` the statements from the `;` on are one empty statement |
| ParserLemmas.AssignThenEmpty | src/parser/parser.rs:299-310 | inside a block, `x = 1 ;` is an `Assign` followed by an `Empty` |
| ParserLemmas.BlockOfAssignAndEmpty | src/parser/parser.rs:299-310 | `{ x = 1 ; }` is a block of an `Assign` spanning `x = 1` and an `Empty` |
| ParserLemmas.CallIsNotAnOperand | src/parser/parser.rs:37-41 | in `f ( ) + 1` the call alternative wins and stops, so the input is rejected |
| ParserLemmas.ArmsKeepOrder | src/parser/parser.rs:395-397 | the arms collected so far stay first, in source order, and later arms follow them |
| ParserLemmas.TrailingCommaAfterArms | src/parser/parser.rs:395-396 | a trailing comma after the last match arm is consumed |
| ParserLemmas.CommaAfterArgsRewound | src/parser/parser.rs:54-57 | a comma after the last call argument is left unconsumed |
| ParserLemmas.NotNegFoldsRight | src/parser/parser.rs:150-169 | `not - x` is `not (- x)`, each node spanning from its operator to the operand's end |
| ParserLemmas.ParenthesesAreTransparent | src/parser/parser.rs:189-192 | a parenthesised expression is the inner expression |
| ParserLemmas.TestTakesSemicolon | src/parser/parser.rs:245-253 | `test 1 ;` is the test statement of the literal `1` |
| ParserLemmas.EmptyInputIsError | src/parser/parser.rs:535-544 | no tokens parse to `Statement::Error` |
| Semantics.EvalUnary | src/interperter/interperter.rs:29-46 | a unary operator fails only with "Invalid value type" or overflow |
| Semantics.EvalBinary | src/interperter/interperter.rs:48-67 | comparisons always succeed with a Boolean; arithmetic, through the operator impls as written, fails only with invalid arguments, overflow or decimal division by zero |
| Semantics.EvalExpr | src/interperter/interperter.rs:89-102 | an expression fails only with an expression-level failure |
| Semantics.ApplyAssign | src/interperter/interperter.rs:124-131 | `=` stores the right-hand side; `+=`, `-=`, `*=` and `/=` are `current + rhs`, `current - rhs`, `current * rhs` and `current / rhs` through the operator impls as written, the binary operator of the same name |
| Semantics.ExecAssign | src/interperter/interperter.rs:115-133 | assignment succeeds exactly when the value evaluates and the name is declared mutable and the operator applies; it then updates only that name, keeping it mutable; a failure changes nothing |
| Semantics.ExecDeclaration | src/interperter/interperter.rs:135-152 | an existing name fails first; success exactly for a fresh name whose value evaluates, inserting it with `var` as mutability; a failure changes nothing |
| Semantics.ExecTest | src/interperter/interperter.rs:230-234 | `test` appends the evaluated value to the output and changes no variable; a failure changes nothing |
| Semantics.TestLine | src/interperter/interperter.rs:232 | the printed line is `Test Output:` followed by the value's display |
| Semantics.Matches | src/interperter/interperter.rs:177-178 | only a literal pattern matches, and it matches exactly the value equal to its literal |
| Semantics.FirstMatch | src/interperter/interperter.rs:173-186 | finds the first arm whose literal pattern equals the value, and none exactly when no arm does |
| Semantics.Exec | src/interperter/interperter.rs:200-228 | running a statement only adds names, never changes mutability or an immutable value, and only extends the output |
| Semantics.ExecBlock | src/interperter/interperter.rs:108-113 | the same for the rest of a block |
| Semantics.ExecLoop | src/interperter/interperter.rs:188-198 | the same for the iterations of a loop |
| SemanticsLemmas.BinaryEvaluatesBoth | src/interperter/interperter.rs:48-50 | both operands are evaluated, left first; either one's failure is the result |
| SemanticsLemmas.AndOrTruthTables | src/interperter/interperter.rs:64-65 | `and`/`or` combine the truthiness of both operands and never fail |
| SemanticsLemmas.ComparisonDuality | src/interperter/interperter.rs:58-63 | `>` is flipped `<`, `>=` is flipped `<=`, `<=` is `<` or `==`, `<=` and `>=` together are `==`, and `!=` negates `==` |
| SemanticsLemmas.ReadVariable | src/interperter/interperter.rs:69-74 | a variable reads its stored value, and fails with "Variable doesn't exist" exactly when undeclared |
| SemanticsLemmas.TernaryEvaluatesOneBranch | src/interperter/interperter.rs:76-87 | a ternary's result is the chosen branch's, by truthiness, whatever the other branch is |
| SemanticsLemmas.DeclareThenRead | src/interperter/interperter.rs:142-151 | after a declaration the name reads back its value, and a second declaration fails |
| SemanticsLemmas.LetIsImmutable | src/interperter/interperter.rs:121-123 | assigning to a `let` name fails with "Variable is immutable" and changes nothing |
| SemanticsLemmas.VarIsMutable | src/interperter/interperter.rs:145-150 | assigning to a `var` name succeeds and stores the new value |
| SemanticsLemmas.FailedCompoundKeepsValue | src/interperter/interperter.rs:125-129 | a compound assignment whose operator fails keeps the old value |
| SemanticsLemmas.WhileEndsOnNonBoolean | src/interperter/interperter.rs:188-198 | a later non-Boolean condition ends a loop without error, whereas `if` on it fails with "Not a Bool" |
| SemanticsLemmas.EndlessLoopRunsOutOfFuel | src/interperter/interperter.rs:190-193 | `while true { ; }` ends with `OutOfFuel` in the state it started in, whatever the fuel |
| SemanticsLemmas.EndlessLoopSpendsFuel | src/interperter/interperter.rs:190-193 | the same for any loop whose condition is the literal `true` and whose body is empty |
| SemanticsLemmas.NonLiteralArmsNeverRun | src/interperter/interperter.rs:173-186 | wildcard and type-name arms never run, and no matching arm is a no-op |
| SemanticsLemmas.FirstEqualArmWins | src/interperter/interperter.rs:176-182 | of two equal literal arms only the first runs |
| SemanticsLemmas.ConvertedPatternMatches | src/ast/pattern.rs:12-24 | a pattern converted from an expression matches that expression's value |
| SemanticsLemmas.IntegerPatternMissesFloat | src/interperter/interperter.rs:178 | an integer pattern does not match the equal Float |
| SemanticsLemmas.ExecBlockSuffix | src/interperter/interperter.rs:108-113 | running the rest of a block depends only on the statements left |
| SemanticsLemmas.BlockConcat | src/interperter/interperter.rs:108-113 | a block of `a + b` runs `a`, then `b` only if `a` succeeded, keeping `a`'s effects on failure |
| SemanticsLemmas.BlockConcatFrom | src/interperter/interperter.rs:108-113 | the same from any position in `a` |
| SemanticsLemmas.ErrorFreeNeverFailsAsError | src/interperter/interperter.rs:200-228 | a statement with no `Error` inside never fails with "Error statement" |
| SemanticsLemmas.BlockErrorFree | src/interperter/interperter.rs:108-113 | the same for the rest of a block |
| SemanticsLemmas.LoopErrorFree | src/interperter/interperter.rs:188-198 | the same for the iterations of a loop |
| Interpreter.Interperter.constructor | src/interperter/interperter.rs:21-27 | a new interpreter has no variables and has printed nothing |
| Interpreter.Interperter.BlockEval | src/interperter/interperter.rs:108-113 | the loop leaves the fields and result that `Exec` gives the block |
| Interpreter.Interperter.AssignEval | src/interperter/interperter.rs:115-133 | the fields and result are those of `ExecAssign` |
| Interpreter.Interperter.DeclarEval | src/interperter/interperter.rs:135-152 | the fields and result are those of `ExecDeclaration` |
| Interpreter.Interperter.IfEval | src/interperter/interperter.rs:154-171 | the fields and result are those `Exec` gives the `if` |
| Interpreter.Interperter.MatchEval | src/interperter/interperter.rs:173-186 | the loop with `found` and `break` leaves the fields and result that `Exec` gives the match |
| Interpreter.Interperter.WhileEval | src/interperter/interperter.rs:188-198 | the loop leaves the fields and result that `Exec` gives the `while` |
| Interpreter.Interperter.TestEval | src/interperter/interperter.rs:230-234 | the fields and result are those of `ExecTest` |
| Interpreter.Interperter.StmtEval | src/interperter/interperter.rs:200-228 | the fields and result are those `Exec` gives the statement |
| Pipeline.Run | src/main.rs:46-53 | the result and printed values are `Exec`'s on the parsed statement from an empty interpreter; it fails with "Error statement" exactly when the tokens are not one statement, and then prints nothing |
| Pipeline.LiteralTokenEvaluates | src/parser/parser.rs:176-186 | a literal token is a one-token atom evaluating to the value it stands for, a string to its own text |
| Pipeline.IdentifierTokenReads | src/parser/parser.rs:187 | an identifier token is a one-token atom reading its variable |
| Pipeline.PatternTokenMatches | src/parser/parser.rs:503-509 | only `_`, a number and an identifier are patterns, and only a number's pattern matches, exactly the equal Integer |

## Left out

- Scanning: the logos lexer and the identifier hashing are not part of this model. The tokens are an input sequence, and an identifier is an opaque number.
- `main`: argument handling, file reading and the prompt are I/O, and are not modelled.
- Console output: what `println!` writes is not modelled.
  - `test` appends the evaluated value to the interpreter's `output` field; `Semantics.TestLine` gives the text it would print.
  - The debug print of parse errors in `parse` and chumsky's error reports are dropped.
- Stream construction: `get_stream` is not modelled. It only adapts the token vector into a chumsky stream.
- Decimal arithmetic: `Float` holds the exact rational a `Decimal` denotes. Addition, subtraction, multiplication and division are exact.
  - rust_decimal's 28-digit rounding is not modelled.
  - Its overflow panics are not modelled.
  - A division by zero is modelled, as the `DecimalDivisionByZero` failure.
- Float literals: `Decimal::from_f32(f).unwrap()` is not modelled. A `FloatingNumber` token carries the decimal it denotes.
- Decimal scale: a `Decimal` also carries a scale, the number of digits after the point including trailing zeros. `+` and `-` keep the larger scale of their operands and `*` adds the scales. The model keeps only the value, so `1.5 + 0.5` (printed `2.0`) and `1.5 * 1.5 - 0.25` (printed `2.00`) are both `Float(2.0)`. A Float's printed text is therefore not determined by the model's value. Equality and order are unaffected, because rust_decimal compares values and ignores the scale.
- Float display: `Objects.Display` and `Semantics.TestLine` take the printed text of a Float as a parameter, because rust_decimal's formatting is foreign code and depends on the scale the model does not keep. For Floats they do not predict the printed text.
- `Objects.Compare`: orders two Strings by their text, not by the interner's key order, which depends on interning history.
- Interning: the global interner is a mapping from text to handle with its inverse `Resolve`. Its thread safety and allocation are not modelled.
- `todo!()`: a function call expression, an expression statement, a function declaration and `defer` all panic when evaluated. They are modelled as the `Unimplemented` failure.
- i32 panics: overflow in `+ - *` and in negation is a debug-build panic. It is modelled as the `IntegerOverflow` failure; release-build wrap-around is not modelled.
- `while` termination: the loop need not terminate, so `Exec` and the interpreter's methods take a `fuel` bound. Each iteration spends one unit, and a loop that needs more fuel than it has ends with `OutOfFuel`. A run that would take longer than any fuel is not distinguished from one that never ends.
- Match arm span: `then_branches` is a `Spanned<Vec<_>>` in the source. The model stores the arms and their span as two fields of `MatchStmt`.
- Patterns.TryFromExpr: keeps the literal's span inside the pattern. The model's `Pattern` case holds a whole `Literal`, as the parser and the interpreter use it, so the conversion does not drop the span.
- Objects.MulObjects: states the result of a mixed or Float pair only as being a `Float`. Its value is given by `Objects.MulMixedIsProduct`.
- `Type::Generic`: declared but never built by the parser, so no member produces it.
- `Interperter` derives `Debug` and `Clone`; neither is modelled.

## Findings

The evaluator, the interpreter and `Pipeline.Run` use the operators as written, as the program runs them. The corrected members state the evidently intended order and are used nowhere else.

| source | as written | input that shows it | evidently intended | confidence | as-written member | corrected member |
|---|---|---|---|---|---|---|
| src/utils/object.rs:57-59 | the or-pattern binds `i` and `f` the same way for both operand orders, so `Integer(i) - Float(f)` computes `f - i` | `Integer(1) - Float(0.5)` gives `Float(-0.5)` | `Float(1 - 0.5)`, that is `Float(0.5)` | not executed | Objects.SubObjectsAsWritten | Objects.SubObjects |
| src/utils/object.rs:88-90 | the or-pattern binds `i` and `f` the same way for both operand orders, so `Integer(i) / Float(f)` computes `f / i` | `Integer(2) / Float(0.5)` gives `Float(0.25)` | `Float(2 / 0.5)`, that is `Float(4)` | not executed | Objects.DivObjectsAsWritten | Objects.DivObjects |
