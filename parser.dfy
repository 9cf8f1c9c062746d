/** The grammar, as a recursive-descent parser over the token sequence.

    Every parser takes the tokens and a position and either fails (`None`) or
    returns the node it built and the position of the first token it did not
    consume. Ordered choice tries its alternatives in source order and takes
    the first that succeeds; a failed alternative consumes nothing. A
    repetition is greedy and stops, consuming nothing more, at the first item
    that fails. The span attached to a region is the span from the start of
    its first token to the end of its last token, as `map_with` gives it. */
module Parser {
  import opened Results
  import opened Spans
  import opened Objects
  import opened ValTypes
  import opened Misc
  import opened Exprs
  import opened Patterns
  import opened Stmts
  import opened Tokens

  /** A successful parse: the node and the position of the first unconsumed token. */
  datatype Parsed<T> = Parsed(node: T, next: nat)

  predicate At(toks: seq<Token>, pos: nat, k: TokenType) {
    pos < |toks| && toks[pos].kind == k
  }

  /** The span of the tokens `from .. to - 1`. */
  function SpanOf(toks: seq<Token>, from: nat, to: nat): (s: Span)
    requires from < to <= |toks|
    ensures s.start == toks[from].span.start && s.end == toks[to - 1].span.end
  {
    Span(toks[from].span.start, toks[to - 1].span.end)
  }

  /** `map_with(|x, e| Spanned(x, e.span()))` on a parser that started at `from`. */
  function Spanning<T>(toks: seq<Token>, from: nat, p: Parsed<T>): (r: Parsed<Spanned<T>>)
    requires from < p.next <= |toks|
    ensures r.node.value == p.node && r.next == p.next
    ensures r.node.span == SpanOf(toks, from, p.next)
  {
    Parsed(Spanned(p.node, SpanOf(toks, from, p.next)), p.next)
  }

  function LiteralExpr(o: Object, span: Span): Expr {
    Expr.Literal(Literal.Literal(Spanned(o, span)))
  }

  //---------------------------------------------------------------------------
  // Identifiers: `var_ident` and `type_ident`
  //---------------------------------------------------------------------------

  /** An identifier token, as a spanned identifier; `IdentTokenRoundTrip`
      shows the node rebuilds the token it was read from. */
  function VarIdent(toks: seq<Token>, pos: nat): (r: Option<Parsed<Spanned<Id>>>)
    ensures r.Some? <==> pos < |toks| && toks[pos].kind.Identifier?
    ensures r.Some? ==> r.value.next == pos + 1
  {
    if pos < |toks| && toks[pos].kind.Identifier? then
      Some(Parsed(Spanned(toks[pos].kind.id, toks[pos].span), pos + 1))
    else
      None
  }

  /** An identifier token read as a named type. */
  function TypeIdent(toks: seq<Token>, pos: nat): (r: Option<Parsed<Spanned<Type>>>)
    ensures r.Some? <==> pos < |toks| && toks[pos].kind.Identifier?
    ensures r.Some? ==> r.value.next == pos + 1 && r.value.node.value.Ident?
  {
    if pos < |toks| && toks[pos].kind.Identifier? then
      Some(Parsed(Spanned(Type.Ident(toks[pos].kind.id), toks[pos].span), pos + 1))
    else
      None
  }

  //---------------------------------------------------------------------------
  // Expressions
  //---------------------------------------------------------------------------

  /** The three left-folded binary tiers, tightest first. */
  datatype Tier = Product | Sum | Comparison

  function TierIndex(tier: Tier): nat {
    match tier
    case Product => 0
    case Sum => 1
    case Comparison => 2
  }

  /** The operator a token denotes in a tier, if any. */
  function TierOp(tier: Tier, k: TokenType): Option<BinaryOp> {
    match tier
    case Product =>
      (match k
       case Times => Some(BinaryOp.Mul)
       case Div => Some(BinaryOp.Div)
       case _ => None)
    case Sum =>
      (match k
       case Plus => Some(BinaryOp.Add)
       case Minus => Some(BinaryOp.Sub)
       case _ => None)
    case Comparison =>
      (match k
       case GreaterThan => Some(BinaryOp.GreaterThan)
       case GreaterThanEqual => Some(BinaryOp.GreaterThanEqual)
       case LessThan => Some(BinaryOp.LessThan)
       case LessThanEqual => Some(BinaryOp.LessThanEqual)
       case Equal => Some(BinaryOp.Equal)
       case NotEqual => Some(BinaryOp.NotEqual)
       case And => Some(BinaryOp.And)
       case Or => Some(BinaryOp.Or)
       case _ => None)
  }

  /** The operators of a tier, as a set. */
  function TierOps(tier: Tier): set<BinaryOp> {
    match tier
    case Product => {BinaryOp.Mul, BinaryOp.Div}
    case Sum => {BinaryOp.Add, BinaryOp.Sub}
    case Comparison =>
      {BinaryOp.GreaterThan, BinaryOp.GreaterThanEqual, BinaryOp.LessThan, BinaryOp.LessThanEqual,
       BinaryOp.Equal, BinaryOp.NotEqual, BinaryOp.And, BinaryOp.Or}
  }

  /** The span of a node built by a tier: the first operand's start to the last
      operand's end for products, `concat_span` of the operands elsewhere. */
  function JoinSpan(tier: Tier, l: Span, r: Span): Span {
    if tier == Product then Span(l.start, r.end) else ConcatSpan(l, r)
  }

  /** The node the fold builds from an operand and one (operator, operand) pair.
      Outside products the span covers both operands; when the operands come
      in source order, every tier gives the span from the left operand's start
      to the right operand's end. */
  function Join(tier: Tier, lhs: Spanned<Expr>, op: Spanned<BinaryOp>, rhs: Spanned<Expr>): (r: Spanned<Expr>)
    ensures r.value == Expr.Binary(lhs, op, rhs)
    ensures tier != Product ==> Covers(r.span, lhs.span) && Covers(r.span, rhs.span)
    ensures tier == Product ==> r.span.start == lhs.span.start && r.span.end == rhs.span.end
    ensures lhs.span.start <= rhs.span.start && lhs.span.end <= rhs.span.end ==>
      r.span == Span(lhs.span.start, rhs.span.end)
  {
    Spanned(Expr.Binary(lhs, op, rhs), JoinSpan(tier, lhs.span, rhs.span))
  }

  /** `foldl` over the collected (operator, operand) pairs. */
  function FoldLeft(tier: Tier, lhs: Spanned<Expr>, pairs: seq<(Spanned<BinaryOp>, Spanned<Expr>)>): Spanned<Expr>
    decreases |pairs|
  {
    if pairs == [] then lhs else FoldLeft(tier, Join(tier, lhs, pairs[0].0, pairs[0].1), pairs[1..])
  }

  /** The prefix operator a token denotes, if any. */
  function PrefixOp(k: TokenType): Option<UnaryOp> {
    match k
    case Not => Some(UnaryOp.Not)
    case Minus => Some(UnaryOp.Neg)
    case _ => None
  }

  /** The node `foldr` builds from one prefix operator and its operand. */
  function Prefix(op: Spanned<UnaryOp>, operand: Spanned<Expr>): (r: Spanned<Expr>)
    ensures r.value == Expr.Unary(op, operand)
    ensures Covers(r.span, op.span) && Covers(r.span, operand.span)
    ensures op.span.start <= operand.span.start && op.span.end <= operand.span.end ==>
      r.span == Span(op.span.start, operand.span.end)
  {
    Spanned(Expr.Unary(op, operand), ConcatSpan(op.span, operand.span))
  }

  /** `foldr` of the prefix operators over the operand. */
  function FoldRight(ops: seq<Spanned<UnaryOp>>, operand: Spanned<Expr>): Spanned<Expr>
    decreases |ops|
  {
    if ops == [] then operand else Prefix(ops[0], FoldRight(ops[1..], operand))
  }

  /** The greedy repetition of prefix operators: entry `k` is the operator
      of the `k`-th token (`not` is `Not`, `-` is `Neg`) with that token's span. */
  function PrefixOps(toks: seq<Token>, pos: nat): (r: Parsed<seq<Spanned<UnaryOp>>>)
    requires pos <= |toks|
    ensures pos + |r.node| == r.next <= |toks|
    ensures forall k :: pos <= k < r.next ==> PrefixOp(toks[k].kind).Some?
    ensures r.next < |toks| ==> PrefixOp(toks[r.next].kind).None?
    ensures forall k :: 0 <= k < |r.node| ==>
      r.node[k] == Spanned(PrefixOp(toks[pos + k].kind).value, toks[pos + k].span)
    decreases |toks| - pos
  {
    if pos < |toks| && PrefixOp(toks[pos].kind).Some? then
      var rest := PrefixOps(toks, pos + 1);
      Parsed([Spanned(PrefixOp(toks[pos].kind).value, toks[pos].span)] + rest.node, rest.next)
    else
      Parsed([], pos)
  }

  /** The tokens an expression can end with: a literal, a name or `)`. */
  predicate EndsExpr(k: TokenType) {
    k.True? || k.False? || k.Null? || k.StringLiteral? || k.CharLiteral? || k.Number?
    || k.FloatingNumber? || k.Identifier? || k.RightParenthesis?
  }

  /** `atom_parser`: a literal, a variable, or a parenthesised expression. */
  function ParseAtom(toks: seq<Token>, pos: nat): (r: Option<Parsed<Expr>>)
    requires pos <= |toks|
    ensures r.Some? ==> pos < r.value.next <= |toks|
    ensures r.Some? ==> EndsExpr(toks[r.value.next - 1].kind)
    decreases |toks| - pos, 2
  {
    if pos == |toks| then None
    else
      var t := toks[pos];
      match t.kind
      case True => Some(Parsed(LiteralExpr(Boolean(true), t.span), pos + 1))
      case False => Some(Parsed(LiteralExpr(Boolean(false), t.span), pos + 1))
      case Null => Some(Parsed(LiteralExpr(NullValue, t.span), pos + 1))
      case StringLiteral(s) => Some(Parsed(LiteralExpr(String(Intern(s)), t.span), pos + 1))
      case CharLiteral(c) => Some(Parsed(LiteralExpr(Integer(c as int), t.span), pos + 1))
      case Number(i) => Some(Parsed(LiteralExpr(Integer(i), t.span), pos + 1))
      case FloatingNumber(f) => Some(Parsed(LiteralExpr(Float(f), t.span), pos + 1))
      case Identifier(i) => Some(Parsed(Expr.Variable(Spanned(i, t.span)), pos + 1))
      case LeftParenthesis =>
        var inner := ParseExpr(toks, pos + 1);
        if inner.Some? && At(toks, inner.value.next, RightParenthesis) then
          Some(Parsed(inner.value.node, inner.value.next + 1))
        else
          None
      case _ => None
  }

  /** `unary_parser`: the prefix operators folded right over a spanned atom. */
  function ParseUnary(toks: seq<Token>, pos: nat): (r: Option<Parsed<Spanned<Expr>>>)
    requires pos <= |toks|
    ensures r.Some? ==> pos < r.value.next <= |toks|
    ensures r.Some? ==> EndsExpr(toks[r.value.next - 1].kind)
    decreases |toks| - pos, 3
  {
    var ops := PrefixOps(toks, pos);
    var atom := ParseAtom(toks, ops.next);
    if atom.None? then None
    else Some(Parsed(FoldRight(ops.node, Spanning(toks, ops.next, atom.value).node), atom.value.next))
  }

  /** One operand of a tier: a spanned unary expression for products, the
      next tighter tier otherwise. */
  function ParseOperand(toks: seq<Token>, pos: nat, tier: Tier): (r: Option<Parsed<Spanned<Expr>>>)
    requires pos <= |toks|
    ensures r.Some? ==> pos < r.value.next <= |toks|
    ensures r.Some? ==> EndsExpr(toks[r.value.next - 1].kind)
    decreases |toks| - pos, 4 + 2 * TierIndex(tier)
  {
    match tier
    case Product =>
      var u := ParseUnary(toks, pos);
      if u.None? then None else Some(Spanning(toks, pos, Parsed(u.value.node.value, u.value.next)))
    case Sum => ParseTier(toks, pos, Product)
    case Comparison => ParseTier(toks, pos, Sum)
  }

  /** The greedy repetition of (operator, operand) pairs of a tier. */
  function TierPairs(toks: seq<Token>, pos: nat, tier: Tier): (r: Parsed<seq<(Spanned<BinaryOp>, Spanned<Expr>)>>)
    requires pos <= |toks|
    ensures pos <= r.next <= |toks|
    ensures forall k :: 0 <= k < |r.node| ==> r.node[k].0.value in TierOps(tier)
    ensures r.next > pos ==> EndsExpr(toks[r.next - 1].kind)
    decreases |toks| - pos, 0
  {
    if pos < |toks| && TierOp(tier, toks[pos].kind).Some? then
      var op := Spanned(TierOp(tier, toks[pos].kind).value, toks[pos].span);
      var rhs := ParseOperand(toks, pos + 1, tier);
      if rhs.None? then Parsed([], pos)
      else
        var rest := TierPairs(toks, rhs.value.next, tier);
        Parsed([(op, rhs.value.node)] + rest.node, rest.next)
    else
      Parsed([], pos)
  }

  /** A tier: an operand, then its pairs, folded left. */
  function ParseTier(toks: seq<Token>, pos: nat, tier: Tier): (r: Option<Parsed<Spanned<Expr>>>)
    requires pos <= |toks|
    ensures r.Some? ==> pos < r.value.next <= |toks|
    ensures r.Some? ==> EndsExpr(toks[r.value.next - 1].kind)
    decreases |toks| - pos, 5 + 2 * TierIndex(tier)
  {
    var first := ParseOperand(toks, pos, tier);
    if first.None? then None
    else
      var pairs := TierPairs(toks, first.value.next, tier);
      Some(Parsed(FoldLeft(tier, first.value.node, pairs.node), pairs.next))
  }

  /** `binary_parser`: the comparison tier, without its outer span. */
  function ParseBinary(toks: seq<Token>, pos: nat): (r: Option<Parsed<Expr>>)
    requires pos <= |toks|
    ensures r.Some? ==> pos < r.value.next <= |toks|
    ensures r.Some? ==> EndsExpr(toks[r.value.next - 1].kind)
    decreases |toks| - pos, 10
  {
    var c := ParseTier(toks, pos, Comparison);
    if c.None? then None else Some(Parsed(c.value.node.value, c.value.next))
  }

  /** `func_call_parser`: a name and a parenthesised, comma-separated argument
      list. The optional list always succeeds (possibly empty), so a parsed
      call always has `Some` arguments. */
  function ParseFuncCall(toks: seq<Token>, pos: nat): (r: Option<Parsed<Expr>>)
    requires pos <= |toks|
    ensures r.Some? ==> pos < r.value.next <= |toks|
    ensures r.Some? ==> r.value.node.FunctionCall? && r.value.node.arguments.Some?
    ensures r.Some? ==> toks[r.value.next - 1].kind == RightParenthesis
    decreases |toks| - pos, 11
  {
    var name := VarIdent(toks, pos);
    if name.None? || !At(toks, pos + 1, LeftParenthesis) then None
    else
      var args := ParseArgs(toks, pos + 2);
      if At(toks, args.next, RightParenthesis) then
        Some(Parsed(Expr.FunctionCall(name.value.node, Some(args.node)), args.next + 1))
      else
        None
  }

  /** Zero or more expressions separated by commas, without a trailing comma. */
  function ParseArgs(toks: seq<Token>, pos: nat): (r: Parsed<seq<Expr>>)
    requires pos <= |toks|
    ensures pos <= r.next <= |toks|
    decreases |toks| - pos, 13
  {
    var first := ParseExpr(toks, pos);
    if first.None? then Parsed([], pos) else ArgsRest(toks, first.value.next, [first.value.node])
  }

  function ArgsRest(toks: seq<Token>, pos: nat, acc: seq<Expr>): (r: Parsed<seq<Expr>>)
    requires pos <= |toks|
    ensures pos <= r.next <= |toks|
    decreases |toks| - pos, 0
  {
    if At(toks, pos, Comma) then
      var e := ParseExpr(toks, pos + 1);
      if e.None? then Parsed(acc, pos) else ArgsRest(toks, e.value.next, acc + [e.value.node])
    else
      Parsed(acc, pos)
  }

  /** `tenary_if_parser`: `if c : v else e`. */
  function ParseTernary(toks: seq<Token>, pos: nat): (r: Option<Parsed<Expr>>)
    requires pos <= |toks|
    ensures r.Some? ==> pos < r.value.next <= |toks|
    ensures r.Some? ==> EndsExpr(toks[r.value.next - 1].kind)
    decreases |toks| - pos, 11
  {
    if !At(toks, pos, If) then None
    else
      var c := ParseExpr(toks, pos + 1);
      if c.None? then None
      else TernaryBranches(toks, c.value.next, Spanning(toks, pos + 1, c.value).node)
  }

  /** The branches of a ternary after `if c`: `: v else e`. */
  function TernaryBranches(toks: seq<Token>, pos: nat, condition: Spanned<Expr>): (r: Option<Parsed<Expr>>)
    requires pos <= |toks|
    ensures r.Some? ==> pos < r.value.next <= |toks|
    ensures r.Some? ==> EndsExpr(toks[r.value.next - 1].kind)
    ensures r.Some? ==> r.value.node.TenaryIfStmt? && r.value.node.condition == condition
    decreases |toks| - pos, 13
  {
    var v := if At(toks, pos, Colon) then ParseExpr(toks, pos + 1) else None;
    if v.None? || !At(toks, v.value.next, Else) then None
    else
      var e := ParseExpr(toks, v.value.next + 1);
      if e.None? then None
      else
        Some(Parsed(
          Expr.TenaryIfStmt(condition, Spanning(toks, pos + 1, v.value).node, Spanning(toks, v.value.next + 1, e.value).node),
          e.value.next))
  }

  /** `recursive_expr_parser`: a call, else a ternary, else a binary expression. */
  function ParseExpr(toks: seq<Token>, pos: nat): (r: Option<Parsed<Expr>>)
    requires pos <= |toks|
    ensures r.Some? ==> pos < r.value.next <= |toks|
    ensures r.Some? ==> EndsExpr(toks[r.value.next - 1].kind)
    decreases |toks| - pos, 12
  {
    var call := ParseFuncCall(toks, pos);
    if call.Some? then call
    else
      var ternary := ParseTernary(toks, pos);
      if ternary.Some? then ternary else ParseBinary(toks, pos)
  }

  //---------------------------------------------------------------------------
  // Patterns
  //---------------------------------------------------------------------------

  /** `atom_pattern_parser`: `_`, an integer, or a type name. */
  function ParsePattern(toks: seq<Token>, pos: nat): (r: Option<Parsed<Pattern>>)
    ensures r.Some? ==> r.value.next == pos + 1 <= |toks|
  {
    if pos >= |toks| then None
    else
      match toks[pos].kind
      case WildCard => Some(Parsed(Pattern.WildCard, pos + 1))
      case Number(i) => Some(Parsed(Pattern.Literal(Literal.Literal(Spanned(Integer(i), toks[pos].span))), pos + 1))
      case Identifier(i) => Some(Parsed(Pattern.TypeName(Type.Ident(i)), pos + 1))
      case _ => None
  }

  //---------------------------------------------------------------------------
  // Statements
  //---------------------------------------------------------------------------

  /** `test_parser`: `test e ;`. */
  function ParseTest(toks: seq<Token>, pos: nat): (r: Option<Parsed<Statement>>)
    requires pos <= |toks|
    ensures r.Some? ==> pos < r.value.next <= |toks| && ErrorFree(r.value.node)
    ensures r.Some? ==> r.value.node.Test? && toks[r.value.next - 1].kind.SemiColon?
  {
    if !At(toks, pos, TokenType.Test) then None
    else
      var e := ParseExpr(toks, pos + 1);
      if e.Some? && At(toks, e.value.next, SemiColon) then
        Some(Parsed(Statement.Test(e.value.node), e.value.next + 1))
      else
        None
  }

  function AssignOpOf(k: TokenType): Option<AssignOp> {
    match k
    case Assign => Some(AssignOp.Set)
    case PlusAssign => Some(AssignOp.Add)
    case MinusAssign => Some(AssignOp.Sub)
    case TimesAssign => Some(AssignOp.Mul)
    case DivAssign => Some(AssignOp.Div)
    case _ => None
  }

  /** `assign_parser`: `x op e`, without a trailing `;`: the last token taken
      ends the expression, so it is never a `;`. */
  function ParseAssign(toks: seq<Token>, pos: nat): (r: Option<Parsed<Statement>>)
    requires pos <= |toks|
    ensures r.Some? ==> pos < r.value.next <= |toks| && ErrorFree(r.value.node)
    ensures r.Some? ==> r.value.node.Assign? && toks[r.value.next - 1].kind != SemiColon
  {
    var name := VarIdent(toks, pos);
    if name.None? || pos + 1 >= |toks| || AssignOpOf(toks[pos + 1].kind).None? then None
    else
      var op := Spanned(AssignOpOf(toks[pos + 1].kind).value, toks[pos + 1].span);
      var e := ParseExpr(toks, pos + 2);
      if e.None? then None
      else Some(Parsed(Statement.Assign(name.value.node, op, Spanning(toks, pos + 2, e.value).node), e.value.next))
  }

  /** `statment_expr_parser`: a bare expression, without a trailing `;`. */
  function ParseExprStmt(toks: seq<Token>, pos: nat): (r: Option<Parsed<Statement>>)
    requires pos <= |toks|
    ensures r.Some? ==> pos < r.value.next <= |toks| && ErrorFree(r.value.node)
    ensures r.Some? ==> r.value.node.Expression? && toks[r.value.next - 1].kind != SemiColon
  {
    var e := ParseExpr(toks, pos);
    if e.None? then None else Some(Parsed(Statement.Expression(Spanning(toks, pos, e.value).node), e.value.next))
  }

  /** `var_declaration_parser`: `let|var x [: T] = e ;`. A declaration always
      ends with the `;` it consumed. */
  function ParseVarDecl(toks: seq<Token>, pos: nat): (r: Option<Parsed<Statement>>)
    requires pos <= |toks|
    ensures r.Some? ==> pos < r.value.next <= |toks| && ErrorFree(r.value.node)
    ensures r.Some? ==> r.value.node.Declaration? && toks[r.value.next - 1].kind.SemiColon?
  {
    if !(At(toks, pos, Let) || At(toks, pos, Var)) then None
    else DeclName(toks, pos + 1, if At(toks, pos, Let) then DeclarationType.Immutable else DeclarationType.Mutable)
  }

  /** A declaration after its `let` or `var`: `x [: T] = e ;`. */
  function DeclName(toks: seq<Token>, pos: nat, kind: DeclarationType): (r: Option<Parsed<Statement>>)
    requires pos <= |toks|
    ensures r.Some? ==> pos < r.value.next <= |toks| && ErrorFree(r.value.node)
    ensures r.Some? ==> r.value.node.Declaration? && toks[r.value.next - 1].kind.SemiColon?
    ensures r.Some? ==> r.value.node.declarationType == kind
  {
    var name := VarIdent(toks, pos);
    if name.None? then None
    else
      var manual := ManualType(toks, pos + 1);
      DeclValue(toks, manual.next, kind, name.value.node, manual.node)
  }

  /** `just(Colon).ignore_then(type_ident()).or_not()`: an optional `: T`,
      consuming nothing when it is absent. */
  function ManualType(toks: seq<Token>, pos: nat): (r: Parsed<Option<Spanned<Type>>>)
    requires pos <= |toks|
    ensures r.node.Some? <==> At(toks, pos, Colon) && TypeIdent(toks, pos + 1).Some?
    ensures r.next == (if r.node.Some? then pos + 2 else pos) && r.next <= |toks|
  {
    var t := if At(toks, pos, Colon) then TypeIdent(toks, pos + 1) else None;
    if t.Some? then Parsed(Some(t.value.node), pos + 2) else Parsed(None, pos)
  }

  /** The end of a declaration after its name and optional type: `= e ;`. */
  function DeclValue(toks: seq<Token>, pos: nat, kind: DeclarationType, name: Spanned<Id>, manualType: Option<Spanned<Type>>): (r: Option<Parsed<Statement>>)
    requires pos <= |toks|
    ensures r.Some? ==> pos < r.value.next <= |toks| && ErrorFree(r.value.node)
    ensures r.Some? ==> r.value.node.Declaration? && toks[r.value.next - 1].kind.SemiColon?
    ensures r.Some? ==> r.value.node.declarationType == kind
    ensures r.Some? ==> r.value.node.name == name && r.value.node.manualType == manualType
  {
    if !At(toks, pos, TokenType.Assign) then None
    else
      var e := ParseExpr(toks, pos + 1);
      if e.None? || !At(toks, e.value.next, SemiColon) then None
      else
        Some(Parsed(Statement.Declaration(kind, name, manualType, Spanning(toks, pos + 1, e.value).node), e.value.next + 1))
  }

  /** `empty_stmt_parser`: a lone `;`. */
  function ParseEmpty(toks: seq<Token>, pos: nat): (r: Option<Parsed<Statement>>)
    requires pos <= |toks|
    ensures r.Some? ==> pos < r.value.next <= |toks| && ErrorFree(r.value.node)
  {
    if At(toks, pos, SemiColon) then Some(Parsed(Statement.Empty, pos + 1)) else None
  }

  /** `stmt_parser`: the first of the eleven alternatives that succeeds. No
      alternative builds an `Error` statement. */
  function ParseStmt(toks: seq<Token>, pos: nat): (r: Option<Parsed<Statement>>)
    requires pos <= |toks|
    ensures r.Some? ==> pos < r.value.next <= |toks| && ErrorFree(r.value.node)
    decreases |toks| - pos, 2
  {
    var test := ParseTest(toks, pos);
    if test.Some? then test else
    var assign := ParseAssign(toks, pos);
    if assign.Some? then assign else
    var defer := ParseDefer(toks, pos);
    if defer.Some? then defer else
    var expr := ParseExprStmt(toks, pos);
    if expr.Some? then expr else
    var matchStmt := ParseMatch(toks, pos);
    if matchStmt.Some? then matchStmt else
    var whileStmt := ParseWhile(toks, pos);
    if whileStmt.Some? then whileStmt else
    var func := ParseFunc(toks, pos);
    if func.Some? then func else
    var block := ParseBlock(toks, pos);
    if block.Some? then block else
    var decl := ParseVarDecl(toks, pos);
    if decl.Some? then decl else
    var ifStmt := ParseIf(toks, pos);
    if ifStmt.Some? then ifStmt else
    ParseEmpty(toks, pos)
  }

  /** `defer_stmt_parser`: `defer s`. */
  function ParseDefer(toks: seq<Token>, pos: nat): (r: Option<Parsed<Statement>>)
    requires pos <= |toks|
    ensures r.Some? ==> pos < r.value.next <= |toks| && ErrorFree(r.value.node)
    decreases |toks| - pos, 1
  {
    if !At(toks, pos, TokenType.Defer) then None
    else
      var s := ParseStmt(toks, pos + 1);
      if s.None? then None else Some(Parsed(Statement.Defer(Spanning(toks, pos + 1, s.value).node), s.value.next))
  }

  /** The greedy repetition of spanned statements, as in a block or function body. */
  function StmtList(toks: seq<Token>, pos: nat): (r: Parsed<seq<Spanned<Statement>>>)
    requires pos <= |toks|
    ensures pos <= r.next <= |toks|
    ensures r.node == [] <==> r.next == pos
    ensures forall i :: 0 <= i < |r.node| ==> ErrorFree(r.node[i].value)
    decreases |toks| - pos, 3
  {
    var s := ParseStmt(toks, pos);
    if s.None? then Parsed([], pos)
    else
      var rest := StmtList(toks, s.value.next);
      Parsed([Spanning(toks, pos, s.value).node] + rest.node, rest.next)
  }

  /** `block_parser`: `{ s1 s2 ... }` with at least one statement. */
  function ParseBlock(toks: seq<Token>, pos: nat): (r: Option<Parsed<Statement>>)
    requires pos <= |toks|
    ensures r.Some? ==> pos < r.value.next <= |toks| && ErrorFree(r.value.node)
    ensures r.Some? ==> r.value.node.Block? && |r.value.node.statements| >= 1
    decreases |toks| - pos, 1
  {
    if !At(toks, pos, LeftBracket) then None
    else
      var body := StmtList(toks, pos + 1);
      if body.node != [] && At(toks, body.next, RightBracket) then
        Some(Parsed(Statement.Block(body.node), body.next + 1))
      else
        None
  }

  /** `if_parser`: `if c { s } [else s]`. The then-branch is exactly one
      statement between the braces; the else-branch is any statement. */
  function ParseIf(toks: seq<Token>, pos: nat): (r: Option<Parsed<Statement>>)
    requires pos <= |toks|
    ensures r.Some? ==> pos < r.value.next <= |toks| && ErrorFree(r.value.node)
    decreases |toks| - pos, 1
  {
    if !At(toks, pos, If) then None
    else
      var c := ParseExpr(toks, pos + 1);
      if c.None? || !At(toks, c.value.next, LeftBracket) then None
      else
        var t := ParseStmt(toks, c.value.next + 1);
        if t.None? || !At(toks, t.value.next, RightBracket) then None
        else
          var afterThen := t.value.next + 1;
          var e := if At(toks, afterThen, Else) then ParseStmt(toks, afterThen + 1) else None;
          var elseBranch := if e.Some? then Some(Spanning(toks, afterThen + 1, e.value).node) else None;
          var next := if e.Some? then e.value.next else afterThen;
          Some(Parsed(
            Statement.IfStmt(Spanning(toks, pos + 1, c.value).node, Spanning(toks, c.value.next + 1, t.value).node, elseBranch),
            next))
  }

  /** `while_parser`: `while c { s }` with exactly one statement between the braces. */
  function ParseWhile(toks: seq<Token>, pos: nat): (r: Option<Parsed<Statement>>)
    requires pos <= |toks|
    ensures r.Some? ==> pos < r.value.next <= |toks| && ErrorFree(r.value.node)
    decreases |toks| - pos, 1
  {
    if !At(toks, pos, While) then None
    else
      var c := ParseExpr(toks, pos + 1);
      if c.None? || !At(toks, c.value.next, LeftBracket) then None
      else
        var t := ParseStmt(toks, c.value.next + 1);
        if t.None? || !At(toks, t.value.next, RightBracket) then None
        else
          Some(Parsed(
            Statement.WhileStmt(Spanning(toks, pos + 1, c.value).node, Spanning(toks, c.value.next + 1, t.value).node),
            t.value.next + 1))
  }

  /** One match arm: `pattern => s`. */
  function ParseArm(toks: seq<Token>, pos: nat): (r: Option<Parsed<(Pattern, Statement)>>)
    requires pos <= |toks|
    ensures r.Some? ==> pos < r.value.next <= |toks| && ErrorFree(r.value.node.1)
    decreases |toks| - pos, 0
  {
    var p := ParsePattern(toks, pos);
    if p.None? || !At(toks, pos + 1, FatArrow) then None
    else
      var s := ParseStmt(toks, pos + 2);
      if s.None? then None else Some(Parsed((p.value.node, s.value.node), s.value.next))
  }

  /** No arm's statement holds `Error`. */
  predicate ArmsErrorFree(arms: seq<(Pattern, Statement)>) {
    forall i :: 0 <= i < |arms| ==> ErrorFree(arms[i].1)
  }

  /** Zero or more arms separated by commas; a trailing comma after the last
      arm is consumed. */
  function ParseArms(toks: seq<Token>, pos: nat): (r: Parsed<seq<(Pattern, Statement)>>)
    requires pos <= |toks|
    ensures pos <= r.next <= |toks|
    ensures ArmsErrorFree(r.node)
    decreases |toks| - pos, 1
  {
    var first := ParseArm(toks, pos);
    if first.None? then Parsed([], pos) else ArmsRest(toks, first.value.next, [first.value.node])
  }

  function ArmsRest(toks: seq<Token>, pos: nat, acc: seq<(Pattern, Statement)>): (r: Parsed<seq<(Pattern, Statement)>>)
    requires pos <= |toks|
    requires ArmsErrorFree(acc)
    ensures pos <= r.next <= |toks|
    ensures ArmsErrorFree(r.node)
    decreases |toks| - pos, 0
  {
    if At(toks, pos, Comma) then
      var arm := ParseArm(toks, pos + 1);
      if arm.None? then Parsed(acc, pos + 1)
      else
        var acc' := acc + [arm.value.node];
        assert ArmsErrorFree(acc') by {
          assert acc'[|acc|] == arm.value.node;
        }
        var r := ArmsRest(toks, arm.value.next, acc');
        r
    else
      Parsed(acc, pos)
  }

  /** `match_parser`: `match e { arms }`. */
  function ParseMatch(toks: seq<Token>, pos: nat): (r: Option<Parsed<Statement>>)
    requires pos <= |toks|
    ensures r.Some? ==> pos < r.value.next <= |toks| && ErrorFree(r.value.node)
    decreases |toks| - pos, 1
  {
    if !At(toks, pos, Match) then None
    else
      var p := ParseExpr(toks, pos + 1);
      if p.None? || !At(toks, p.value.next, LeftBracket) then None
      else
        var arms := ParseArms(toks, p.value.next + 1);
        if !At(toks, arms.next, RightBracket) then None
        else
          Some(Parsed(
            Statement.MatchStmt(Spanning(toks, pos + 1, p.value).node, arms.node, SpanOf(toks, p.value.next, arms.next + 1)),
            arms.next + 1))
  }

  function ParamTypeOf(k: TokenType): Option<ParamType> {
    match k
    case Ref => Some(ParamType.Reference)
    case Val => Some(ParamType.Value)
    case In => Some(ParamType.Input)
    case Out => Some(ParamType.Output)
    case _ => None
  }

  function RestrictorOf(k: TokenType): Option<ParamRestrictor> {
    match k
    case Mutable => Some(ParamRestrictor.Mutable)
    case Const => Some(ParamRestrictor.Constant)
    case _ => None
  }

  /** `func_params_parser`: `ref|val|in|out name : [mut|const] Type`. */
  function ParseParam(toks: seq<Token>, pos: nat): (r: Option<Parsed<FuncParameter>>)
    ensures r.Some? ==> pos < r.value.next <= |toks|
  {
    if pos + 2 >= |toks| || ParamTypeOf(toks[pos].kind).None? then None
    else
      var kind := Spanned(ParamTypeOf(toks[pos].kind).value, toks[pos].span);
      var name := VarIdent(toks, pos + 1);
      if name.None? || !At(toks, pos + 2, Colon) then None
      else
        var restrictor :=
          if pos + 3 < |toks| && RestrictorOf(toks[pos + 3].kind).Some? then
            Some(Spanned(RestrictorOf(toks[pos + 3].kind).value, toks[pos + 3].span))
          else None;
        var q := if restrictor.Some? then pos + 4 else pos + 3;
        var ty := TypeIdent(toks, q);
        if ty.None? then None
        else Some(Parsed(FuncParameter(kind, name.value.node, restrictor, ty.value.node), ty.value.next))
  }

  /** Zero or more parameters separated by commas, without a trailing comma. */
  function ParseParams(toks: seq<Token>, pos: nat): (r: Parsed<seq<FuncParameter>>)
    requires pos <= |toks|
    ensures pos <= r.next <= |toks|
  {
    var first := ParseParam(toks, pos);
    if first.None? then Parsed([], pos) else ParamsRest(toks, first.value.next, [first.value.node])
  }

  function ParamsRest(toks: seq<Token>, pos: nat, acc: seq<FuncParameter>): (r: Parsed<seq<FuncParameter>>)
    requires pos <= |toks|
    ensures pos <= r.next <= |toks|
    decreases |toks| - pos
  {
    if At(toks, pos, Comma) then
      var p := ParseParam(toks, pos + 1);
      if p.None? then Parsed(acc, pos) else ParamsRest(toks, p.value.next, acc + [p.value.node])
    else
      Parsed(acc, pos)
  }

  /** `func_parser`: `function f (params) [, Type] { s1 s2 ... }` with at
      least one statement in the body. */
  function ParseFunc(toks: seq<Token>, pos: nat): (r: Option<Parsed<Statement>>)
    requires pos <= |toks|
    ensures r.Some? ==> pos < r.value.next <= |toks| && ErrorFree(r.value.node)
    ensures r.Some? ==> r.value.node.FuncDeclaration? && |r.value.node.statements| >= 1
    decreases |toks| - pos, 1
  {
    if !At(toks, pos, Function) then None
    else
      var name := VarIdent(toks, pos + 1);
      if name.None? || !At(toks, pos + 2, LeftParenthesis) then None
      else
        var params := ParseParams(toks, pos + 3);
        if !At(toks, params.next, RightParenthesis) then None
        else
          FuncTail(toks, params.next + 1, name.value.node, params.node)
  }

  /** After the parameter list: an optional `, Type`, then the body. */
  function FuncTail(toks: seq<Token>, pos: nat, name: Spanned<Id>, params: seq<FuncParameter>): (r: Option<Parsed<Statement>>)
    requires pos <= |toks|
    ensures r.Some? ==> pos < r.value.next <= |toks| && ErrorFree(r.value.node)
    ensures r.Some? ==> r.value.node.FuncDeclaration? && |r.value.node.statements| >= 1
    decreases |toks| - pos, 1
  {
    var ret := if At(toks, pos, Comma) then TypeIdent(toks, pos + 1) else None;
    var q := if ret.Some? then pos + 2 else pos;
    var returnType := if ret.Some? then Some(ret.value.node) else None;
    FuncBody(toks, q, name, params, returnType)
  }

  /** The braced body of a function declaration, with at least one statement. */
  function FuncBody(toks: seq<Token>, pos: nat, name: Spanned<Id>, params: seq<FuncParameter>, returnType: Option<Spanned<Type>>): (r: Option<Parsed<Statement>>)
    requires pos <= |toks|
    ensures r.Some? ==> pos < r.value.next <= |toks| && ErrorFree(r.value.node)
    ensures r.Some? ==> r.value.node.FuncDeclaration? && |r.value.node.statements| >= 1
    ensures r.Some? ==> toks[r.value.next - 1].kind == RightBracket
    ensures r.Some? ==> r.value.node.name == name && r.value.node.parameters == Some(params)
    decreases |toks| - pos, 0
  {
    if !At(toks, pos, LeftBracket) then None
    else
      var body := StmtList(toks, pos + 1);
      if body.node == [] || !At(toks, body.next, RightBracket) then None
      else Some(Parsed(Statement.FuncDeclaration(name, Some(params), returnType, body.node), body.next + 1))
  }

  //---------------------------------------------------------------------------
  // Entry point
  //---------------------------------------------------------------------------

  /** `parse`: one statement that must consume every token; anything else is
      reported as the `Error` statement. */
  function Parse(toks: seq<Token>): (s: Statement)
    ensures s.Error? <==> !(ParseStmt(toks, 0).Some? && ParseStmt(toks, 0).value.next == |toks|)
    ensures !s.Error? ==> ErrorFree(s)
  {
    var r := ParseStmt(toks, 0);
    if r.Some? && r.value.next == |toks| then r.value.node else Statement.Error
  }
}
