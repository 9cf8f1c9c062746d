module ParserLemmas {
  import opened Results
  import opened Spans
  import opened Objects
  import opened ValTypes
  import opened Misc
  import opened Exprs
  import opened Patterns
  import opened Stmts
  import opened Tokens
  import opened Parser

  //---------------------------------------------------------------------------
  // Folds
  //---------------------------------------------------------------------------

  /** The left fold puts the last operator at the root: every tier is left-associative. */
  lemma {:induction false} FoldLeftSnoc(tier: Tier, lhs: Spanned<Expr>, pairs: seq<(Spanned<BinaryOp>, Spanned<Expr>)>, op: Spanned<BinaryOp>, rhs: Spanned<Expr>)
    ensures FoldLeft(tier, lhs, pairs + [(op, rhs)]) == Join(tier, FoldLeft(tier, lhs, pairs), op, rhs)
    decreases |pairs|
  {
    if pairs == [] {
      assert [] + [(op, rhs)] == [(op, rhs)];
    } else {
      assert (pairs + [(op, rhs)])[1..] == pairs[1..] + [(op, rhs)];
      FoldLeftSnoc(tier, Join(tier, lhs, pairs[0].0, pairs[0].1), pairs[1..], op, rhs);
    }
  }

  /** A product spans from the start of its first operand to the end of its last. */
  lemma {:induction false} ProductSpan(lhs: Spanned<Expr>, pairs: seq<(Spanned<BinaryOp>, Spanned<Expr>)>)
    ensures FoldLeft(Product, lhs, pairs).span
         == if pairs == [] then lhs.span else Span(lhs.span.start, pairs[|pairs| - 1].1.span.end)
    decreases |pairs|
  {
    if pairs != [] {
      ProductSpan(Join(Product, lhs, pairs[0].0, pairs[0].1), pairs[1..]);
    }
  }

  /** Prefix operators apply right to left: a run of them splits anywhere. */
  lemma {:induction false} FoldRightAppend(ops1: seq<Spanned<UnaryOp>>, ops2: seq<Spanned<UnaryOp>>, operand: Spanned<Expr>)
    ensures FoldRight(ops1 + ops2, operand) == FoldRight(ops1, FoldRight(ops2, operand))
    decreases |ops1|
  {
    if ops1 == [] {
      assert [] + ops2 == ops2;
    } else {
      assert (ops1 + ops2)[1..] == ops1[1..] + ops2;
      FoldRightAppend(ops1[1..], ops2, operand);
    }
  }

  /** `var_ident` and `type_ident` lose nothing: the spanned node they build
      rebuilds the identifier token it was read from. */
  lemma IdentTokenRoundTrip(toks: seq<Token>, pos: nat)
    ensures VarIdent(toks, pos).Some? ==>
      var n := VarIdent(toks, pos).value.node; toks[pos] == Token(Identifier(n.value), n.span)
    ensures TypeIdent(toks, pos).Some? ==>
      var n := TypeIdent(toks, pos).value.node; toks[pos] == Token(Identifier(n.value.id), n.span)
  {
  }

  //---------------------------------------------------------------------------
  // First tokens
  //---------------------------------------------------------------------------

  /** The tokens an expression can start with. */
  predicate StartsExpr(k: TokenType) {
    k.True? || k.False? || k.Null? || k.StringLiteral? || k.CharLiteral? || k.Number?
    || k.FloatingNumber? || k.Identifier? || k.LeftParenthesis? || k.If? || PrefixOp(k).Some?
  }

  /** The tokens a statement can start with. */
  predicate StartsStmt(k: TokenType) {
    k.Test? || k.Defer? || k.Match? || k.While? || k.Function? || k.LeftBracket?
    || k.Let? || k.Var? || k.SemiColon? || StartsExpr(k)
  }

  lemma ExprFirstToken(toks: seq<Token>, pos: nat)
    requires pos <= |toks|
    ensures ParseExpr(toks, pos).Some? ==> pos < |toks| && StartsExpr(toks[pos].kind)
  {
    if !(pos < |toks| && StartsExpr(toks[pos].kind)) {
      assert PrefixOps(toks, pos) == Parsed([], pos);
      assert ParseAtom(toks, pos).None?;
      assert ParseOperand(toks, pos, Product).None?;
      assert ParseOperand(toks, pos, Sum).None?;
      assert ParseTier(toks, pos, Product).None?;
      assert ParseTier(toks, pos, Sum).None?;
      assert ParseTier(toks, pos, Comparison).None?;
      assert ParseBinary(toks, pos).None?;
      assert ParseFuncCall(toks, pos).None?;
      assert ParseTernary(toks, pos).None?;
    }
  }

  lemma StmtFirstToken(toks: seq<Token>, pos: nat)
    requires pos <= |toks|
    ensures ParseStmt(toks, pos).Some? ==> pos < |toks| && StartsStmt(toks[pos].kind)
  {
    ExprFirstToken(toks, pos);
    if !(pos < |toks| && StartsStmt(toks[pos].kind)) {
      assert ParseTest(toks, pos).None? && ParseAssign(toks, pos).None? && ParseDefer(toks, pos).None?;
      assert ParseExprStmt(toks, pos).None? && ParseMatch(toks, pos).None? && ParseWhile(toks, pos).None?;
      assert ParseFunc(toks, pos).None? && ParseBlock(toks, pos).None? && ParseVarDecl(toks, pos).None?;
      assert ParseIf(toks, pos).None? && ParseEmpty(toks, pos).None?;
    }
  }

  /** A one-token atom that no operator, call or index follows is the whole expression. */
  lemma OneTokenExpr(toks: seq<Token>, pos: nat, e: Expr)
    requires pos < |toks| && ParseAtom(toks, pos) == Some(Parsed(e, pos + 1))
    requires PrefixOp(toks[pos].kind).None?
    requires pos + 1 < |toks| ==>
      var k := toks[pos + 1].kind;
      TierOp(Product, k).None? && TierOp(Sum, k).None? && TierOp(Comparison, k).None? && !k.LeftParenthesis?
    ensures ParseExpr(toks, pos) == Some(Parsed(e, pos + 1))
  {
    var s := Spanned(e, SpanOf(toks, pos, pos + 1));
    assert PrefixOps(toks, pos) == Parsed([], pos);
    assert FoldRight([], s) == s;
    assert ParseUnary(toks, pos) == Some(Parsed(s, pos + 1));
    assert ParseOperand(toks, pos, Product) == Some(Parsed(s, pos + 1));
    assert TierPairs(toks, pos + 1, Product) == Parsed([], pos + 1);
    assert FoldLeft(Product, s, []) == s;
    assert ParseTier(toks, pos, Product) == Some(Parsed(s, pos + 1));
    assert TierPairs(toks, pos + 1, Sum) == Parsed([], pos + 1);
    assert FoldLeft(Sum, s, []) == s;
    assert ParseTier(toks, pos, Sum) == Some(Parsed(s, pos + 1));
    assert TierPairs(toks, pos + 1, Comparison) == Parsed([], pos + 1);
    assert FoldLeft(Comparison, s, []) == s;
    assert ParseTier(toks, pos, Comparison) == Some(Parsed(s, pos + 1));
    assert ParseBinary(toks, pos) == Some(Parsed(e, pos + 1));
    assert ParseFuncCall(toks, pos).None?;
  }

  //---------------------------------------------------------------------------
  // Worked inputs (one token per source column)
  //---------------------------------------------------------------------------

  function T(k: TokenType, at: nat): Token {
    Token(k, Span(at, at + 1))
  }

  function Var(id: Id, at: nat): Spanned<Expr> {
    Spanned(Expr.Variable(Spanned(id, Span(at, at + 1))), Span(at, at + 1))
  }

  /** An identifier is a one-token product operand. */
  lemma VarOperand(toks: seq<Token>, pos: nat)
    requires pos < |toks| && toks[pos].kind.Identifier? && toks[pos].span == Span(pos, pos + 1)
    ensures ParseOperand(toks, pos, Product) == Some(Parsed(Var(toks[pos].kind.id, pos), pos + 1))
  {
    assert PrefixOps(toks, pos) == Parsed([], pos);
    assert ParseAtom(toks, pos) == Some(Parsed(Expr.Variable(Spanned(toks[pos].kind.id, toks[pos].span)), pos + 1));
    assert ParseUnary(toks, pos) == Some(Parsed(Var(toks[pos].kind.id, pos), pos + 1));
  }

  /** An identifier not followed by `*` or `/` is a one-token product. */
  lemma VarProduct(toks: seq<Token>, pos: nat)
    requires pos < |toks| && toks[pos].kind.Identifier? && toks[pos].span == Span(pos, pos + 1)
    requires pos + 1 < |toks| ==> TierOp(Product, toks[pos + 1].kind).None?
    ensures ParseTier(toks, pos, Product) == Some(Parsed(Var(toks[pos].kind.id, pos), pos + 1))
  {
    VarOperand(toks, pos);
    assert TierPairs(toks, pos + 1, Product) == Parsed([], pos + 1);
    assert FoldLeft(Product, Var(toks[pos].kind.id, pos), []) == Var(toks[pos].kind.id, pos);
  }

  /** `a - b - c` is `(a - b) - c`. */
  lemma MinusChain(toks: seq<Token>)
    requires toks == [T(Identifier(1), 0), T(Minus, 1), T(Identifier(2), 2), T(Minus, 3), T(Identifier(3), 4)]
    ensures ParseExpr(toks, 0)
         == Some(Parsed(Expr.Binary(
              Spanned(Expr.Binary(Var(1, 0), Spanned(BinaryOp.Sub, Span(1, 2)), Var(2, 2)), Span(0, 3)),
              Spanned(BinaryOp.Sub, Span(3, 4)), Var(3, 4)), 5))
  {
    var a, b, c := Var(1, 0), Var(2, 2), Var(3, 4);
    var m1, m2 := Spanned(BinaryOp.Sub, Span(1, 2)), Spanned(BinaryOp.Sub, Span(3, 4));
    VarProduct(toks, 0);
    VarProduct(toks, 2);
    VarProduct(toks, 4);
    assert ParseOperand(toks, 4, Sum) == Some(Parsed(c, 5));
    assert TierPairs(toks, 5, Sum) == Parsed([], 5);
    assert TierOp(Sum, toks[3].kind) == Some(BinaryOp.Sub);
    assert [(m2, c)] + [] == [(m2, c)];
    assert TierPairs(toks, 3, Sum) == Parsed([(m2, c)], 5);
    assert ParseOperand(toks, 2, Sum) == Some(Parsed(b, 3));
    assert TierOp(Sum, toks[1].kind) == Some(BinaryOp.Sub);
    assert [(m1, b)] + [(m2, c)] == [(m1, b), (m2, c)];
    assert TierPairs(toks, 1, Sum) == Parsed([(m1, b), (m2, c)], 5);
    var ab := Join(Sum, a, m1, b);
    assert FoldLeft(Sum, a, [(m1, b), (m2, c)]) == FoldLeft(Sum, ab, [(m2, c)]);
    assert FoldLeft(Sum, ab, [(m2, c)]) == Join(Sum, ab, m2, c);
    var abc := Join(Sum, ab, m2, c);
    assert ParseOperand(toks, 0, Sum) == Some(Parsed(a, 1));
    assert ParseTier(toks, 0, Sum) == Some(Parsed(abc, 5));
    assert ParseOperand(toks, 0, Comparison) == Some(Parsed(abc, 5));
    assert TierPairs(toks, 5, Comparison) == Parsed([], 5);
    assert ParseTier(toks, 0, Comparison) == Some(Parsed(abc, 5));
    assert ParseBinary(toks, 0) == Some(Parsed(abc.value, 5));
    assert ParseFuncCall(toks, 0) == None;
    assert ParseTernary(toks, 0) == None;
  }

  /** `a + b * c` is `a + (b * c)`: the product is one operand of the sum. */
  lemma ProductBindsTighter(toks: seq<Token>)
    requires toks == [T(Identifier(1), 0), T(Plus, 1), T(Identifier(2), 2), T(Times, 3), T(Identifier(3), 4)]
    ensures ParseExpr(toks, 0)
         == Some(Parsed(Expr.Binary(
              Var(1, 0), Spanned(BinaryOp.Add, Span(1, 2)),
              Spanned(Expr.Binary(Var(2, 2), Spanned(BinaryOp.Mul, Span(3, 4)), Var(3, 4)), Span(2, 5))), 5))
  {
    var a, b, c := Var(1, 0), Var(2, 2), Var(3, 4);
    var plus, times := Spanned(BinaryOp.Add, Span(1, 2)), Spanned(BinaryOp.Mul, Span(3, 4));
    VarProduct(toks, 0);
    VarProduct(toks, 4);
    // the product `b * c`
    VarOperand(toks, 2);
    VarOperand(toks, 4);
    assert TierPairs(toks, 5, Product) == Parsed([], 5);
    assert TierOp(Product, toks[3].kind) == Some(BinaryOp.Mul);
    assert [(times, c)] + [] == [(times, c)];
    assert TierPairs(toks, 3, Product) == Parsed([(times, c)], 5);
    var bc := Join(Product, b, times, c);
    assert FoldLeft(Product, b, [(times, c)]) == bc;
    assert ParseTier(toks, 2, Product) == Some(Parsed(bc, 5));
    // the sum `a + bc`
    assert ParseOperand(toks, 2, Sum) == Some(Parsed(bc, 5));
    assert TierPairs(toks, 5, Sum) == Parsed([], 5);
    assert TierOp(Sum, toks[1].kind) == Some(BinaryOp.Add);
    assert [(plus, bc)] + [] == [(plus, bc)];
    assert TierPairs(toks, 1, Sum) == Parsed([(plus, bc)], 5);
    var abc := Join(Sum, a, plus, bc);
    assert FoldLeft(Sum, a, [(plus, bc)]) == abc;
    assert ParseOperand(toks, 0, Sum) == Some(Parsed(a, 1));
    assert ParseTier(toks, 0, Sum) == Some(Parsed(abc, 5));
    assert TierPairs(toks, 5, Comparison) == Parsed([], 5);
    assert ParseTier(toks, 0, Comparison) == Some(Parsed(abc, 5));
    assert ParseFuncCall(toks, 0) == None;
    assert ParseTernary(toks, 0) == None;
  }

  function Num(n: I32, at: nat): Spanned<Expr> {
    Spanned(LiteralExpr(Integer(n), Span(at, at + 1)), Span(at, at + 1))
  }

  /** `x = 1` parses to its `Assign` statement on its own, whereas
      `x = 1 ;` does not parse: the assignment does not take
      the `;`, and `parse` rejects the token left over. */
  lemma AssignTakesNoSemicolon(toks: seq<Token>)
    requires toks == [T(Identifier(7), 0), T(TokenType.Assign, 1), T(Number(1), 2)]
    ensures Parse(toks) == Statement.Assign(Spanned(7, Span(0, 1)), Spanned(AssignOp.Set, Span(1, 2)), Num(1, 2))
    ensures Parse(toks + [T(SemiColon, 3)]).Error?
  {
    OneTokenExpr(toks, 2, LiteralExpr(Integer(1), Span(2, 3)));
    assert ParseAssign(toks, 0) == Some(Parsed(Statement.Assign(Spanned(7, Span(0, 1)), Spanned(AssignOp.Set, Span(1, 2)), Num(1, 2)), 3));
    var toks' := toks + [T(SemiColon, 3)];
    OneTokenExpr(toks', 2, LiteralExpr(Integer(1), Span(2, 3)));
    assert ParseAssign(toks', 0) == Some(Parsed(Statement.Assign(Spanned(7, Span(0, 1)), Spanned(AssignOp.Set, Span(1, 2)), Num(1, 2)), 3));
  }

  /** A lone `;` is the empty statement. */
  lemma EmptyStmt(toks: seq<Token>, pos: nat)
    requires pos < |toks| && toks[pos].kind == SemiColon
    ensures ParseStmt(toks, pos) == Some(Parsed(Statement.Empty, pos + 1))
  {
    ExprFirstToken(toks, pos);
    assert ParseTest(toks, pos).None? && ParseAssign(toks, pos).None? && ParseDefer(toks, pos).None?;
    assert ParseExprStmt(toks, pos).None? && ParseMatch(toks, pos).None? && ParseWhile(toks, pos).None?;
    assert ParseFunc(toks, pos).None?;
    assert ParseBlock(toks, pos).None? && ParseVarDecl(toks, pos).None? && ParseIf(toks, pos).None?;
  }

  /** A name, an assignment operator and a one-token operand form an assignment. */
  lemma AssignStmt(toks: seq<Token>, pos: nat, rhs: Expr)
    requires pos + 2 < |toks| && toks[pos].kind.Identifier? && AssignOpOf(toks[pos + 1].kind).Some?
    requires ParseExpr(toks, pos + 2) == Some(Parsed(rhs, pos + 3))
    ensures ParseStmt(toks, pos) == Some(Parsed(Statement.Assign(
      Spanned(toks[pos].kind.id, toks[pos].span),
      Spanned(AssignOpOf(toks[pos + 1].kind).value, toks[pos + 1].span),
      Spanned(rhs, toks[pos + 2].span)), pos + 3))
  {
    assert ParseTest(toks, pos).None?;
    assert SpanOf(toks, pos + 2, pos + 3) == toks[pos + 2].span;
    assert ParseAssign(toks, pos) == Some(Parsed(Statement.Assign(
      Spanned(toks[pos].kind.id, toks[pos].span),
      Spanned(AssignOpOf(toks[pos + 1].kind).value, toks[pos + 1].span),
      Spanned(rhs, toks[pos + 2].span)), pos + 3));
  }

  /** A statement that starts with `{` can only be a block. */
  lemma BlockStmt(toks: seq<Token>, pos: nat)
    requires pos < |toks| && toks[pos].kind == LeftBracket
    ensures ParseStmt(toks, pos) == ParseBlock(toks, pos)
  {
    ExprFirstToken(toks, pos);
    assert ParseTest(toks, pos).None? && ParseAssign(toks, pos).None? && ParseDefer(toks, pos).None?;
    assert ParseExprStmt(toks, pos).None? && ParseMatch(toks, pos).None? && ParseWhile(toks, pos).None?;
    assert ParseFunc(toks, pos).None?;
    assert ParseVarDecl(toks, pos).None? && ParseIf(toks, pos).None? && ParseEmpty(toks, pos).None?;
  }

  /** One step of the statement repetition: a statement that parses is kept,
      and the first one that does not ends the list. */
  lemma StmtListCons(toks: seq<Token>, pos: nat, s: Parsed<Statement>, rest: Parsed<seq<Spanned<Statement>>>)
    requires pos <= |toks|
    requires ParseStmt(toks, pos) == Some(s) && StmtList(toks, s.next) == rest
    ensures s.next <= |toks|
    ensures StmtList(toks, pos) == Parsed([Spanned(s.node, SpanOf(toks, pos, s.next))] + rest.node, rest.next)
  {
  }

  lemma StmtListNil(toks: seq<Token>, pos: nat)
    requires pos <= |toks| && ParseStmt(toks, pos).None?
    ensures StmtList(toks, pos) == Parsed([], pos)
  {
  }

  /** A `;` followed by a token no statement starts with is a one-statement list. */
  lemma EmptyThenEnd(toks: seq<Token>, pos: nat)
    requires pos + 1 < |toks| && toks[pos].kind == SemiColon && !StartsStmt(toks[pos + 1].kind)
    ensures StmtList(toks, pos) == Parsed([Spanned(Statement.Empty, toks[pos].span)], pos + 1)
  {
    EmptyStmt(toks, pos);
    StmtFirstToken(toks, pos + 1);
    StmtListNil(toks, pos + 1);
    assert [Spanned(Statement.Empty, toks[pos].span)] + [] == [Spanned(Statement.Empty, toks[pos].span)];
    StmtListCons(toks, pos, Parsed(Statement.Empty, pos + 1), Parsed([], pos + 1));
  }

  /** In `{ x = 1 ; }` the statement after `{` is the assignment `x = 1`. */
  lemma AssignAfterBrace(toks: seq<Token>)
    requires toks == [T(LeftBracket, 0), T(Identifier(7), 1), T(TokenType.Assign, 2), T(Number(1), 3), T(SemiColon, 4), T(RightBracket, 5)]
    ensures ParseStmt(toks, 1) == Some(Parsed(
      Statement.Assign(Spanned(7, Span(1, 2)), Spanned(AssignOp.Set, Span(2, 3)), Num(1, 3)), 4))
  {
    OneTokenExpr(toks, 3, LiteralExpr(Integer(1), Span(3, 4)));
    AssignStmt(toks, 1, LiteralExpr(Integer(1), Span(3, 4)));
  }

  /** In `{ x = 1 ; }` the list from the `;` on is one empty statement. */
  lemma EmptyBeforeBrace(toks: seq<Token>)
    requires toks == [T(LeftBracket, 0), T(Identifier(7), 1), T(TokenType.Assign, 2), T(Number(1), 3), T(SemiColon, 4), T(RightBracket, 5)]
    ensures StmtList(toks, 4) == Parsed([Spanned(Statement.Empty, Span(4, 5))], 5)
  {
    EmptyThenEnd(toks, 4);
  }

  /** The body of `{ x = 1 ; }`: an assignment, then an empty statement, then `}` ends the list. */
  lemma AssignThenEmpty(toks: seq<Token>)
    requires toks == [T(LeftBracket, 0), T(Identifier(7), 1), T(TokenType.Assign, 2), T(Number(1), 3), T(SemiColon, 4), T(RightBracket, 5)]
    ensures StmtList(toks, 1) == Parsed([
      Spanned(Statement.Assign(Spanned(7, Span(1, 2)), Spanned(AssignOp.Set, Span(2, 3)), Num(1, 3)), Span(1, 4)),
      Spanned(Statement.Empty, Span(4, 5))], 5)
  {
    var assign := Statement.Assign(Spanned(7, Span(1, 2)), Spanned(AssignOp.Set, Span(2, 3)), Num(1, 3));
    var empty := Spanned(Statement.Empty, Span(4, 5));
    AssignAfterBrace(toks);
    EmptyBeforeBrace(toks);
    assert SpanOf(toks, 1, 4) == Span(1, 4);
    assert [Spanned(assign, Span(1, 4))] + [empty] == [Spanned(assign, Span(1, 4)), empty];
    StmtListCons(toks, 1, Parsed(assign, 4), Parsed([empty], 5));
  }

  /** `{ x = 1 ; }` is a block of two statements: the assignment and an empty statement. */
  lemma BlockOfAssignAndEmpty(toks: seq<Token>)
    requires toks == [T(LeftBracket, 0), T(Identifier(7), 1), T(TokenType.Assign, 2), T(Number(1), 3), T(SemiColon, 4), T(RightBracket, 5)]
    ensures Parse(toks) == Statement.Block([
      Spanned(Statement.Assign(Spanned(7, Span(1, 2)), Spanned(AssignOp.Set, Span(2, 3)), Num(1, 3)), Span(1, 4)),
      Spanned(Statement.Empty, Span(4, 5))])
  {
    AssignThenEmpty(toks);
    BlockStmt(toks, 0);
  }

  /** Ordered choice commits to a call: in `f ( ) + 1` the expression parser
      stops after the call, so the statement leaves `+ 1` unconsumed and the
      whole input does not parse. */
  lemma CallIsNotAnOperand(toks: seq<Token>)
    requires toks == [T(Identifier(5), 0), T(LeftParenthesis, 1), T(RightParenthesis, 2), T(Plus, 3), T(Number(1), 4)]
    ensures ParseExpr(toks, 0) == Some(Parsed(Expr.FunctionCall(Spanned(5, Span(0, 1)), Some([])), 3))
    ensures Parse(toks).Error?
  {
    var call := Expr.FunctionCall(Spanned(5, Span(0, 1)), Some([]));
    ExprFirstToken(toks, 2);
    assert ParseExpr(toks, 2).None?;
    assert ParseArgs(toks, 2) == Parsed([], 2);
    assert VarIdent(toks, 0) == Some(Parsed(Spanned(5, Span(0, 1)), 1));
    assert ParseFuncCall(toks, 0) == Some(Parsed(call, 3));
    assert ParseExpr(toks, 0) == Some(Parsed(call, 3));
    assert ParseTest(toks, 0).None? && ParseAssign(toks, 0).None? && ParseDefer(toks, 0).None?;
    assert ParseExprStmt(toks, 0).Some? && ParseExprStmt(toks, 0).value.next == 3;
    assert ParseStmt(toks, 0) == ParseExprStmt(toks, 0);
  }

  /** The repetition of match arms keeps the arms in source order: the arms
      collected so far stay first, and each later arm is appended after them. */
  lemma {:induction false} ArmsKeepOrder(toks: seq<Token>, pos: nat, acc: seq<(Pattern, Statement)>)
    requires pos <= |toks|
    requires ArmsErrorFree(acc)
    ensures |acc| <= |ArmsRest(toks, pos, acc).node|
    ensures ArmsRest(toks, pos, acc).node[..|acc|] == acc
    decreases |toks| - pos
  {
    if !At(toks, pos, Comma) {
      assert ArmsRest(toks, pos, acc) == Parsed(acc, pos);
    } else {
      var arm := ParseArm(toks, pos + 1);
      if arm.None? {
        assert ArmsRest(toks, pos, acc) == Parsed(acc, pos + 1);
      } else {
        var acc' := acc + [arm.value.node];
        assert ArmsErrorFree(acc') by {
          assert acc'[|acc|] == arm.value.node;
        }
        var r := ArmsRest(toks, arm.value.next, acc');
        assert ArmsRest(toks, pos, acc) == r;
        ArmsKeepOrder(toks, arm.value.next, acc');
        assert acc'[..|acc|] == acc;
        assert r.node[..|acc|] == r.node[..|acc'|][..|acc|];
      }
    }
  }

  /** A trailing comma after the last match arm is consumed. */
  lemma TrailingCommaAfterArms(toks: seq<Token>, pos: nat, arms: seq<(Pattern, Statement)>)
    requires pos < |toks| && toks[pos].kind == Comma && ParseArm(toks, pos + 1).None?
    requires ArmsErrorFree(arms)
    ensures ArmsRest(toks, pos, arms) == Parsed(arms, pos + 1)
  {
  }

  /** A comma after the last call argument is not consumed: the argument
      list ends before it. */
  lemma CommaAfterArgsRewound(toks: seq<Token>, pos: nat, args: seq<Expr>)
    requires pos < |toks| && toks[pos].kind == Comma && ParseExpr(toks, pos + 1).None?
    ensures ArgsRest(toks, pos, args) == Parsed(args, pos)
  {
  }

  /** `not - x` is `not (- x)`: prefix operators fold right, and each node
      spans from its operator to the end of its operand. */
  lemma NotNegFoldsRight(toks: seq<Token>)
    requires toks == [T(TokenType.Not, 0), T(Minus, 1), T(Identifier(9), 2)]
    ensures ParseUnary(toks, 0)
         == Some(Parsed(Spanned(Expr.Unary(Spanned(UnaryOp.Not, Span(0, 1)),
              Spanned(Expr.Unary(Spanned(UnaryOp.Neg, Span(1, 2)), Var(9, 2)), Span(1, 3))), Span(0, 3)), 3))
  {
    var not, neg := Spanned(UnaryOp.Not, Span(0, 1)), Spanned(UnaryOp.Neg, Span(1, 2));
    assert PrefixOps(toks, 2) == Parsed([], 2);
    assert [neg] + [] == [neg];
    assert PrefixOps(toks, 1) == Parsed([neg], 2);
    assert [not] + [neg] == [not, neg];
    assert PrefixOps(toks, 0) == Parsed([not, neg], 2);
    assert ParseAtom(toks, 2) == Some(Parsed(Expr.Variable(Spanned(9, Span(2, 3))), 3));
    assert SpanOf(toks, 2, 3) == Span(2, 3);
    assert Spanning(toks, 2, ParseAtom(toks, 2).value).node == Var(9, 2);
    assert FoldRight([neg], Var(9, 2)) == Prefix(neg, FoldRight([], Var(9, 2)));
    assert FoldRight([not, neg], Var(9, 2)) == Prefix(not, FoldRight([neg], Var(9, 2)));
  }

  /** Parentheses only group: the atom is the inner expression itself. */
  lemma ParenthesesAreTransparent(toks: seq<Token>, pos: nat, e: Expr, close: nat)
    requires pos < |toks| && toks[pos].kind == LeftParenthesis
    requires ParseExpr(toks, pos + 1) == Some(Parsed(e, close))
    requires close < |toks| && toks[close].kind == RightParenthesis
    ensures ParseAtom(toks, pos) == Some(Parsed(e, close + 1))
  {
  }

  /** `test 1 ;` is a test statement of the literal `1`. */
  lemma TestTakesSemicolon(toks: seq<Token>)
    requires toks == [T(TokenType.Test, 0), T(Number(1), 1), T(SemiColon, 2)]
    ensures Parse(toks) == Statement.Test(LiteralExpr(Integer(1), Span(1, 2)))
  {
    OneTokenExpr(toks, 1, LiteralExpr(Integer(1), Span(1, 2)));
    assert ParseTest(toks, 0) == Some(Parsed(Statement.Test(LiteralExpr(Integer(1), Span(1, 2))), 3));
  }

  /** No statement is empty, so the empty token sequence does not parse. */
  lemma EmptyInputIsError()
    ensures Parse([]).Error?
  {
    StmtFirstToken([], 0);
  }
}
