/** Properties of expression and statement evaluation. */
module SemanticsLemmas {
  import opened Results
  import opened Spans
  import opened Objects
  import opened ValTypes
  import opened Misc
  import opened Exprs
  import opened Patterns
  import opened Stmts
  import opened Semantics

  //---------------------------------------------------------------------------
  // Expressions
  //---------------------------------------------------------------------------

  /** A binary expression evaluates its left operand, then its right operand,
      always both: the first failure is the result, and otherwise the operator
      is applied to the two values. In particular `and` and `or` do not
      short-circuit: `false and e` fails whenever `e` does. */
  lemma BinaryEvaluatesBoth(env: Env, left: Spanned<Expr>, op: Spanned<BinaryOp>, right: Spanned<Expr>)
    ensures EvalExpr(env, left.value).Err? ==>
      EvalExpr(env, Expr.Binary(left, op, right)) == Err(EvalExpr(env, left.value).error)
    ensures EvalExpr(env, left.value).Ok? && EvalExpr(env, right.value).Err? ==>
      EvalExpr(env, Expr.Binary(left, op, right)) == Err(EvalExpr(env, right.value).error)
    ensures EvalExpr(env, left.value).Ok? && EvalExpr(env, right.value).Ok? ==>
      EvalExpr(env, Expr.Binary(left, op, right))
      == EvalBinary(op.value, EvalExpr(env, left.value).value, EvalExpr(env, right.value).value)
  {
  }

  /** `and` and `or` are the truth tables of the operands' truthiness. */
  lemma AndOrTruthTables(l: Object, r: Object)
    ensures EvalBinary(BinaryOp.And, l, r) == Ok(Boolean(l == Boolean(true) && r == Boolean(true)))
    ensures EvalBinary(BinaryOp.Or, l, r) == Ok(Boolean(l == Boolean(true) || r == Boolean(true)))
  {
  }

  /** `>` and `<` are mirror images, as are `>=` and `<=`; `<=` is `<` or
      `==`; `<=` together with `>=` is exactly `==`; and `!=` negates `==`,
      because the derived order agrees with the derived equality. */
  lemma ComparisonDuality(l: Object, r: Object)
    ensures EvalBinary(BinaryOp.GreaterThan, l, r) == EvalBinary(BinaryOp.LessThan, r, l)
    ensures EvalBinary(BinaryOp.GreaterThanEqual, l, r) == EvalBinary(BinaryOp.LessThanEqual, r, l)
    ensures (EvalBinary(BinaryOp.LessThanEqual, l, r) == Ok(Boolean(true))
             && EvalBinary(BinaryOp.GreaterThanEqual, l, r) == Ok(Boolean(true)))
        <==> EvalBinary(BinaryOp.Equal, l, r) == Ok(Boolean(true))
    ensures EvalBinary(BinaryOp.LessThanEqual, l, r).value.b
        == (EvalBinary(BinaryOp.LessThan, l, r).value.b || EvalBinary(BinaryOp.Equal, l, r).value.b)
    ensures EvalBinary(BinaryOp.NotEqual, l, r).value.b == !EvalBinary(BinaryOp.Equal, l, r).value.b
  {
    CompareIsConsistentWithEquality(l, r);
  }

  /** Reading a variable yields its stored value, and fails exactly when the
      name was never declared. */
  lemma ReadVariable(env: Env, name: Spanned<Id>)
    ensures EvalExpr(env, Expr.Variable(name)).Ok? <==> name.value in env
    ensures name.value in env ==> EvalExpr(env, Expr.Variable(name)).value == env[name.value].value
    ensures name.value !in env ==> EvalExpr(env, Expr.Variable(name)) == Err(VariableDoesNotExist)
  {
  }

  /** A ternary evaluates only the branch its condition's truthiness selects:
      the other branch may fail without effect on the result. */
  lemma TernaryEvaluatesOneBranch(env: Env, c: Spanned<Expr>, v: Spanned<Expr>, e: Spanned<Expr>, other: Spanned<Expr>)
    requires EvalExpr(env, c.value).Ok?
    ensures Truthy(EvalExpr(env, c.value).value) ==>
      EvalExpr(env, Expr.TenaryIfStmt(c, v, e)) == EvalExpr(env, Expr.TenaryIfStmt(c, v, other))
      && EvalExpr(env, Expr.TenaryIfStmt(c, v, e)) == EvalExpr(env, v.value)
    ensures !Truthy(EvalExpr(env, c.value).value) ==>
      EvalExpr(env, Expr.TenaryIfStmt(c, v, e)) == EvalExpr(env, Expr.TenaryIfStmt(c, other, e))
      && EvalExpr(env, Expr.TenaryIfStmt(c, v, e)) == EvalExpr(env, e.value)
  {
    var cv := EvalExpr(env, c.value).value;
    assert EvalExpr(env, Expr.TenaryIfStmt(c, v, e))
        == if Truthy(cv) then EvalExpr(env, v.value) else EvalExpr(env, e.value);
    assert EvalExpr(env, Expr.TenaryIfStmt(c, v, other))
        == if Truthy(cv) then EvalExpr(env, v.value) else EvalExpr(env, other.value);
    assert EvalExpr(env, Expr.TenaryIfStmt(c, other, e))
        == if Truthy(cv) then EvalExpr(env, other.value) else EvalExpr(env, e.value);
  }

  //---------------------------------------------------------------------------
  // Declarations and assignments
  //---------------------------------------------------------------------------

  function Decl(kind: DeclarationType, name: Id, sp: Span, value: Expr): Statement {
    Statement.Declaration(kind, Spanned(name, sp), None, Spanned(value, sp))
  }

  function Assignment(name: Id, op: AssignOp, sp: Span, value: Expr): Statement {
    Statement.Assign(Spanned(name, sp), Spanned(op, sp), Spanned(value, sp))
  }

  /** After a successful declaration the name reads back the declared value,
      and declaring it again fails without touching the state. */
  lemma DeclareThenRead(st: State, kind: DeclarationType, name: Id, sp: Span, value: Expr, again: Expr, fuel: nat)
    requires Exec(st, Decl(kind, name, sp, value), fuel).result.Ok?
    ensures var after := Exec(st, Decl(kind, name, sp, value), fuel).state;
      EvalExpr(after.vars, Expr.Variable(Spanned(name, sp))) == EvalExpr(st.vars, value)
      && Exec(after, Decl(kind, name, sp, again), fuel) == Outcome(after, Err(VariableAlreadyDeclared))
  {
  }

  /** A `let` name cannot be assigned: the assignment fails, after evaluating
      its right-hand side, and leaves the state as it was. A `var` name takes
      the assigned value. */
  lemma LetIsImmutable(st: State, name: Id, sp: Span, value: Expr, rhs: Expr, fuel: nat)
    requires Exec(st, Decl(DeclarationType.Immutable, name, sp, value), fuel).result.Ok?
    requires EvalExpr(Exec(st, Decl(DeclarationType.Immutable, name, sp, value), fuel).state.vars, rhs).Ok?
    ensures var after := Exec(st, Decl(DeclarationType.Immutable, name, sp, value), fuel).state;
      Exec(after, Assignment(name, AssignOp.Set, sp, rhs), fuel) == Outcome(after, Err(VariableImmutable))
  {
  }

  lemma VarIsMutable(st: State, name: Id, sp: Span, value: Expr, rhs: Expr, fuel: nat)
    requires Exec(st, Decl(DeclarationType.Mutable, name, sp, value), fuel).result.Ok?
    requires EvalExpr(Exec(st, Decl(DeclarationType.Mutable, name, sp, value), fuel).state.vars, rhs).Ok?
    ensures var after := Exec(st, Decl(DeclarationType.Mutable, name, sp, value), fuel).state;
      var o := Exec(after, Assignment(name, AssignOp.Set, sp, rhs), fuel);
      o.result.Ok? && o.state.vars[name] == Binding(EvalExpr(after.vars, rhs).value, true)
  {
  }

  /** A compound assignment whose operator fails keeps the old value, for
      example `x -= "s"` on an Integer `x`. */
  lemma FailedCompoundKeepsValue(st: State, name: Id, sp: Span, s: Symbol, fuel: nat)
    requires name in st.vars && st.vars[name].mutable && st.vars[name].value.Integer?
    ensures var lit := Expr.Literal(Literal.Literal(Spanned(String(s), sp)));
      Exec(st, Assignment(name, AssignOp.Sub, sp, lit), fuel) == Outcome(st, Err(InvalidOperationArguments))
  {
  }

  //---------------------------------------------------------------------------
  // Conditionals and loops
  //---------------------------------------------------------------------------

  function VarExpr(name: Id, sp: Span): Spanned<Expr> {
    Spanned(Expr.Variable(Spanned(name, sp)), sp)
  }

  function IntExpr(n: I32, sp: Span): Spanned<Expr> {
    Spanned(Expr.Literal(Literal.Literal(Spanned(Integer(n), sp))), sp)
  }

  /** `if` insists on a Boolean condition; `while` insists only on the first
      one. In `while x { x = 1 }` with `x` true, the body replaces `x` by an
      Integer whose truthiness is false, so the loop ends without failure,
      although `if x { ... }` in the resulting state fails. */
  lemma WhileEndsOnNonBoolean(st: State, x: Id, sp: Span, fuel: nat)
    requires fuel >= 1
    requires x in st.vars && st.vars[x] == Binding(Boolean(true), true)
    ensures var body := Spanned(Assignment(x, AssignOp.Set, sp, IntExpr(1, sp).value), sp);
      var after := State(st.vars[x := Binding(Integer(1), true)], st.output);
      Exec(st, Statement.WhileStmt(VarExpr(x, sp), body), fuel) == Outcome(after, Ok(()))
      && Exec(after, Statement.IfStmt(VarExpr(x, sp), body, None), fuel) == Outcome(after, Err(NotABool))
  {
    var body := Spanned(Assignment(x, AssignOp.Set, sp, IntExpr(1, sp).value), sp);
    var w := Statement.WhileStmt(VarExpr(x, sp), body);
    var after := State(st.vars[x := Binding(Integer(1), true)], st.output);
    assert Exec(st, body.value, fuel - 1) == Outcome(after, Ok(()));
    assert EvalExpr(after.vars, VarExpr(x, sp).value) == Ok(Integer(1));
    assert ExecLoop(st, w, fuel) == Outcome(after, Ok(()));
  }

  /** A loop whose condition stays true runs out of fuel. */
  lemma EndlessLoopRunsOutOfFuel(st: State, sp: Span, fuel: nat)
    ensures var loop := Statement.WhileStmt(Spanned(Expr.Literal(Literal.Literal(Spanned(Boolean(true), sp))), sp), Spanned(Statement.Empty, sp));
      Exec(st, loop, fuel) == Outcome(st, Err(OutOfFuel))
  {
    var loop := Statement.WhileStmt(Spanned(Expr.Literal(Literal.Literal(Spanned(Boolean(true), sp))), sp), Spanned(Statement.Empty, sp));
    EndlessLoopSpendsFuel(st, loop, fuel);
  }

  lemma {:induction false} EndlessLoopSpendsFuel(st: State, loop: Statement, fuel: nat)
    requires loop.WhileStmt? && loop.thenBranch.value == Statement.Empty
    requires loop.condition.value.Literal? && loop.condition.value.literal.value.value == Boolean(true)
    ensures ExecLoop(st, loop, fuel) == Outcome(st, Err(OutOfFuel))
    decreases fuel
  {
    if fuel > 0 {
      EndlessLoopSpendsFuel(st, loop, fuel - 1);
    }
  }

  //---------------------------------------------------------------------------
  // Match
  //---------------------------------------------------------------------------

  /** Only literal arms can run: a match whose arms are all wildcards or type
      names does nothing, once its value has been computed. */
  lemma NonLiteralArmsNeverRun(st: State, p: Spanned<Expr>, arms: seq<(Pattern, Statement)>, sp: Span, fuel: nat)
    requires forall i :: 0 <= i < |arms| ==> !arms[i].0.Literal?
    requires EvalExpr(st.vars, p.value).Ok?
    ensures Exec(st, Statement.MatchStmt(p, arms, sp), fuel) == Outcome(st, Ok(()))
  {
    assert FirstMatch(arms, EvalExpr(st.vars, p.value).value, 0).None?;
  }

  /** Of two arms with the same literal only the first runs. */
  lemma FirstEqualArmWins(st: State, p: Spanned<Expr>, lit: Literal, s1: Statement, s2: Statement, sp: Span, fuel: nat)
    requires EvalExpr(st.vars, p.value) == Ok(lit.value.value)
    ensures Exec(st, Statement.MatchStmt(p, [(Pattern.Literal(lit), s1), (Pattern.Literal(lit), s2)], sp), fuel)
         == Exec(st, s1, fuel)
  {
    assert FirstMatch([(Pattern.Literal(lit), s1), (Pattern.Literal(lit), s2)], lit.value.value, 0) == Some(0);
  }

  /** A pattern converted from an expression matches the expression's value ... */
  lemma ConvertedPatternMatches(env: Env, e: Expr)
    requires TryFromExpr(e).Ok?
    ensures EvalExpr(env, e).Ok? && Matches(TryFromExpr(e).value, EvalExpr(env, e).value)
  {
  }

  /** ... but an integer pattern never matches a Float, even of the same number. */
  lemma IntegerPatternMissesFloat(lit: Literal, i: I32)
    requires lit.value.value == Integer(i)
    ensures !Matches(Pattern.Literal(lit), Float(i as real))
  {
    IntegerIsNotFloat(i);
  }

  //---------------------------------------------------------------------------
  // Blocks
  //---------------------------------------------------------------------------

  /** Running a block from some position depends only on the statements from there on. */
  lemma {:induction false} ExecBlockSuffix(st: State, s: Statement, i: nat, t: Statement, j: nat, fuel: nat)
    requires s.Block? && t.Block? && i <= |s.statements| && j <= |t.statements|
    requires s.statements[i..] == t.statements[j..]
    ensures ExecBlock(st, s, i, fuel) == ExecBlock(st, t, j, fuel)
    decreases |s.statements| - i
  {
    assert |s.statements| - i == |s.statements[i..]| == |t.statements[j..]| == |t.statements| - j;
    if i < |s.statements| {
      assert s.statements[i] == s.statements[i..][0] == t.statements[j..][0] == t.statements[j];
      assert s.statements[i + 1..] == s.statements[i..][1..] == t.statements[j..][1..] == t.statements[j + 1..];
      var first := Exec(st, s.statements[i].value, fuel);
      if first.result.Ok? {
        ExecBlockSuffix(first.state, s, i + 1, t, j + 1, fuel);
      }
    }
  }

  /** Sequential composition: a block of `a + b` runs `a`, and runs `b` only if
      `a` succeeded, keeping the effects of `a` either way. */
  function Then(o: Outcome, b: seq<Spanned<Statement>>, fuel: nat): Outcome {
    if o.result.Err? then o else Exec(o.state, Statement.Block(b), fuel)
  }

  lemma BlockConcat(st: State, a: seq<Spanned<Statement>>, b: seq<Spanned<Statement>>, fuel: nat)
    ensures Exec(st, Statement.Block(a + b), fuel) == Then(Exec(st, Statement.Block(a), fuel), b, fuel)
  {
    BlockConcatFrom(st, a, b, 0, fuel);
  }

  lemma {:induction false} BlockConcatFrom(st: State, a: seq<Spanned<Statement>>, b: seq<Spanned<Statement>>, i: nat, fuel: nat)
    requires i <= |a|
    ensures ExecBlock(st, Statement.Block(a + b), i, fuel) == Then(ExecBlock(st, Statement.Block(a), i, fuel), b, fuel)
    decreases |a| - i
  {
    var ab := Statement.Block(a + b);
    if i == |a| {
      assert (a + b)[i..] == b[0..];
      ExecBlockSuffix(st, ab, i, Statement.Block(b), 0, fuel);
    } else {
      assert (a + b)[i] == a[i];
      var first := Exec(st, a[i].value, fuel);
      if first.result.Ok? {
        BlockConcatFrom(first.state, a, b, i + 1, fuel);
      }
    }
  }

  //---------------------------------------------------------------------------
  // The Error statement
  //---------------------------------------------------------------------------

  /** A statement without `Error` inside never fails with the Error-statement
      failure: that failure only reports a parse failure. */
  lemma {:induction false} ErrorFreeNeverFailsAsError(st: State, s: Statement, fuel: nat)
    requires ErrorFree(s)
    ensures Exec(st, s, fuel).result != Err(ErrorStatement)
    decreases fuel, s
  {
    match s
    case Block(_) => BlockErrorFree(st, s, 0, fuel);
    case IfStmt(c, t, e) =>
      ErrorFreeNeverFailsAsError(st, t.value, fuel);
      if e.Some? {
        ErrorFreeNeverFailsAsError(st, e.value.value, fuel);
      }
    case MatchStmt(p, arms, _) =>
      if EvalExpr(st.vars, p.value).Ok? {
        var k := FirstMatch(arms, EvalExpr(st.vars, p.value).value, 0);
        if k.Some? {
          ErrorFreeNeverFailsAsError(st, arms[k.value].1, fuel);
        }
      }
    case WhileStmt(_, _) => LoopErrorFree(st, s, fuel);
    case _ =>
  }

  lemma {:induction false} BlockErrorFree(st: State, s: Statement, i: nat, fuel: nat)
    requires s.Block? && ErrorFree(s) && i <= |s.statements|
    ensures ExecBlock(st, s, i, fuel).result != Err(ErrorStatement)
    decreases fuel, s, |s.statements| - i
  {
    if i < |s.statements| {
      ErrorFreeNeverFailsAsError(st, s.statements[i].value, fuel);
      var first := Exec(st, s.statements[i].value, fuel);
      if first.result.Ok? {
        BlockErrorFree(first.state, s, i + 1, fuel);
      }
    }
  }

  lemma {:induction false} LoopErrorFree(st: State, s: Statement, fuel: nat)
    requires s.WhileStmt? && ErrorFree(s)
    ensures ExecLoop(st, s, fuel).result != Err(ErrorStatement)
    decreases fuel, s, 0
  {
    if fuel > 0 {
      ErrorFreeNeverFailsAsError(st, s.thenBranch.value, fuel - 1);
      var body := Exec(st, s.thenBranch.value, fuel - 1);
      if body.result.Ok? && EvalExpr(body.state.vars, s.condition.value).Ok? {
        LoopErrorFree(body.state, s, fuel - 1);
      }
    }
  }
}
