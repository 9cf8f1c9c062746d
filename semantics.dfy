/** The meaning of expressions and statements, as functions of the variable
    map and the output log. The `Interperter` class runs statements by
    updating its fields in place and is proved to do what these functions say.

    A `while` loop need not terminate, so statement execution takes a `fuel`
    bound: every iteration of a loop spends one unit, and a loop that would
    need more than it has ends with the `OutOfFuel` failure. */
module Semantics {
  import opened Results
  import opened Spans
  import opened Objects
  import opened ValTypes
  import opened Misc
  import opened Exprs
  import opened Patterns
  import opened Stmts

  /** A variable's value and whether it was declared with `var` (mutable). */
  datatype Binding = Binding(value: Object, mutable: bool)

  /** The `vars` map: identifier hash to binding. */
  type Env = map<Id, Binding>

  /** The interpreter's fields, and the values `test` has printed so far. */
  datatype State = State(vars: Env, output: seq<Object>)

  /** The state after a statement, and whether it succeeded. A failure keeps
      the effects of everything that ran before it. */
  datatype Outcome = Outcome(state: State, result: Result<()>)

  //---------------------------------------------------------------------------
  // Expressions
  //---------------------------------------------------------------------------

  predicate IsComparison(op: BinaryOp) {
    op in {BinaryOp.GreaterThan, BinaryOp.GreaterThanEqual, BinaryOp.LessThan, BinaryOp.LessThanEqual,
           BinaryOp.Equal, BinaryOp.NotEqual, BinaryOp.And, BinaryOp.Or}
  }

  /** `unary_eval` once its operand has been evaluated. */
  function EvalUnary(op: UnaryOp, v: Object): (r: Result<Object>)
    ensures r.Err? ==> r.error in {InvalidValueType, IntegerOverflow}
  {
    match op
    case Neg => NegObject(v)
    case Not => NotObject(v)
  }

  /** `binary_eval` once both operands have been evaluated: arithmetic through
      the operator impls as they are written, comparisons through derived equality and ordering,
      `and`/`or` through truthiness. Comparisons always give a Boolean. */
  function EvalBinary(op: BinaryOp, l: Object, r: Object): (res: Result<Object>)
    ensures IsComparison(op) ==> res.Ok? && res.value.Boolean?
    ensures res.Err? ==> !IsComparison(op)
    ensures res.Err? ==> res.error in {InvalidOperationArguments, IntegerOverflow, DecimalDivisionByZero}
  {
    match op
    case Add => AddObjects(l, r)
    case Sub => SubObjectsAsWritten(l, r)
    case Mul => MulObjects(l, r)
    case Div => DivObjectsAsWritten(l, r)
    case GreaterThan => Ok(Boolean(Compare(l, r) > 0))
    case GreaterThanEqual => Ok(Boolean(Compare(l, r) >= 0))
    case LessThan => Ok(Boolean(Compare(l, r) < 0))
    case LessThanEqual => Ok(Boolean(Compare(l, r) <= 0))
    case Equal => Ok(Boolean(l == r))
    case NotEqual => Ok(Boolean(l != r))
    case And => Ok(Boolean(Truthy(l) && Truthy(r)))
    case Or => Ok(Boolean(Truthy(l) || Truthy(r)))
  }

  /** The failures an expression can have: those of the operators, an
      undeclared variable, and an unimplemented call. */
  predicate ExprFailure(k: ErrorKind) {
    k in {InvalidOperationArguments, InvalidValueType, IntegerOverflow, DecimalDivisionByZero,
          VariableDoesNotExist, Unimplemented}
  }

  /** `expr_eval`. It only reads the variables. */
  function EvalExpr(env: Env, e: Expr): (r: Result<Object>)
    ensures r.Err? ==> ExprFailure(r.error)
    decreases e
  {
    match e
    case Binary(left, op, right) =>
      var l :- EvalExpr(env, left.value);
      var r :- EvalExpr(env, right.value);
      EvalBinary(op.value, l, r)
    case Unary(op, operand) =>
      var v :- EvalExpr(env, operand.value);
      EvalUnary(op.value, v)
    case Literal(lit) => Ok(lit.value.value)
    case Variable(name) =>
      if name.value in env then Ok(env[name.value].value) else Err(VariableDoesNotExist)
    case TenaryIfStmt(condition, value, elseValue) =>
      var c :- EvalExpr(env, condition.value);
      if Truthy(c) then EvalExpr(env, value.value) else EvalExpr(env, elseValue.value)
    case FunctionCall(_, _) => Err(Unimplemented)
  }

  //---------------------------------------------------------------------------
  // The evolution of the variable map
  //---------------------------------------------------------------------------

  /** What running statements can do to the map: names are only added, a
      name's mutability never changes, and an immutable name keeps its value. */
  predicate Evolves(before: Env, after: Env) {
    forall x :: x in before ==>
      x in after && after[x].mutable == before[x].mutable
      && (!before[x].mutable ==> after[x] == before[x])
  }

  /** What running statements can do to the state: the map evolves and the
      output only grows. */
  predicate Advances(before: State, after: State) {
    Evolves(before.vars, after.vars) && before.output <= after.output
  }

  //---------------------------------------------------------------------------
  // Simple statements
  //---------------------------------------------------------------------------

  /** The binary operator a compound assignment applies. */
  function CompoundOp(op: AssignOp): BinaryOp
    requires op != AssignOp.Set
  {
    match op
    case Add => BinaryOp.Add
    case Sub => BinaryOp.Sub
    case Mul => BinaryOp.Mul
    case Div => BinaryOp.Div
  }

  /** The compound assignment `current op= rhs`, which is `current op rhs` through
      the operator impls as written; `=` just takes the right-hand side. */
  function ApplyAssign(op: AssignOp, current: Object, rhs: Object): (r: Result<Object>)
    ensures op == AssignOp.Set ==> r == Ok(rhs)
    ensures op == AssignOp.Add ==> r == AddObjects(current, rhs)
    ensures op == AssignOp.Sub ==> r == SubObjectsAsWritten(current, rhs)
    ensures op == AssignOp.Mul ==> r == MulObjects(current, rhs)
    ensures op == AssignOp.Div ==> r == DivObjectsAsWritten(current, rhs)
    ensures op != AssignOp.Set ==> r == EvalBinary(CompoundOp(op), current, rhs)
  {
    match op
    case Set => Ok(rhs)
    case Add => AddObjects(current, rhs)
    case Sub => SubObjectsAsWritten(current, rhs)
    case Mul => MulObjects(current, rhs)
    case Div => DivObjectsAsWritten(current, rhs)
  }

  /** `assign_eval`: the right-hand side first, then the name must exist and be
      mutable; a failing compound operator leaves the old value in place. */
  function ExecAssign(st: State, name: Id, op: AssignOp, value: Expr): (o: Outcome)
    ensures Advances(st, o.state) && o.state.output == st.output
    ensures o.result.Err? ==> o.state == st
    ensures o.result.Ok? <==>
      EvalExpr(st.vars, value).Ok? && name in st.vars && st.vars[name].mutable
      && ApplyAssign(op, st.vars[name].value, EvalExpr(st.vars, value).value).Ok?
    ensures o.result.Ok? ==>
      o.state.vars == st.vars[name := Binding(ApplyAssign(op, st.vars[name].value, EvalExpr(st.vars, value).value).value, true)]
  {
    match EvalExpr(st.vars, value)
    case Err(e) => Outcome(st, Err(e))
    case Ok(v) =>
      if name !in st.vars then Outcome(st, Err(VariableDoesNotExist))
      else if !st.vars[name].mutable then Outcome(st, Err(VariableImmutable))
      else
        match ApplyAssign(op, st.vars[name].value, v)
        case Err(e) => Outcome(st, Err(e))
        case Ok(nv) => Outcome(State(st.vars[name := Binding(nv, true)], st.output), Ok(()))
  }

  /** `declar_eval`: a name already present fails before the value is
      evaluated; otherwise the value's binding is inserted, mutable for `var`. */
  function ExecDeclaration(st: State, kind: DeclarationType, name: Id, value: Expr): (o: Outcome)
    ensures Advances(st, o.state) && o.state.output == st.output
    ensures o.result.Err? ==> o.state == st
    ensures name in st.vars ==> o.result == Err(VariableAlreadyDeclared)
    ensures o.result.Ok? <==> name !in st.vars && EvalExpr(st.vars, value).Ok?
    ensures o.result.Ok? ==>
      o.state.vars == st.vars[name := Binding(EvalExpr(st.vars, value).value, kind == DeclarationType.Mutable)]
  {
    if name in st.vars then Outcome(st, Err(VariableAlreadyDeclared))
    else
      match EvalExpr(st.vars, value)
      case Err(e) => Outcome(st, Err(e))
      case Ok(v) => Outcome(State(st.vars[name := Binding(v, kind == DeclarationType.Mutable)], st.output), Ok(()))
  }

  /** `test_eval`: evaluates the expression and prints it. */
  function ExecTest(st: State, e: Expr): (o: Outcome)
    ensures o.state.vars == st.vars
    ensures o.result.Ok? <==> EvalExpr(st.vars, e).Ok?
    ensures o.result.Ok? ==> o.state.output == st.output + [EvalExpr(st.vars, e).value]
    ensures o.result.Err? ==> o.state == st
  {
    match EvalExpr(st.vars, e)
    case Err(err) => Outcome(st, Err(err))
    case Ok(v) => Outcome(State(st.vars, st.output + [v]), Ok(()))
  }

  /** The line `test` prints for a value. */
  function TestLine(o: Object, floatText: real -> string): (s: string)
    ensures |s| == 12 + |Display(o, floatText)|
    ensures s[..12] == "Test Output:" && s[12..] == Display(o, floatText)
  {
    "Test Output:" + Display(o, floatText)
  }

  //---------------------------------------------------------------------------
  // Match arms
  //---------------------------------------------------------------------------

  /** An arm runs only if its pattern is a literal equal to the value. */
  predicate Matches(p: Pattern, v: Object): (m: bool)
    ensures m ==> p.Literal?
    ensures p.Literal? ==> (m <==> p.literal.value.value == v)
  {
    p.Literal? && p.literal.value.value == v
  }

  /** The first arm at or after `i` whose pattern matches. */
  function FirstMatch(arms: seq<(Pattern, Statement)>, v: Object, i: nat): (k: Option<nat>)
    requires i <= |arms|
    ensures k.Some? ==> i <= k.value < |arms| && Matches(arms[k.value].0, v)
    ensures k.Some? ==> forall j :: i <= j < k.value ==> !Matches(arms[j].0, v)
    ensures k.None? ==> forall j :: i <= j < |arms| ==> !Matches(arms[j].0, v)
    decreases |arms| - i
  {
    if i == |arms| then None
    else if Matches(arms[i].0, v) then Some(i)
    else FirstMatch(arms, v, i + 1)
  }

  //---------------------------------------------------------------------------
  // Statements
  //---------------------------------------------------------------------------

  /** `stmt_eval`. `Expression`, `FuncDeclaration` and `Defer` have no
      evaluation yet and fail as unimplemented. */
  function Exec(st: State, s: Statement, fuel: nat): (o: Outcome)
    ensures Advances(st, o.state)
    decreases fuel, s
  {
    match s
    case Error => Outcome(st, Err(ErrorStatement))
    case Empty => Outcome(st, Ok(()))
    case Test(e) => ExecTest(st, e)
    case Assign(name, op, value) => ExecAssign(st, name.value, op.value, value.value)
    case Block(_) => ExecBlock(st, s, 0, fuel)
    case Expression(_) => Outcome(st, Err(Unimplemented))
    case Declaration(kind, name, _, value) => ExecDeclaration(st, kind, name.value, value.value)
    case FuncDeclaration(_, _, _, _) => Outcome(st, Err(Unimplemented))
    case IfStmt(condition, thenBranch, elseBranch) =>
      (match EvalExpr(st.vars, condition.value)
       case Err(e) => Outcome(st, Err(e))
       case Ok(c) =>
         if !c.Boolean? then Outcome(st, Err(NotABool))
         else if c.b then Exec(st, thenBranch.value, fuel)
         else if elseBranch.Some? then Exec(st, elseBranch.value.value, fuel)
         else Outcome(st, Ok(())))
    case MatchStmt(p, arms, _) =>
      (match EvalExpr(st.vars, p.value)
       case Err(e) => Outcome(st, Err(e))
       case Ok(v) =>
         var k := FirstMatch(arms, v, 0);
         if k.None? then Outcome(st, Ok(())) else Exec(st, arms[k.value].1, fuel))
    case WhileStmt(condition, _) =>
      (match EvalExpr(st.vars, condition.value)
       case Err(e) => Outcome(st, Err(e))
       case Ok(c) =>
         if !c.Boolean? then Outcome(st, Err(NotABool))
         else if c.b then ExecLoop(st, s, fuel)
         else Outcome(st, Ok(())))
    case Defer(_) => Outcome(st, Err(Unimplemented))
  }

  /** `block_eval` from the `i`-th statement on: stops at the first failure. */
  function ExecBlock(st: State, s: Statement, i: nat, fuel: nat): (o: Outcome)
    requires s.Block? && i <= |s.statements|
    ensures Advances(st, o.state)
    decreases fuel, s, |s.statements| - i
  {
    if i == |s.statements| then Outcome(st, Ok(()))
    else
      var first := Exec(st, s.statements[i].value, fuel);
      if first.result.Err? then first
      else
        var rest := ExecBlock(first.state, s, i + 1, fuel);
        rest
  }

  /** `while_eval` after a condition that held: run the body, then re-test
      the condition by truthiness, so a non-Boolean ends the loop. */
  function ExecLoop(st: State, s: Statement, fuel: nat): (o: Outcome)
    requires s.WhileStmt?
    ensures Advances(st, o.state)
    decreases fuel, s, 0
  {
    if fuel == 0 then Outcome(st, Err(OutOfFuel))
    else
      var body := Exec(st, s.thenBranch.value, fuel - 1);
      if body.result.Err? then body
      else
        match EvalExpr(body.state.vars, s.condition.value)
        case Err(e) => Outcome(body.state, Err(e))
        case Ok(c) =>
          if Truthy(c) then
            var rest := ExecLoop(body.state, s, fuel - 1);
            rest
          else
            Outcome(body.state, Ok(()))
  }
}
