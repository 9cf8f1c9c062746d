/** The tree-walking interpreter: an object whose `vars` map the statement
    methods update in place. Printing by `test` appends the printed value to
    `output`. Every statement method is proved to leave the object in the
    state, and to return the result, that `Semantics.Exec` gives. */
module Interpreter {
  import opened Results
  import opened Spans
  import opened Objects
  import opened ValTypes
  import opened Misc
  import opened Exprs
  import opened Patterns
  import opened Stmts
  import opened Semantics

  class Interperter {
    var vars: Env
    var output: seq<Object>

    /** `Default`: no variables yet. */
    constructor ()
      ensures vars == map[] && output == []
    {
      vars := map[];
      output := [];
    }

    function Current(): State
      reads this
    {
      State(vars, output)
    }

    /** `block_eval`: the statements in order, stopping at the first failure. */
    method BlockEval(s: Statement, fuel: nat) returns (r: Result<()>)
      requires s.Block?
      modifies this
      ensures Outcome(Current(), r) == Exec(old(Current()), s, fuel)
      decreases fuel, s, 0
    {
      ghost var start := Current();
      var statements := s.statements;
      for i := 0 to |statements|
        invariant ExecBlock(start, s, 0, fuel) == ExecBlock(Current(), s, i, fuel)
      {
        r := StmtEval(statements[i].value, fuel);
        if r.Err? {
          return;
        }
      }
      r := Ok(());
    }

    /** `assign_eval`. */
    method AssignEval(name: Id, op: AssignOp, value: Expr) returns (r: Result<()>)
      modifies this
      ensures Outcome(Current(), r) == ExecAssign(old(Current()), name, op, value)
    {
      var val := EvalExpr(vars, value);
      if val.Err? {
        return Err(val.error);
      }
      if name !in vars {
        return Err(VariableDoesNotExist);
      }
      var binding := vars[name];
      if !binding.mutable {
        return Err(VariableImmutable);
      }
      var updated := ApplyAssign(op, binding.value, val.value);
      if updated.Err? {
        return Err(updated.error);
      }
      vars := vars[name := Binding(updated.value, binding.mutable)];
      r := Ok(());
    }

    /** `declar_eval`. */
    method DeclarEval(kind: DeclarationType, name: Id, value: Expr) returns (r: Result<()>)
      modifies this
      ensures Outcome(Current(), r) == ExecDeclaration(old(Current()), kind, name, value)
    {
      if name in vars {
        return Err(VariableAlreadyDeclared);
      }
      var mutable := kind == DeclarationType.Mutable;
      var val := EvalExpr(vars, value);
      if val.Err? {
        return Err(val.error);
      }
      vars := vars[name := Binding(val.value, mutable)];
      r := Ok(());
    }

    /** `if_eval`. */
    method IfEval(s: Statement, fuel: nat) returns (r: Result<()>)
      requires s.IfStmt?
      modifies this
      ensures Outcome(Current(), r) == Exec(old(Current()), s, fuel)
      decreases fuel, s, 0
    {
      var c := EvalExpr(vars, s.condition.value);
      if c.Err? {
        return Err(c.error);
      }
      if !c.value.Boolean? {
        return Err(NotABool);
      }
      if c.value.b {
        r := StmtEval(s.thenBranch.value, fuel);
      } else if s.elseBranch.Some? {
        r := StmtEval(s.elseBranch.value.value, fuel);
      } else {
        r := Ok(());
      }
    }

    /** `match_eval`: runs the first literal arm equal to the value, if any. */
    method MatchEval(s: Statement, fuel: nat) returns (r: Result<()>)
      requires s.MatchStmt?
      modifies this
      ensures Outcome(Current(), r) == Exec(old(Current()), s, fuel)
      decreases fuel, s, 0
    {
      ghost var start := Current();
      var key := EvalExpr(vars, s.matchPredicate.value);
      if key.Err? {
        return Err(key.error);
      }
      var arms := s.thenBranches;
      var found := false;
      for i := 0 to |arms|
        invariant !found && Current() == start
        invariant FirstMatch(arms, key.value, 0) == FirstMatch(arms, key.value, i)
      {
        if arms[i].0.Literal? && arms[i].0.literal.value.value == key.value {
          r := StmtEval(arms[i].1, fuel);
          assert Outcome(Current(), r) == Exec(start, s, fuel);
          if r.Err? {
            return;
          }
          found := true;
          assert r == Ok(()) by {
            var unit: () := r.value;
            assert unit == ();
          }
          break;
        }
      }
      r := Ok(());
    }

    /** `while_eval`: the first condition must be a Boolean; later ones are
        taken by truthiness. Every iteration spends one unit of fuel. */
    method WhileEval(s: Statement, fuel: nat) returns (r: Result<()>)
      requires s.WhileStmt?
      modifies this
      ensures Outcome(Current(), r) == Exec(old(Current()), s, fuel)
      decreases fuel, s, 0
    {
      ghost var start := Current();
      var c := EvalExpr(vars, s.condition.value);
      if c.Err? {
        return Err(c.error);
      }
      if !c.value.Boolean? {
        return Err(NotABool);
      }
      var b := c.value.b;
      var f: nat := fuel;
      while b
        invariant f <= fuel
        invariant Exec(start, s, fuel) == if b then ExecLoop(Current(), s, f) else Outcome(Current(), Ok(()))
        decreases f
      {
        if f == 0 {
          return Err(OutOfFuel);
        }
        r := StmtEval(s.thenBranch.value, f - 1);
        if r.Err? {
          return;
        }
        var next := EvalExpr(vars, s.condition.value);
        if next.Err? {
          return Err(next.error);
        }
        b := Truthy(next.value);
        f := f - 1;
      }
      r := Ok(());
    }

    /** `test_eval`: evaluates the expression and prints it. */
    method TestEval(e: Expr) returns (r: Result<()>)
      modifies this
      ensures Outcome(Current(), r) == ExecTest(old(Current()), e)
    {
      var obj := EvalExpr(vars, e);
      if obj.Err? {
        return Err(obj.error);
      }
      output := output + [obj.value];
      r := Ok(());
    }

    /** `stmt_eval`. */
    method StmtEval(s: Statement, fuel: nat) returns (r: Result<()>)
      modifies this
      ensures Outcome(Current(), r) == Exec(old(Current()), s, fuel)
      decreases fuel, s
    {
      match s
      case Error => r := Err(ErrorStatement);
      case Empty => r := Ok(());
      case Test(e) => r := TestEval(e);
      case Assign(name, op, value) => r := AssignEval(name.value, op.value, value.value);
      case Block(_) => r := BlockEval(s, fuel);
      case Expression(_) => r := Err(Unimplemented);
      case Declaration(kind, name, _, value) => r := DeclarEval(kind, name.value, value.value);
      case FuncDeclaration(_, _, _, _) => r := Err(Unimplemented);
      case IfStmt(_, _, _) => r := IfEval(s, fuel);
      case MatchStmt(_, _, _) => r := MatchEval(s, fuel);
      case WhileStmt(_, _) => r := WhileEval(s, fuel);
      case Defer(_) => r := Err(Unimplemented);
    }
  }
}
