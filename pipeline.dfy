/** The driver after scanning: the token stream is parsed into one statement,
    which a fresh interpreter then evaluates. */
module Pipeline {
  import opened Results
  import opened Spans
  import opened Objects
  import opened Exprs
  import opened Patterns
  import opened Stmts
  import opened Tokens
  import opened Parser
  import opened Semantics
  import opened SemanticsLemmas
  import opened Interpreter

  /** Whether the whole token stream is one statement. */
  predicate Parses(toks: seq<Token>)
  {
    ParseStmt(toks, 0).Some? && ParseStmt(toks, 0).value.next == |toks|
  }

  /** `run` from the tokens on. The only way it fails with `ErrorStatement`
      is that the tokens are not a single statement, and then nothing is
      printed. */
  method Run(toks: seq<Token>, fuel: nat) returns (r: Result<()>, printed: seq<Object>)
    ensures r == Exec(State(map[], []), Parse(toks), fuel).result
    ensures printed == Exec(State(map[], []), Parse(toks), fuel).state.output
    ensures r == Err(ErrorStatement) <==> !Parses(toks)
    ensures !Parses(toks) ==> printed == []
  {
    var stmt := Parse(toks);
    var interperter := new Interperter();
    r := interperter.StmtEval(stmt, fuel);
    printed := interperter.output;
    if Parses(toks) {
      ErrorFreeNeverFailsAsError(State(map[], []), stmt, fuel);
    }
  }

  /** The value a literal token stands for. */
  function TokenValue(k: TokenType): Option<Object> {
    match k
    case True => Some(Boolean(true))
    case False => Some(Boolean(false))
    case Null => Some(NullValue)
    case StringLiteral(s) => Some(String(Intern(s)))
    case CharLiteral(c) => Some(Integer(c as int))
    case Number(i) => Some(Integer(i))
    case FloatingNumber(f) => Some(Float(f))
    case _ => None
  }

  /** A literal token is a one-token atom which, in any environment,
      evaluates to the value the token stands for. */
  lemma LiteralTokenEvaluates(env: Env, toks: seq<Token>, pos: nat)
    requires pos < |toks| && TokenValue(toks[pos].kind).Some?
    ensures ParseAtom(toks, pos).Some? && ParseAtom(toks, pos).value.next == pos + 1
    ensures EvalExpr(env, ParseAtom(toks, pos).value.node) == Ok(TokenValue(toks[pos].kind).value)
    ensures toks[pos].kind.StringLiteral? ==>
      Resolve(EvalExpr(env, ParseAtom(toks, pos).value.node).value.sym) == toks[pos].kind.text
  {
  }

  /** An identifier token is a one-token atom that reads its variable. */
  lemma IdentifierTokenReads(env: Env, toks: seq<Token>, pos: nat)
    requires pos < |toks| && toks[pos].kind.Identifier?
    ensures ParseAtom(toks, pos).Some? && ParseAtom(toks, pos).value.next == pos + 1
    ensures var id := toks[pos].kind.id;
      EvalExpr(env, ParseAtom(toks, pos).value.node)
        == if id in env then Ok(env[id].value) else Err(VariableDoesNotExist)
  {
  }

  /** The pattern tokens: `_`, an integer and a type name each make a
      one-token pattern, and only the integer's pattern ever selects an arm,
      exactly for the equal `Integer`. */
  lemma PatternTokenMatches(toks: seq<Token>, pos: nat, v: Object)
    requires pos < |toks|
    ensures var k := toks[pos].kind;
      ParsePattern(toks, pos).Some? <==> k.WildCard? || k.Number? || k.Identifier?
    ensures ParsePattern(toks, pos).Some? ==>
      (Matches(ParsePattern(toks, pos).value.node, v) <==> toks[pos].kind.Number? && v == Integer(toks[pos].kind.n))
  {
  }
}
