/** Operator precedence and associativity of the binary parser, for every
    token sequence.

    A parenthesised expression leaves no trace in the tree (the atom is the
    inner node), so the shape of a tree says something about precedence only
    where no parentheses were written. On such input, `Tiered(e, b)` is the
    shape the tier chain builds: the operator of every `Binary` node lies in
    a tier no looser than `b`; its left operand may hold operators of the same
    tier (the tiers fold left), its right operand only operators of strictly
    tighter tiers; and the operand of a prefix operator holds no binary
    operator at all. */
module Precedence {
  import opened Results
  import opened Spans
  import opened Misc
  import opened Exprs
  import opened Tokens
  import opened Parser

  /** The tier whose `or_` list holds the operator. */
  function OpTier(op: BinaryOp): (t: Tier)
    ensures op in TierOps(t)
  {
    match op
    case Mul => Product
    case Div => Product
    case Add => Sum
    case Sub => Sum
    case _ => Comparison
  }

  predicate Tiered(e: Expr, bound: int)
    decreases e
  {
    match e
    case Binary(l, op, r) =>
      var t := TierIndex(OpTier(op.value)) as int;
      t <= bound && Tiered(l.value, t) && Tiered(r.value, t - 1)
    case Unary(_, operand) => Tiered(operand.value, -1)
    case Literal(_) => true
    case Variable(_) => true
    case _ => false
  }

  /** No `(` from `pos` on. */
  predicate NoParens(toks: seq<Token>, pos: nat) {
    forall k :: pos <= k < |toks| ==> toks[k].kind != LeftParenthesis
  }

  /** A tree shaped for a tier is shaped for every looser one. */
  lemma TieredWeaken(e: Expr, b: int, b': int)
    requires Tiered(e, b) && b <= b'
    ensures Tiered(e, b')
  {
  }

  /** At the root of a tiered tree, no operand is a `Binary` of a looser tier,
      and the right operand is no `Binary` of the same tier either. */
  lemma TieredRoot(e: Expr, b: int)
    requires Tiered(e, b) && e.Binary?
    ensures TierIndex(OpTier(e.operator.value)) <= b
    ensures e.left.value.Binary? ==>
      TierIndex(OpTier(e.left.value.operator.value)) <= TierIndex(OpTier(e.operator.value))
    ensures e.right.value.Binary? ==>
      TierIndex(OpTier(e.right.value.operator.value)) < TierIndex(OpTier(e.operator.value))
  {
  }

  /** Without `(`, an atom is a literal or a variable. */
  lemma AtomTiered(toks: seq<Token>, pos: nat)
    requires pos <= |toks| && NoParens(toks, pos)
    ensures ParseAtom(toks, pos).Some? ==> Tiered(ParseAtom(toks, pos).value.node, -1)
  {
    if pos < |toks| {
      assert toks[pos].kind != LeftParenthesis;
    }
  }

  /** Prefix operators over an operand without binary operators keep it so. */
  lemma {:induction false} FoldRightTiered(ops: seq<Spanned<UnaryOp>>, operand: Spanned<Expr>)
    requires Tiered(operand.value, -1)
    ensures Tiered(FoldRight(ops, operand).value, -1)
    decreases |ops|
  {
    if ops != [] {
      FoldRightTiered(ops[1..], operand);
    }
  }

  lemma UnaryTiered(toks: seq<Token>, pos: nat)
    requires pos <= |toks| && NoParens(toks, pos)
    ensures ParseUnary(toks, pos).Some? ==> Tiered(ParseUnary(toks, pos).value.node.value, -1)
  {
    var ops := PrefixOps(toks, pos);
    var atom := ParseAtom(toks, ops.next);
    if atom.Some? {
      AtomTiered(toks, ops.next);
      FoldRightTiered(ops.node, Spanning(toks, ops.next, atom.value).node);
    }
  }

  /** The (operator, operand) pairs a tier collects. */
  predicate PairsTiered(pairs: seq<(Spanned<BinaryOp>, Spanned<Expr>)>, tier: Tier) {
    forall k :: 0 <= k < |pairs| ==>
      OpTier(pairs[k].0.value) == tier && Tiered(pairs[k].1.value, TierIndex(tier) as int - 1)
  }

  /** An operand of a tier holds only operators of strictly tighter tiers. */
  lemma {:induction false} OperandTiered(toks: seq<Token>, pos: nat, tier: Tier)
    requires pos <= |toks| && NoParens(toks, pos)
    ensures ParseOperand(toks, pos, tier).Some? ==>
      Tiered(ParseOperand(toks, pos, tier).value.node.value, TierIndex(tier) as int - 1)
    decreases TierIndex(tier), |toks| - pos, 1
  {
    match tier
    case Product => UnaryTiered(toks, pos);
    case Sum => TierTiered(toks, pos, Product);
    case Comparison => TierTiered(toks, pos, Sum);
  }

  lemma {:induction false} PairsAreTiered(toks: seq<Token>, pos: nat, tier: Tier)
    requires pos <= |toks| && NoParens(toks, pos)
    ensures PairsTiered(TierPairs(toks, pos, tier).node, tier)
    decreases TierIndex(tier), |toks| - pos, 0
  {
    if pos < |toks| && TierOp(tier, toks[pos].kind).Some? {
      var op := Spanned(TierOp(tier, toks[pos].kind).value, toks[pos].span);
      var rhs := ParseOperand(toks, pos + 1, tier);
      if rhs.Some? {
        OperandTiered(toks, pos + 1, tier);
        var rest := TierPairs(toks, rhs.value.next, tier);
        PairsAreTiered(toks, rhs.value.next, tier);
        TierOpIsInTier(tier, toks[pos].kind);
        PairsCons(op, rhs.value.node, rest.node, tier);
      }
    }
  }

  /** A token's operator in a tier belongs to that tier. */
  lemma TierOpIsInTier(tier: Tier, k: TokenType)
    requires TierOp(tier, k).Some?
    ensures OpTier(TierOp(tier, k).value) == tier
  {
  }

  /** Prepending a pair of the tier keeps the list tiered. */
  lemma PairsCons(op: Spanned<BinaryOp>, rhs: Spanned<Expr>, rest: seq<(Spanned<BinaryOp>, Spanned<Expr>)>, tier: Tier)
    requires OpTier(op.value) == tier && Tiered(rhs.value, TierIndex(tier) as int - 1)
    requires PairsTiered(rest, tier)
    ensures PairsTiered([(op, rhs)] + rest, tier)
  {
    var all := [(op, rhs)] + rest;
    assert forall k :: 1 <= k < |all| ==> all[k] == rest[k - 1];
  }

  /** The left fold keeps a tier's shape: each new root has the folded tree
      on its left and a tighter operand on its right. */
  lemma {:induction false} FoldLeftTiered(tier: Tier, lhs: Spanned<Expr>, pairs: seq<(Spanned<BinaryOp>, Spanned<Expr>)>)
    requires Tiered(lhs.value, TierIndex(tier) as int) && PairsTiered(pairs, tier)
    ensures Tiered(FoldLeft(tier, lhs, pairs).value, TierIndex(tier) as int)
    decreases |pairs|
  {
    if pairs != [] {
      var j := Join(tier, lhs, pairs[0].0, pairs[0].1);
      assert Tiered(j.value, TierIndex(tier) as int);
      assert PairsTiered(pairs[1..], tier) by {
        assert forall k :: 0 <= k < |pairs[1..]| ==> pairs[1..][k] == pairs[k + 1];
      }
      FoldLeftTiered(tier, j, pairs[1..]);
    }
  }

  /** A tier builds a tree shaped for that tier. */
  lemma {:induction false} TierTiered(toks: seq<Token>, pos: nat, tier: Tier)
    requires pos <= |toks| && NoParens(toks, pos)
    ensures ParseTier(toks, pos, tier).Some? ==>
      Tiered(ParseTier(toks, pos, tier).value.node.value, TierIndex(tier) as int)
    decreases TierIndex(tier), |toks| - pos, 2
  {
    var first := ParseOperand(toks, pos, tier);
    if first.Some? {
      OperandTiered(toks, pos, tier);
      TieredWeaken(first.value.node.value, TierIndex(tier) as int - 1, TierIndex(tier) as int);
      var pairs := TierPairs(toks, first.value.next, tier);
      PairsAreTiered(toks, first.value.next, tier);
      FoldLeftTiered(tier, first.value.node, pairs.node);
    }
  }

  /** `binary_parser` on input without parentheses: products bind tighter
      than sums, sums tighter than comparisons, each tier groups to the left,
      and prefix operators apply to a single atom. */
  lemma BinaryPrecedence(toks: seq<Token>, pos: nat)
    requires pos <= |toks| && NoParens(toks, pos)
    ensures ParseBinary(toks, pos).Some? ==> Tiered(ParseBinary(toks, pos).value.node, 2)
  {
    TierTiered(toks, pos, Comparison);
  }
}
