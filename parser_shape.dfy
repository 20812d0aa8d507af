/**
 * The shape of every expression the reference parser builds: precedence and left
 * association over any input without parentheses, and the tokens an operand tree spans.
 */
module ParserShape {
  import opened Wrappers
  import opened Lexing
  import opened Ast
  import opened Parsing
  import opened ParserProps
  import LexerProps

  // ---------------------------------------------------------------------------
  // Precedence and left association

  /**
   * The tree precedence and left association give: an operator binds no looser than
   * `level`; its left operand binds no looser than the operator itself, and its right
   * operand strictly tighter, so an operator of the same level never sits on the right.
   * `-` and `!` apply to a whole expression. Level -1 admits no binary operator at all.
   */
  predicate Ranked(n: Node, level: int) {
    match n
    case BinOpNode(l, op, r) =>
      LevelOf(op.kind) <= level && Ranked(l, LevelOf(op.kind)) && Ranked(r, LevelOf(op.kind) - 1)
    case UnaryOpNode(v, _) => Ranked(v, 2)
    case _ => true
  }

  /** No `(` from index `i` on: the tree then has no parentheses to hide. */
  predicate NoParens(ts: seq<Token>, i: nat) {
    forall k :: i <= k < |ts| ==> ts[k].kind != LPAREN
  }

  lemma RankedWeaken(n: Node, a: int, b: int)
    requires a <= b && Ranked(n, a)
    ensures Ranked(n, b)
  {
  }

  /** A factor holds no binary operator outside a negated expression. */
  lemma {:induction false} FactorRanked(ts: seq<Token>, i: nat)
    requires EndsWithEof(ts) && i < |ts| && NoParens(ts, i)
    ensures Factor(ts, i).Parsed? ==> Ranked(Factor(ts, i).node, -1)
    decreases |ts| - i, 0
  {
    var t := ts[i];
    MatchesMeaning(t, STRING, None);
    MatchesMeaning(t, SUB, None);
    if !(t.kind == INT || t.kind == FLOAT) && t.kind == SUB {
      ExprRanked(ts, Adv(ts, i));
    }
  }

  /** The operand of level `level` binds strictly tighter than that level. */
  lemma {:induction false} OperandRanked(level: nat, ts: seq<Token>, i: nat)
    requires level <= 2 && EndsWithEof(ts) && i < |ts| && NoParens(ts, i)
    ensures Operand(level, ts, i).Parsed? ==> Ranked(Operand(level, ts, i).node, level - 1)
    decreases |ts| - i, level + 1, 0
  {
    if level == 0 {
      FactorRanked(ts, i);
    } else {
      BinOpRanked(level - 1, ts, i);
    }
  }

  /** Every tree `binOp` builds at `level` is ranked at that level. */
  lemma {:induction false} BinOpRanked(level: nat, ts: seq<Token>, i: nat)
    requires level <= 2 && EndsWithEof(ts) && i < |ts| && NoParens(ts, i)
    ensures BinOp(level, ts, i).Parsed? ==> Ranked(BinOp(level, ts, i).node, level)
    decreases |ts| - i, level + 1, 1
  {
    OperandRanked(level, ts, i);
    var o := Operand(level, ts, i);
    if o.Parsed? {
      RankedWeaken(o.node, level - 1, level);
      LoopRanked(level, ts, o.node, o.next);
    }
  }

  /** The loop of `binOp` keeps the tree ranked as it folds each operand in on the right. */
  lemma {:induction false} LoopRanked(level: nat, ts: seq<Token>, left: Node, j: nat)
    requires level <= 2 && EndsWithEof(ts) && j < |ts| && NoParens(ts, j)
    requires IsExpr(left) && Ranked(left, level)
    ensures BinOpLoop(level, ts, left, j).Parsed? ==> Ranked(BinOpLoop(level, ts, left, j).node, level)
    decreases |ts| - j, 0, 0
  {
    if ts[j].kind in Ops(level) {
      var a := Adv(ts, j);
      OperandRanked(level, ts, a);
      var o := Operand(level, ts, a);
      if o.Parsed? && !o.node.StringNode? && !left.StringNode? {
        assert LevelOf(ts[j].kind) == level;
        LoopRanked(level, ts, BinOpNode(left, ts[j], o.node), o.next);
      }
    }
  }

  /** A comparison-level parse, or a negation of a whole expression. */
  lemma {:induction false} CompExprRanked(ts: seq<Token>, i: nat)
    requires EndsWithEof(ts) && i < |ts| && NoParens(ts, i)
    ensures CompExpr(ts, i).Parsed? ==> Ranked(CompExpr(ts, i).node, 2)
    decreases |ts| - i, 4, 0
  {
    MatchesMeaning(ts[i], NOT, None);
    if ts[i].kind == NOT {
      ExprRanked(ts, Adv(ts, i));
    } else {
      BinOpRanked(2, ts, i);
    }
  }

  /**
   * Precedence and left association for every input without parentheses: products and
   * quotients bind tighter than sums and differences, which bind tighter than `==` and
   * `!=`, and operators of one level group to the left.
   */
  lemma {:induction false} ExprRanked(ts: seq<Token>, i: nat)
    requires EndsWithEof(ts) && i < |ts| && NoParens(ts, i)
    ensures Expr(ts, i).Parsed? ==> Ranked(Expr(ts, i).node, 2)
    decreases |ts| - i, 5, 0
  {
    CompExprRanked(ts, i);
  }

  /**
   * In particular, the right operand of a parsed operator is never an operator of the same
   * or a looser level.
   */
  lemma NoLooserOnRight(n: Node, level: int)
    requires Ranked(n, level) && n.BinOpNode? && n.right.BinOpNode?
    ensures LevelOf(n.right.op.kind) < LevelOf(n.op.kind)
  {
  }

  // ---------------------------------------------------------------------------
  // The tokens an operand tree spans

  /** The first and last tokens of an operand tree are tokens of `ts[i..j]`, in that order. */
  ghost predicate Within(n: Node, ts: seq<Token>, i: nat, j: nat)
    requires IsOperandTree(n)
  {
    exists a, b :: i <= a <= b < j && b < |ts| && FirstToken(n) == ts[a] && LastToken(n) == ts[b]
  }

  lemma WithinWiden(n: Node, ts: seq<Token>, i: nat, j: nat, i': nat, j': nat)
    requires IsOperandTree(n) && Within(n, ts, i, j) && i' <= i && j <= j' <= |ts|
    ensures Within(n, ts, i', j')
  {
    var a, b :| i <= a <= b < j && b < |ts| && FirstToken(n) == ts[a] && LastToken(n) == ts[b];
    assert i' <= a <= b < j';
  }

  lemma {:induction false} FactorWithin(ts: seq<Token>, i: nat)
    requires EndsWithEof(ts) && i < |ts|
    ensures var r := Factor(ts, i); r.Parsed? && IsOperandTree(r.node) ==> Within(r.node, ts, i, r.next)
    decreases |ts| - i, 0
  {
    var t := ts[i];
    MatchesMeaning(t, STRING, None);
    MatchesMeaning(t, SUB, None);
    MatchesMeaning(t, IDENTIFIER, None);
    MatchesMeaning(t, LPAREN, None);
    var r := Factor(ts, i);
    if r.Parsed? && IsOperandTree(r.node) {
      if t.kind == INT || t.kind == FLOAT || t.kind == STRING || t.kind == IDENTIFIER {
        assert FirstToken(r.node) == ts[i] && LastToken(r.node) == ts[i];
        assert i <= i <= i < r.next;
      } else {
        assert t.kind == LPAREN;
        var e := Expr(ts, Adv(ts, i));
        ExprWithin(ts, Adv(ts, i));
        WithinWiden(e.node, ts, Adv(ts, i), e.next, i, r.next);
      }
    }
  }

  lemma {:induction false} OperandWithin(level: nat, ts: seq<Token>, i: nat)
    requires level <= 2 && EndsWithEof(ts) && i < |ts|
    ensures var r := Operand(level, ts, i); r.Parsed? && IsOperandTree(r.node) ==> Within(r.node, ts, i, r.next)
    decreases |ts| - i, level + 1, 0
  {
    if level == 0 {
      FactorWithin(ts, i);
    } else {
      BinOpWithin(level - 1, ts, i);
    }
  }

  lemma {:induction false} BinOpWithin(level: nat, ts: seq<Token>, i: nat)
    requires level <= 2 && EndsWithEof(ts) && i < |ts|
    ensures var r := BinOp(level, ts, i); r.Parsed? && IsOperandTree(r.node) ==> Within(r.node, ts, i, r.next)
    decreases |ts| - i, level + 1, 1
  {
    OperandWithin(level, ts, i);
    var o := Operand(level, ts, i);
    if o.Parsed? {
      LoopWithin(level, ts, o.node, i, o.next);
    }
  }

  lemma {:induction false} LoopWithin(level: nat, ts: seq<Token>, left: Node, i: nat, j: nat)
    requires level <= 2 && EndsWithEof(ts) && i <= j < |ts| && IsExpr(left)
    requires IsOperandTree(left) ==> Within(left, ts, i, j)
    ensures var r := BinOpLoop(level, ts, left, j); r.Parsed? && IsOperandTree(r.node) ==> Within(r.node, ts, i, r.next)
    decreases |ts| - j, 0, 0
  {
    if ts[j].kind in Ops(level) {
      var o := Operand(level, ts, Adv(ts, j));
      OperandWithin(level, ts, Adv(ts, j));
      if o.Parsed? && !o.node.StringNode? && !left.StringNode? {
        var node := BinOpNode(left, ts[j], o.node);
        if IsOperandTree(node) {
          var a, b :| i <= a <= b < j && b < |ts| && FirstToken(left) == ts[a] && LastToken(left) == ts[b];
          var a', b' :| Adv(ts, j) <= a' <= b' < o.next && b' < |ts| && FirstToken(o.node) == ts[a'] && LastToken(o.node) == ts[b'];
          assert FirstToken(node) == ts[a] && LastToken(node) == ts[b'];
          assert i <= a <= b' < o.next;
        }
        LoopWithin(level, ts, node, i, o.next);
      }
    }
  }

  /**
   * An operand tree that `expr` parses from `i` to `j` begins and ends with tokens of
   * `ts[i..j]`, the first no later than the last.
   */
  lemma {:induction false} ExprWithin(ts: seq<Token>, i: nat)
    requires EndsWithEof(ts) && i < |ts|
    ensures var r := Expr(ts, i); r.Parsed? && IsOperandTree(r.node) ==> Within(r.node, ts, i, r.next)
    decreases |ts| - i, 5, 0
  {
    MatchesMeaning(ts[i], NOT, None);
    if ts[i].kind != NOT {
      BinOpWithin(2, ts, i);
    }
  }

  /** In a lexer's token list, a token never starts before an earlier one. */
  lemma {:induction false} SpannedOrder(ts: seq<Token>, from: int, a: nat, b: nat)
    requires LexerProps.Spanned(ts, from) && a <= b < |ts|
    ensures ts[a].start.idx <= ts[b].start.idx
    decreases b - a
  {
    if a < b {
      SpannedOrder(ts, from, a + 1, b);
      assert ts[a].start.idx <= ts[a].end.idx;
      assert ts[a].end.idx <= ts[a + 1].start.idx;
    }
  }

  /**
   * Over the lexer's tokens, an operand tree that `expr` parses has a well-formed range: it
   * runs from its first token's start to its last token's end, and starts no later than it
   * ends.
   */
  lemma ExprRangeOrdered(ts: seq<Token>, from: int, i: nat)
    requires EndsWithEof(ts) && i < |ts| && LexerProps.Spanned(ts, from)
    ensures var r := Expr(ts, i);
      r.Parsed? && IsOperandTree(r.node) ==>
        NodeRange(r.node) == Range(At(FirstToken(r.node).start), At(LastToken(r.node).end)) &&
        FirstToken(r.node).start.idx <= LastToken(r.node).end.idx
  {
    var r := Expr(ts, i);
    if r.Parsed? && IsOperandTree(r.node) {
      ExprWithin(ts, i);
      OperandTreeRange(r.node);
      var a, b :| i <= a <= b < r.next && b < |ts| && FirstToken(r.node) == ts[a] && LastToken(r.node) == ts[b];
      SpannedOrder(ts, from, a, b);
      assert ts[b].start.idx <= ts[b].end.idx;
    }
  }
}
