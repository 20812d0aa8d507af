/** Properties of the reference parser: precedence, associativity and its syntax errors. */
module ParserProps {
  import opened Wrappers
  import opened Errors
  import opened Lexing
  import opened Ast
  import opened Parsing
  import LexerProps

  /** What the lexer returns on success is a valid parser input. */
  lemma LexedTokensParse(c: Consts, fn: string, code: string)
    requires c.Valid()
    ensures Lex(c, fn, code).error.None? ==> EndsWithEof(Lex(c, fn, code).tokens)
  {
    LexerProps.SuccessIsEofTerminated(c, code, StartPosition(fn, code));
  }

  // ---------------------------------------------------------------------------
  // Leaves and operator levels

  /** Tokens `factor` turns into a leaf without looking further. */
  predicate IsLeaf(t: Token) {
    t.kind == INT || t.kind == FLOAT || t.kind == STRING || t.kind == IDENTIFIER
  }

  /** The node `factor` builds for a leaf token. */
  function Leaf(t: Token): (n: Node)
    ensures IsLeaf(t) ==> IsExpr(n) && IsOperandTree(n) && FirstToken(n) == t && LastToken(n) == t
  {
    if t.kind == STRING then StringNode(t)
    else if t.kind == IDENTIFIER then VarAccessNode(t)
    else NumberNode(t)
  }

  /** The binding level of an operator kind; 3 for anything that is not a binary operator. */
  function LevelOf(k: Kind): (l: nat)
    ensures l <= 3
    ensures forall level :: 0 <= level <= 2 ==> (k in Ops(level) <==> l == level)
  {
    if k == MUL || k == DIV then 0
    else if k == ADD || k == SUB then 1
    else if k == EE || k == NE then 2
    else 3
  }

  /** A leaf followed by an operator that binds no tighter than `level` is a whole operand there. */
  lemma {:induction false} LeafOperand(level: nat, ts: seq<Token>, i: nat)
    requires level <= 2 && EndsWithEof(ts) && i + 1 < |ts|
    requires IsLeaf(ts[i]) && LevelOf(ts[i + 1].kind) >= level
    ensures Operand(level, ts, i) == Parsed(Leaf(ts[i]), i + 1)
  {
    assert Factor(ts, i) == Parsed(Leaf(ts[i]), i + 1);
    if level > 0 {
      LeafOperand(level - 1, ts, i);
      assert BinOpLoop(level - 1, ts, Leaf(ts[i]), i + 1) == Parsed(Leaf(ts[i]), i + 1);
    }
  }

  /** A level whose operator does not follow passes the tighter level's parse through. */
  lemma Lift(level: nat, ts: seq<Token>, i: nat)
    requires 1 <= level <= 2 && EndsWithEof(ts) && i < |ts|
    requires BinOp(level - 1, ts, i).Parsed? ==> LevelOf(ts[BinOp(level - 1, ts, i).next].kind) > level
    ensures BinOp(level, ts, i) == BinOp(level - 1, ts, i)
  {
    var r := BinOp(level - 1, ts, i);
    if r.Parsed? {
      assert BinOpLoop(level, ts, r.node, r.next) == r;
    }
  }

  /** An expression that does not start with `!` is a comparison-level parse. */
  lemma ExprIsComparison(ts: seq<Token>, i: nat)
    requires EndsWithEof(ts) && i < |ts| && ts[i].kind != NOT
    ensures Expr(ts, i) == BinOp(2, ts, i)
  {
    MatchesMeaning(ts[i], NOT, None);
  }

  /** A leaf followed by a token that is not an operator is a whole expression. */
  lemma LeafExpr(ts: seq<Token>, i: nat)
    requires EndsWithEof(ts) && i + 1 < |ts|
    requires IsLeaf(ts[i]) && LevelOf(ts[i + 1].kind) == 3
    ensures Expr(ts, i) == Parsed(Leaf(ts[i]), i + 1)
  {
    LeafOperand(2, ts, i);
    assert BinOpLoop(2, ts, Leaf(ts[i]), i + 1) == Parsed(Leaf(ts[i]), i + 1);
    ExprIsComparison(ts, i);
  }

  // ---------------------------------------------------------------------------
  // Left associativity

  /**
   * The left-deep tree of an operator chain `x0 o1 x1 o2 x2 ...`: the operator at `j` and the
   * leaf at `j + 1` are folded into `acc`, `m` times.
   */
  function FoldLeft(ts: seq<Token>, acc: Node, j: nat, m: nat): Node
    decreases m
  {
    if m == 0 || j + 1 >= |ts| then acc
    else FoldLeft(ts, BinOpNode(acc, ts[j], Leaf(ts[j + 1])), j + 2, m - 1)
  }

  /** `m` operators of the level, each followed by a non-string leaf, then a token binding looser. */
  predicate Chain(level: nat, ts: seq<Token>, j: nat, m: nat)
    decreases m
  {
    if m == 0 then j < |ts| && LevelOf(ts[j].kind) > level
    else
      j + 2 < |ts| && LevelOf(ts[j].kind) == level &&
      IsLeaf(ts[j + 1]) && ts[j + 1].kind != STRING && Chain(level, ts, j + 2, m - 1)
  }

  lemma {:induction false} LoopFoldsLeft(level: nat, ts: seq<Token>, left: Node, j: nat, m: nat)
    requires level <= 2 && EndsWithEof(ts) && Chain(level, ts, j, m)
    requires IsExpr(left) && !left.StringNode?
    ensures BinOpLoop(level, ts, left, j) == Parsed(FoldLeft(ts, left, j, m), j + 2 * m)
    decreases m
  {
    if m > 0 {
      assert LevelOf(ts[j + 2].kind) >= level by {
        if m > 1 {
          assert Chain(level, ts, j + 2, m - 1);
        }
      }
      LeafOperand(level, ts, j + 1);
      var node := BinOpNode(left, ts[j], Leaf(ts[j + 1]));
      LoopFoldsLeft(level, ts, node, j + 2, m - 1);
    }
  }

  /**
   * Operators of one level fold to the left: `x0 o1 x1 ... om xm` parses at that level as
   * `(...((x0 o1 x1) o2 x2) ... om xm)`, stopping at the first looser token.
   */
  lemma ChainFoldsLeft(level: nat, ts: seq<Token>, i: nat, m: nat)
    requires level <= 2 && EndsWithEof(ts) && i < |ts|
    requires IsLeaf(ts[i]) && ts[i].kind != STRING && Chain(level, ts, i + 1, m)
    ensures BinOp(level, ts, i) == Parsed(FoldLeft(ts, Leaf(ts[i]), i + 1, m), i + 1 + 2 * m)
  {
    LeafOperand(level, ts, i);
    LoopFoldsLeft(level, ts, Leaf(ts[i]), i + 1, m);
  }

  /** `a - b - c` is `(a - b) - c`. */
  lemma SubtractionFoldsLeft(a: Token, s1: Token, b: Token, s2: Token, c: Token, eof: Token)
    requires a.kind == INT && b.kind == INT && c.kind == INT
    requires s1.kind == SUB && s2.kind == SUB && eof.kind == EOF
    ensures Expr([a, s1, b, s2, c, eof], 0) ==
            Parsed(BinOpNode(BinOpNode(NumberNode(a), s1, NumberNode(b)), s2, NumberNode(c)), 5)
  {
    var ts := [a, s1, b, s2, c, eof];
    assert Chain(1, ts, 5, 0);
    assert Chain(1, ts, 3, 1);
    assert Chain(1, ts, 1, 2);
    ChainFoldsLeft(1, ts, 0, 2);
    assert FoldLeft(ts, Leaf(a), 1, 2) == BinOpNode(BinOpNode(NumberNode(a), s1, NumberNode(b)), s2, NumberNode(c));
    Lift(2, ts, 0);
    ExprIsComparison(ts, 0);
  }

  // ---------------------------------------------------------------------------
  // Precedence

  /**
   * A non-string leaf, one operator of the level and a tighter operand, followed by a token
   * that binds looser, parse at that level as that one operator.
   */
  lemma OneOperator(level: nat, ts: seq<Token>, i: nat, right: Node, k: nat)
    requires level <= 2 && EndsWithEof(ts) && i + 2 < |ts|
    requires IsLeaf(ts[i]) && ts[i].kind != STRING && ts[i + 1].kind in Ops(level)
    requires Operand(level, ts, i + 2) == Parsed(right, k) && !right.StringNode? && LevelOf(ts[k].kind) > level
    ensures BinOp(level, ts, i) == Parsed(BinOpNode(Leaf(ts[i]), ts[i + 1], right), k)
  {
    LeafOperand(level, ts, i);
    var node := BinOpNode(Leaf(ts[i]), ts[i + 1], right);
    assert BinOpLoop(level, ts, node, k) == Parsed(node, k);
  }

  /** `1 + 2 * 3` is `1 + (2 * 3)`: products bind tighter than sums. */
  lemma ProductsBindTighter(a: Token, plus: Token, b: Token, times: Token, c: Token, eof: Token)
    requires a.kind == INT && b.kind == INT && c.kind == INT
    requires plus.kind == ADD && times.kind == MUL && eof.kind == EOF
    ensures Expr([a, plus, b, times, c, eof], 0) ==
            Parsed(BinOpNode(NumberNode(a), plus, BinOpNode(NumberNode(b), times, NumberNode(c))), 5)
  {
    var ts := [a, plus, b, times, c, eof];
    var product := BinOpNode(NumberNode(b), times, NumberNode(c));
    assert Chain(0, ts, 3, 1) by {
      assert Chain(0, ts, 5, 0);
    }
    ChainFoldsLeft(0, ts, 2, 1);
    assert Operand(1, ts, 2) == Parsed(product, 5);
    OneOperator(1, ts, 0, product, 5);
    Lift(2, ts, 0);
    ExprIsComparison(ts, 0);
  }

  /** `1 == 2 + 3` is `1 == (2 + 3)`: sums bind tighter than comparisons. */
  lemma SumsBindTighter(a: Token, eq: Token, b: Token, plus: Token, c: Token, eof: Token)
    requires a.kind == INT && b.kind == INT && c.kind == INT
    requires eq.kind == EE && plus.kind == ADD && eof.kind == EOF
    ensures Expr([a, eq, b, plus, c, eof], 0) ==
            Parsed(BinOpNode(NumberNode(a), eq, BinOpNode(NumberNode(b), plus, NumberNode(c))), 5)
  {
    var ts := [a, eq, b, plus, c, eof];
    var sum := BinOpNode(NumberNode(b), plus, NumberNode(c));
    assert Chain(1, ts, 3, 1) by {
      assert Chain(1, ts, 5, 0);
    }
    ChainFoldsLeft(1, ts, 2, 1);
    assert Operand(2, ts, 2) == Parsed(sum, 5);
    OneOperator(2, ts, 0, sum, 5);
    ExprIsComparison(ts, 0);
  }

  // ---------------------------------------------------------------------------
  // String operands

  /**
   * A string on either side of any binary operator is a syntax error at the token after the
   * right operand, at the operator's own level and, since a failure rises through the
   * looser levels, for the whole expression.
   */
  lemma StringOperandsRejected(level: nat, ts: seq<Token>, i: nat)
    requires level <= 2 && EndsWithEof(ts) && i + 3 < |ts|
    requires IsLeaf(ts[i]) && ts[i + 1].kind in Ops(level) && IsLeaf(ts[i + 2]) && LevelOf(ts[i + 3].kind) >= level
    requires ts[i].kind == STRING || ts[i + 2].kind == STRING
    ensures BinOp(level, ts, i) == Failed(SyntaxError(ts[i + 3], STRING_OPERANDS))
    ensures Expr(ts, i) == Failed(SyntaxError(ts[i + 3], STRING_OPERANDS))
  {
    LeafOperand(level, ts, i);
    LeafOperand(level, ts, i + 2);
    assert BinOpLoop(level, ts, Leaf(ts[i]), i + 1) == Failed(SyntaxError(ts[i + 3], STRING_OPERANDS));
    FailureRises(level, 2, ts, i);
    ExprIsComparison(ts, i);
  }

  /** A failure at one level is the failure of every looser level from the same token. */
  lemma {:induction false} FailureRises(level: nat, upper: nat, ts: seq<Token>, i: nat)
    requires level <= upper <= 2 && EndsWithEof(ts) && i < |ts| && BinOp(level, ts, i).Failed?
    ensures BinOp(upper, ts, i) == BinOp(level, ts, i)
    decreases upper - level
  {
    if level < upper {
      FailureRises(level + 1, upper, ts, i);
    }
  }

  // ---------------------------------------------------------------------------
  // Blocks

  /**
   * A nested block needs an opening brace, and a parsed one ends just after its closing
   * brace.
   */
  lemma NestedBlockBraces(b: set<string>, ts: seq<Token>, i: nat)
    requires EndsWithEof(ts) && i < |ts|
    ensures ts[i].kind != LCURLY ==> CodeBlock(b, ts, i, true) == Failed(SyntaxError(ts[i], "Expected {"))
    ensures CodeBlock(b, ts, i, true).Parsed? ==>
      var j := CodeBlock(b, ts, i, true).next;
      ts[i].kind == LCURLY && i + 2 <= j && ts[j - 1].kind == RCURLY
  {
    MatchesMeaning(ts[i], LCURLY, None);
    var r := CodeBlock(b, ts, i, true);
    if r.Parsed? {
      var inner := Block(b, ts, Adv(ts, i), RCURLY, []);
      assert inner.Parsed?;
      assert r.next == Adv(ts, inner.next);
    }
  }

  /** The empty program is the empty top-level block; a stray `}` at top level is an error. */
  lemma TopLevelBlock(b: set<string>, rc: Token, eof: Token)
    requires rc.kind == RCURLY && eof.kind == EOF
    ensures Parse(b, [eof]) == Parsed(CodeBlockNode([]), 0)
    ensures Parse(b, [rc, eof]) == Failed(SyntaxError(rc, "Expected func or if or identifier"))
  {
    assert Block(b, [eof], 0, EOF, []) == Parsed([], 0);
    assert Block(b, [rc, eof], 0, EOF, []) == Failed(SyntaxError(rc, "Expected func or if or identifier"));
  }

  // ---------------------------------------------------------------------------
  // Statements and calls

  /** The error each malformed statement start produces, at the token that breaks it. */
  lemma StatementErrors(b: set<string>, ts: seq<Token>, i: nat)
    requires EndsWithEof(ts) && i < |ts|
    ensures ts[i].kind == KEYWORD && ts[i].value == Word("func") && ts[i + 1].kind != IDENTIFIER ==>
      Action(b, ts, i) == Failed(SyntaxError(ts[i + 1], "Expected identifier"))
    ensures ts[i].kind == KEYWORD && ts[i].value == Word("func") && ts[i + 1].kind == IDENTIFIER &&
            ts[i + 2].kind != LPAREN ==>
      Action(b, ts, i) == Failed(SyntaxError(ts[i + 2], "Expected ("))
    ensures ts[i].kind == KEYWORD && ts[i].value == Word("func") && ts[i + 1].kind == IDENTIFIER &&
            ts[i + 2].kind == LPAREN && ts[i + 3].kind != RPAREN ==>
      Action(b, ts, i) == Failed(SyntaxError(ts[i + 3], "Expected )"))
    ensures ts[i].kind == IDENTIFIER && ts[i + 1].kind != LPAREN && ts[i + 1].kind != EQ ==>
      Action(b, ts, i) == Failed(SyntaxError(ts[i + 1], "Expected ="))
    ensures ts[i].kind != IDENTIFIER && !(ts[i].kind == KEYWORD && ts[i].value in {Word("func"), Word("if")}) ==>
      Action(b, ts, i) == Failed(SyntaxError(ts[i], "Expected func or if or identifier"))
  {
    MatchesMeaning(ts[i], KEYWORD, Some("func"));
    MatchesMeaning(ts[i], KEYWORD, Some("if"));
    MatchesMeaning(ts[i], IDENTIFIER, None);
  }

  /** A call to a name that is not a builtin takes exactly `()`. */
  lemma NonBuiltinCall(b: set<string>, ts: seq<Token>, i: nat)
    requires EndsWithEof(ts) && i + 2 < |ts|
    requires ts[i].kind == IDENTIFIER && !IsBuiltin(b, ts[i]) && ts[i + 1].kind == LPAREN
    ensures ts[i + 2].kind == RPAREN ==> Action(b, ts, i) == Parsed(CallNode(ts[i], []), i + 3)
    ensures ts[i + 2].kind != RPAREN ==> Action(b, ts, i) == Failed(SyntaxError(ts[i + 2], "Expected )"))
  {
  }

  /** The leaves at `j`, `j + 2`, ... of a comma-separated argument list. */
  function Leaves(ts: seq<Token>, j: nat, m: nat): seq<Node>
    decreases m
  {
    if m == 0 || j >= |ts| then [] else [Leaf(ts[j])] + Leaves(ts, j + 2, m - 1)
  }

  /** `m >= 1` leaves separated by commas and closed by `)`. */
  predicate LeafArgs(ts: seq<Token>, j: nat, m: nat)
    decreases m
  {
    1 <= m && j + 1 < |ts| && IsLeaf(ts[j]) &&
    if m == 1 then ts[j + 1].kind == RPAREN
    else ts[j + 1].kind == COMMA && LeafArgs(ts, j + 2, m - 1)
  }

  /** One round of the argument loop over a leaf argument. */
  lemma ArgsStep(ts: seq<Token>, j: nat, acc: seq<Node>)
    requires EndsWithEof(ts) && j + 1 < |ts| && forall a :: a in acc ==> IsExpr(a)
    requires IsLeaf(ts[j]) && (ts[j + 1].kind == RPAREN || ts[j + 1].kind == COMMA)
    ensures ts[j + 1].kind == RPAREN ==> Args(ts, j, acc) == Parsed(acc + [Leaf(ts[j])], j + 1)
    ensures ts[j + 1].kind == COMMA ==> j + 2 < |ts| && Args(ts, j, acc) == Args(ts, j + 2, acc + [Leaf(ts[j])])
  {
    LeafExpr(ts, j);
    MatchesMeaning(ts[j], RPAREN, None);
    MatchesMeaning(ts[j + 1], RPAREN, None);
    MatchesMeaning(ts[j + 1], COMMA, None);
  }

  lemma {:induction false} ArgsOfLeaves(ts: seq<Token>, j: nat, acc: seq<Node>, m: nat)
    requires EndsWithEof(ts) && LeafArgs(ts, j, m) && forall a :: a in acc ==> IsExpr(a)
    ensures Args(ts, j, acc) == Parsed(acc + Leaves(ts, j, m), j + 2 * m - 1)
    decreases m, 1
  {
    ArgsStep(ts, j, acc);
    if m == 1 {
      assert Leaves(ts, j, 1) == [Leaf(ts[j])];
    } else {
      MoreArgsOfLeaves(ts, j, acc, m);
    }
  }

  /** The round of `ArgsOfLeaves` that reads a leaf and a comma, then the rest. */
  lemma {:induction false} MoreArgsOfLeaves(ts: seq<Token>, j: nat, acc: seq<Node>, m: nat)
    requires EndsWithEof(ts) && LeafArgs(ts, j, m) && m > 1 && forall a :: a in acc ==> IsExpr(a)
    requires Args(ts, j, acc) == Args(ts, j + 2, acc + [Leaf(ts[j])])
    ensures Args(ts, j, acc) == Parsed(acc + Leaves(ts, j, m), j + 2 * m - 1)
    decreases m, 0
  {
    var a := Leaf(ts[j]);
    ExprsExtend(acc, a);
    ArgsOfLeaves(ts, j + 2, acc + [a], m - 1);
    var rest := Leaves(ts, j + 2, m - 1);
    assert Leaves(ts, j, m) == [a] + rest;
    assert acc + [a] + rest == acc + ([a] + rest);
  }

  /** Appending an expression keeps a list of expressions. */
  lemma ExprsExtend(acc: seq<Node>, a: Node)
    requires IsExpr(a) && forall y :: y in acc ==> IsExpr(y)
    ensures forall y :: y in acc + [a] ==> IsExpr(y)
  {
  }

  /**
   * A builtin call reads its comma-separated arguments up to `)`: `f(x0, x1, ..., xm)` of
   * leaves is a call of those leaves, ending after the `)`.
   */
  lemma BuiltinCallArgs(b: set<string>, ts: seq<Token>, i: nat, m: nat)
    requires EndsWithEof(ts) && i + 2 < |ts|
    requires ts[i].kind == IDENTIFIER && IsBuiltin(b, ts[i]) && ts[i + 1].kind == LPAREN
    requires LeafArgs(ts, i + 2, m)
    ensures Action(b, ts, i) == Parsed(CallNode(ts[i], Leaves(ts, i + 2, m)), i + 2 * m + 2)
  {
    ArgsOfLeaves(ts, i + 2, [], m);
    assert [] + Leaves(ts, i + 2, m) == Leaves(ts, i + 2, m);
  }

  /** Builtin arguments need a separator: `f(x y)` fails at `y`; `f()` has no arguments. */
  lemma BuiltinCallErrors(b: set<string>, f: Token, lp: Token, x: Token, y: Token, rp: Token, eof: Token)
    requires f.kind == IDENTIFIER && IsBuiltin(b, f) && lp.kind == LPAREN && rp.kind == RPAREN
    requires x.kind == IDENTIFIER && y.kind == IDENTIFIER && eof.kind == EOF
    ensures Action(b, [f, lp, x, y, rp, eof], 0) == Failed(SyntaxError(y, "Expected , or )"))
    ensures Action(b, [f, lp, rp, eof], 0) == Parsed(CallNode(f, []), 3)
  {
    LeafExpr([f, lp, x, y, rp, eof], 2);
  }

  // ---------------------------------------------------------------------------
  // Negation in `factor` as written

  /** What `factor` may hand to a node constructor: a node, or the `ParseResult` around one. */
  datatype Arg = NodeArg(node: Node) | ResultArg(result: Parsed<Node>)

  /** Building a node, or the `AttributeError` raised when the argument has no `posRange`. */
  datatype Built = Built(node: Node, next: nat) | AttributeError

  /** `UnaryOpNode.__init__`: it reads the value's `posRange`, which only a node has. */
  function UnaryOpNodeInit(value: Arg, op: Token, next: nat): Built {
    if value.NodeArg? then Built(UnaryOpNode(value.node, op), next) else AttributeError
  }

  /** The `-` branch of `factor` as written: the whole `ParseResult` of `expr` becomes the operand. */
  function NegationAsWritten(ts: seq<Token>, i: nat): Built
    requires EndsWithEof(ts) && i < |ts| && ts[i].kind == SUB
  {
    var r := Expr(ts, Adv(ts, i));
    UnaryOpNodeInit(ResultArg(r), ts[i], if r.Parsed? then r.next else 0)
  }

  /** As written, negation never parses: `-1` raises even though `1` is a valid expression. */
  lemma NegationRaises(minus: Token, one: Token, eof: Token)
    requires minus.kind == SUB && one.kind == INT && eof.kind == EOF
    ensures Expr([minus, one, eof], 1) == Parsed(NumberNode(one), 2)
    ensures NegationAsWritten([minus, one, eof], 0) == AttributeError
  {
    LeafExpr([minus, one, eof], 1);
  }

  /**
   * With the operand taken from the `ParseResult`, as `compExpr` does for `!`, `-1` is the
   * negation of `1`, and `-` applies to the whole expression after it.
   */
  lemma NegationParses(minus: Token, one: Token, plus: Token, two: Token, eof: Token)
    requires minus.kind == SUB && one.kind == INT && plus.kind == ADD && two.kind == INT && eof.kind == EOF
    ensures Factor([minus, one, eof], 0) == Parsed(UnaryOpNode(NumberNode(one), minus), 2)
    ensures Factor([minus, one, plus, two, eof], 0) ==
      Parsed(UnaryOpNode(BinOpNode(NumberNode(one), plus, NumberNode(two)), minus), 4)
  {
    LeafExpr([minus, one, eof], 1);
    var ts := [minus, one, plus, two, eof];
    assert Chain(1, ts, 2, 1) by {
      assert Chain(1, ts, 4, 0);
    }
    ChainFoldsLeft(1, ts, 1, 1);
    assert FoldLeft(ts, Leaf(one), 2, 1) == BinOpNode(NumberNode(one), plus, NumberNode(two));
    Lift(2, ts, 1);
    ExprIsComparison(ts, 1);
  }
}
