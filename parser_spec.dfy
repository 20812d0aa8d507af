/** The reference definition of the recursive-descent parser of parser.py. */
module Parsing {
  import opened Wrappers
  import opened Errors
  import opened Lexing
  import opened Ast

  /** The parser's input: a non-empty token list whose last token is `EOF`, as `lex` returns. */
  predicate EndsWithEof(ts: seq<Token>) {
    |ts| >= 1 && ts[|ts| - 1].kind == EOF
  }

  /** `ParseResult` once a parse step is over: a node and the next token index, or an error. */
  datatype Parsed<+T> = Parsed(node: T, next: nat) | Failed(error: Error)

  /** `Parser.advance` on the token index: it never moves past the last token. */
  function Adv(ts: seq<Token>, i: nat): (j: nat)
    requires i < |ts|
    ensures j < |ts| && i <= j
    ensures EndsWithEof(ts) && ts[i].kind != EOF ==> j == i + 1
    ensures i == |ts| - 1 ==> j == i
  {
    if i + 1 < |ts| then i + 1 else i
  }

  /** An `Invalid Syntax` error at a token's range. */
  function SyntaxError(t: Token, msg: string): Error {
    MakeError([t.start, t.end], INVALID_SYNTAX, Some(msg))
  }

  const STRING_OPERANDS := "Operations with strings are not supported"

  /** Operators folded at each level: `term` (0), `arithExpr` (1), `compExpr` (2). */
  function Ops(level: nat): set<Kind>
    requires level <= 2
  {
    if level == 0 then {MUL, DIV} else if level == 1 then {ADD, SUB} else {EE, NE}
  }

  predicate IsBuiltin(builtins: set<string>, t: Token) {
    t.value.Word? && t.value.text in builtins
  }

  /** `factor`: a number, string, variable, `-` expression or parenthesised expression. */
  function Factor(ts: seq<Token>, i: nat): (r: Parsed<Node>)
    requires EndsWithEof(ts) && i < |ts|
    ensures r.Parsed? ==> i < r.next < |ts| && IsExpr(r.node)
    decreases |ts| - i, 0
  {
    var t := ts[i];
    if t.kind == INT || t.kind == FLOAT then Parsed(NumberNode(t), Adv(ts, i))
    else if Matches(t, STRING, None) then Parsed(StringNode(t), Adv(ts, i))
    else if Matches(t, SUB, None) then
      match Expr(ts, Adv(ts, i))
      case Failed(e) => Failed(e)
      case Parsed(v, j) => Parsed(UnaryOpNode(v, t), j)
    else if Matches(t, IDENTIFIER, None) then Parsed(VarAccessNode(t), Adv(ts, i))
    else if Matches(t, LPAREN, None) then
      match Expr(ts, Adv(ts, i))
      case Failed(e) => Failed(e)
      case Parsed(v, j) =>
        if ts[j].kind != RPAREN then Failed(SyntaxError(ts[j], "Expected )"))
        else Parsed(v, Adv(ts, j))
    else Failed(SyntaxError(t, "Expected int or float or string or identifier or ("))
  }

  /** The operand parser `binOp` is given at each level: `factor`, `term`, `arithExpr`. */
  function Operand(level: nat, ts: seq<Token>, i: nat): (r: Parsed<Node>)
    requires level <= 2 && EndsWithEof(ts) && i < |ts|
    ensures r.Parsed? ==> i < r.next < |ts| && IsExpr(r.node)
    decreases |ts| - i, level + 1, 0
  {
    if level == 0 then Factor(ts, i) else BinOp(level - 1, ts, i)
  }

  /** `binOp`: one operand, then the loop over the level's operators. */
  function BinOp(level: nat, ts: seq<Token>, i: nat): (r: Parsed<Node>)
    requires level <= 2 && EndsWithEof(ts) && i < |ts|
    ensures r.Parsed? ==> i < r.next < |ts| && IsExpr(r.node)
    decreases |ts| - i, level + 1, 1
  {
    match Operand(level, ts, i)
    case Failed(e) => Failed(e)
    case Parsed(left, j) => BinOpLoop(level, ts, left, j)
  }

  /**
   * The `while` loop of `binOp`: fold each further operand into a left-deep tree,
   * failing when the right or else the left operand is a string.
   */
  function BinOpLoop(level: nat, ts: seq<Token>, left: Node, j: nat): (r: Parsed<Node>)
    requires level <= 2 && EndsWithEof(ts) && j < |ts| && IsExpr(left)
    ensures r.Parsed? ==> j <= r.next < |ts| && IsExpr(r.node)
    decreases |ts| - j, 0, 0
  {
    if ts[j].kind in Ops(level) then
      var op := ts[j];
      match Operand(level, ts, Adv(ts, j))
      case Failed(e) => Failed(e)
      case Parsed(right, k) =>
        if right.StringNode? then Failed(SyntaxError(ts[k], STRING_OPERANDS))
        else if left.StringNode? then Failed(SyntaxError(ts[k], STRING_OPERANDS))
        else BinOpLoop(level, ts, BinOpNode(left, op, right), k)
    else Parsed(left, j)
  }

  /** `term`: products and quotients of factors. */
  function Term(ts: seq<Token>, i: nat): (r: Parsed<Node>)
    requires EndsWithEof(ts) && i < |ts|
    ensures r.Parsed? ==> i < r.next < |ts| && IsExpr(r.node)
  {
    BinOp(0, ts, i)
  }

  /** `arithExpr`: sums and differences of terms. */
  function ArithExpr(ts: seq<Token>, i: nat): (r: Parsed<Node>)
    requires EndsWithEof(ts) && i < |ts|
    ensures r.Parsed? ==> i < r.next < |ts| && IsExpr(r.node)
  {
    BinOp(1, ts, i)
  }

  /** `compExpr`: `NOT` applied to an expression, or comparisons of arithmetic expressions. */
  function CompExpr(ts: seq<Token>, i: nat): (r: Parsed<Node>)
    requires EndsWithEof(ts) && i < |ts|
    ensures r.Parsed? ==> i < r.next < |ts| && IsExpr(r.node)
    decreases |ts| - i, 4, 0
  {
    var t := ts[i];
    if Matches(t, NOT, None) then
      match Expr(ts, Adv(ts, i))
      case Failed(e) => Failed(e)
      case Parsed(v, j) => Parsed(UnaryOpNode(v, t), j)
    else BinOp(2, ts, i)
  }

  /** `expr`. */
  function Expr(ts: seq<Token>, i: nat): (r: Parsed<Node>)
    requires EndsWithEof(ts) && i < |ts|
    ensures r.Parsed? ==> i < r.next < |ts| && IsExpr(r.node)
    decreases |ts| - i, 5, 0
  {
    CompExpr(ts, i)
  }

  /**
   * The argument loop of a builtin call: comma-separated expressions up to `)`, which is
   * left for the caller to consume.
   */
  function Args(ts: seq<Token>, j: nat, acc: seq<Node>): (r: Parsed<seq<Node>>)
    requires EndsWithEof(ts) && j < |ts| && forall a :: a in acc ==> IsExpr(a)
    ensures r.Parsed? ==> j <= r.next < |ts| && ts[r.next].kind == RPAREN
    ensures r.Parsed? ==> forall a :: a in r.node ==> IsExpr(a)
    decreases |ts| - j, 6, 0
  {
    if Matches(ts[j], RPAREN, None) then Parsed(acc, j)
    else
      match Expr(ts, j)
      case Failed(e) => Failed(e)
      case Parsed(a, k) =>
        if !(Matches(ts[k], COMMA, None) || Matches(ts[k], RPAREN, None)) then
          Failed(SyntaxError(ts[k], "Expected , or )"))
        else if Matches(ts[k], RPAREN, None) then Parsed(acc + [a], k)
        else Args(ts, Adv(ts, k), acc + [a])
  }

  /** `action`: a function declaration, a conditional, a call or an assignment. */
  function Action(builtins: set<string>, ts: seq<Token>, i: nat): (r: Parsed<Node>)
    requires EndsWithEof(ts) && i < |ts|
    ensures r.Parsed? ==> i < r.next < |ts| && IsStmt(r.node)
    ensures r.Parsed? && r.node.CallNode? && !IsBuiltin(builtins, r.node.callee) ==> r.node.args == []
    decreases |ts| - i, 7, 0
  {
    var t := ts[i];
    if Matches(t, KEYWORD, Some("func")) then FuncDecl(builtins, ts, i)
    else if Matches(t, KEYWORD, Some("if")) then IfStmt(builtins, ts, i)
    else if Matches(t, IDENTIFIER, None) then IdentStmt(builtins, ts, i)
    else Failed(SyntaxError(t, "Expected func or if or identifier"))
  }

  /** The `func` branch of `action`: `func name ( ) { ... }`. */
  function FuncDecl(builtins: set<string>, ts: seq<Token>, i: nat): (r: Parsed<Node>)
    requires EndsWithEof(ts) && i < |ts| && ts[i].kind == KEYWORD
    ensures r.Parsed? ==> i < r.next < |ts| && r.node.FunctionNode? && IsStmt(r.node)
    decreases |ts| - i, 6, 1
  {
    var i1 := Adv(ts, i);
    if !Matches(ts[i1], IDENTIFIER, None) then Failed(SyntaxError(ts[i1], "Expected identifier"))
    else
      var name := ts[i1];
      var i2 := Adv(ts, i1);
      if !Matches(ts[i2], LPAREN, None) then Failed(SyntaxError(ts[i2], "Expected ("))
      else
        var i3 := Adv(ts, i2);
        if !Matches(ts[i3], RPAREN, None) then Failed(SyntaxError(ts[i3], "Expected )"))
        else
          match CodeBlock(builtins, ts, Adv(ts, i3), true)
          case Failed(e) => Failed(e)
          case Parsed(body, j) => Parsed(FunctionNode(name, body), j)
  }

  /** The `if` branch of `action`: `if <expr> { ... }`. */
  function IfStmt(builtins: set<string>, ts: seq<Token>, i: nat): (r: Parsed<Node>)
    requires EndsWithEof(ts) && i < |ts| && ts[i].kind == KEYWORD
    ensures r.Parsed? ==> i < r.next < |ts| && r.node.IfNode? && IsStmt(r.node)
    decreases |ts| - i, 6, 1
  {
    match Expr(ts, Adv(ts, i))
    case Failed(e) => Failed(e)
    case Parsed(cond, j) =>
      match CodeBlock(builtins, ts, j, true)
      case Failed(e) => Failed(e)
      case Parsed(body, k) => Parsed(IfNode(cond, body), k)
  }

  /**
   * The identifier branch of `action`: a call `name ( ... )`, whose arguments only a builtin
   * may have, or an assignment `name = <expr>`.
   */
  function IdentStmt(builtins: set<string>, ts: seq<Token>, i: nat): (r: Parsed<Node>)
    requires EndsWithEof(ts) && i < |ts| && ts[i].kind == IDENTIFIER
    ensures r.Parsed? ==> i < r.next < |ts| && IsStmt(r.node)
    ensures r.Parsed? && r.node.CallNode? && !IsBuiltin(builtins, r.node.callee) ==> r.node.args == []
    decreases |ts| - i, 6, 1
  {
    var t := ts[i];
    var i1 := Adv(ts, i);
    if Matches(ts[i1], LPAREN, None) then
      var i2 := Adv(ts, i1);
      if IsBuiltin(builtins, t) then
        match Args(ts, i2, [])
        case Failed(e) => Failed(e)
        case Parsed(args, j) => Parsed(CallNode(t, args), Adv(ts, j))
      else if !Matches(ts[i2], RPAREN, None) then Failed(SyntaxError(ts[i2], "Expected )"))
      else Parsed(CallNode(t, []), Adv(ts, i2))
    else if !Matches(ts[i1], EQ, None) then Failed(SyntaxError(ts[i1], "Expected ="))
    else
      match Expr(ts, Adv(ts, i1))
      case Failed(e) => Failed(e)
      case Parsed(v, j) => Parsed(VarAssignNode(t, v), j)
  }

  /** The statement loop of `codeBlock`: actions until the end token, which is not consumed. */
  function Block(builtins: set<string>, ts: seq<Token>, j: nat, end: Kind, acc: seq<Node>): (r: Parsed<seq<Node>>)
    requires EndsWithEof(ts) && j < |ts| && forall a :: a in acc ==> IsStmt(a)
    ensures r.Parsed? ==> j <= r.next < |ts| && ts[r.next].kind == end
    ensures r.Parsed? ==> forall a :: a in r.node ==> IsStmt(a)
    decreases |ts| - j, 8, 0
  {
    if Matches(ts[j], end, None) then Parsed(acc, j)
    else
      match Action(builtins, ts, j)
      case Failed(e) => Failed(e)
      case Parsed(a, k) => Block(builtins, ts, k, end, acc + [a])
  }

  /**
   * `codeBlock`: a nested block is `{ action* }`; the top-level block reads actions up to
   * `EOF` without braces.
   */
  function CodeBlock(builtins: set<string>, ts: seq<Token>, i: nat, curly: bool): (r: Parsed<Node>)
    requires EndsWithEof(ts) && i < |ts|
    ensures r.Parsed? ==> i <= r.next < |ts| && IsBlock(r.node)
    ensures r.Parsed? && !curly ==> ts[r.next].kind == EOF
    decreases |ts| - i, 9, 0
  {
    if Matches(ts[i], LCURLY, None) || !curly then
      var start := if curly then Adv(ts, i) else i;
      var end := if curly then RCURLY else EOF;
      match Block(builtins, ts, start, end, [])
      case Failed(e) => Failed(e)
      case Parsed(body, j) =>
        assert forall k :: 0 <= k < |body| ==> IsStmt(body[k]) by {
          forall k | 0 <= k < |body| ensures IsStmt(body[k]) { assert body[k] in body; }
        }
        Parsed(CodeBlockNode(body), if curly then Adv(ts, j) else j)
    else Failed(SyntaxError(ts[i], "Expected {"))
  }

  /** `parse`: the whole token list as the top-level block. */
  function Parse(builtins: set<string>, ts: seq<Token>): (r: Parsed<Node>)
    requires EndsWithEof(ts)
    ensures r.Parsed? ==> IsBlock(r.node) && r.next < |ts| && ts[r.next].kind == EOF
  {
    CodeBlock(builtins, ts, 0, false)
  }
}
