/** The node classes of parser.py as one datatype, with the ranges their constructors build. */
module Ast {
  import opened Errors
  import opened Lexing

  /**
   * AST nodes. `CallNode` keeps the callee's name token; the source wraps it in a
   * `VarAccessNode` whose range is that token's range.
   */
  datatype Node =
    | NumberNode(token: Token)
    | StringNode(token: Token)
    | BinOpNode(left: Node, op: Token, right: Node)
    | IfNode(cond: Node, body: Node)
    | UnaryOpNode(value: Node, op: Token)
    | CodeBlockNode(stmts: seq<Node>)
    | FunctionNode(name: Token, body: Node)
    | VarAccessNode(name: Token)
    | VarAssignNode(name: Token, value: Node)
    | CallNode(callee: Token, args: seq<Node>)

  /**
   * An entry of a `posRange` list. Most entries are positions; a code block stores its
   * first and last statements' whole ranges instead, so entries nest.
   */
  datatype Loc = At(pos: Position) | Of(range: Range)
  datatype Range = Range(start: Loc, end: Loc)

  function TokenRange(t: Token): Range {
    Range(At(t.start), At(t.end))
  }

  /** The position `CodeBlockNode` uses for both ends of an empty block. */
  const ZeroPosition := Position(0, 0, 0, "", "")

  /** `posRange` as each node constructor computes it. */
  function NodeRange(n: Node): Range {
    match n
    case NumberNode(t) => TokenRange(t)
    case StringNode(t) => TokenRange(t)
    case BinOpNode(l, _, r) => Range(NodeRange(l).start, NodeRange(r).end)
    case IfNode(c, b) => Range(NodeRange(c).start, NodeRange(b).end)
    case UnaryOpNode(v, op) => Range(NodeRange(v).start, At(op.end))
    case CodeBlockNode(body) =>
      if |body| > 0 then Range(Of(NodeRange(body[0])), Of(NodeRange(body[|body| - 1])))
      else Range(At(ZeroPosition), At(ZeroPosition))
    case FunctionNode(name, b) => Range(At(name.start), NodeRange(b).end)
    case VarAccessNode(t) => TokenRange(t)
    case VarAssignNode(name, v) => Range(At(name.start), NodeRange(v).end)
    case CallNode(callee, _) => TokenRange(callee)
  }

  // ---------------------------------------------------------------------------
  // The shapes the parser builds

  predicate IsArithOp(k: Kind) {
    k == ADD || k == SUB || k == MUL || k == DIV
  }

  predicate IsCompOp(k: Kind) {
    k == EE || k == NE
  }

  /** Expressions: no binary operator has a string operand. */
  predicate IsExpr(n: Node) {
    match n
    case NumberNode(t) => t.kind == INT || t.kind == FLOAT
    case StringNode(t) => t.kind == STRING
    case VarAccessNode(t) => t.kind == IDENTIFIER
    case BinOpNode(l, op, r) =>
      (IsArithOp(op.kind) || IsCompOp(op.kind)) && IsExpr(l) && IsExpr(r) &&
      !l.StringNode? && !r.StringNode?
    case UnaryOpNode(v, op) => (op.kind == SUB || op.kind == NOT) && IsExpr(v)
    case _ => false
  }

  /** Statements: function declarations, conditionals, calls and assignments. */
  predicate IsStmt(n: Node) {
    match n
    case FunctionNode(name, b) => name.kind == IDENTIFIER && IsBlock(b)
    case IfNode(c, b) => IsExpr(c) && IsBlock(b)
    case CallNode(callee, args) => callee.kind == IDENTIFIER && (forall i :: 0 <= i < |args| ==> IsExpr(args[i]))
    case VarAssignNode(name, v) => name.kind == IDENTIFIER && IsExpr(v)
    case _ => false
  }

  predicate IsBlock(n: Node) {
    n.CodeBlockNode? && forall i :: 0 <= i < |n.stmts| ==> IsStmt(n.stmts[i])
  }

  // ---------------------------------------------------------------------------
  // Ranges of arithmetic trees

  /** Trees of numbers, strings, variables and binary operators. */
  predicate IsOperandTree(n: Node) {
    match n
    case NumberNode(_) => true
    case StringNode(_) => true
    case VarAccessNode(_) => true
    case BinOpNode(l, _, r) => IsOperandTree(l) && IsOperandTree(r)
    case _ => false
  }

  function FirstToken(n: Node): Token
    requires IsOperandTree(n)
  {
    match n
    case BinOpNode(l, _, _) => FirstToken(l)
    case NumberNode(t) => t
    case StringNode(t) => t
    case VarAccessNode(t) => t
  }

  function LastToken(n: Node): Token
    requires IsOperandTree(n)
  {
    match n
    case BinOpNode(_, _, r) => LastToken(r)
    case NumberNode(t) => t
    case StringNode(t) => t
    case VarAccessNode(t) => t
  }

  /**
   * The range of an operand tree runs from the start of its leftmost token to the end of
   * its rightmost token.
   */
  lemma {:induction false} OperandTreeRange(n: Node)
    requires IsOperandTree(n)
    ensures NodeRange(n) == Range(At(FirstToken(n).start), At(LastToken(n).end))
  {
    match n
    case BinOpNode(l, _, r) =>
      OperandTreeRange(l);
      OperandTreeRange(r);
    case NumberNode(_) =>
    case StringNode(_) =>
    case VarAccessNode(_) =>
  }

  /**
   * An assignment of an operand tree runs from the start of its name token to the end of
   * the value's rightmost token.
   */
  lemma AssignmentRange(name: Token, v: Node)
    requires IsOperandTree(v)
    ensures NodeRange(VarAssignNode(name, v)) == Range(At(name.start), At(LastToken(v).end))
  {
    OperandTreeRange(v);
  }
}
