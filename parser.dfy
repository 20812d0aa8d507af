/** The `Parser` class of parser.py: recursive descent over a token cursor. */
module Parser {
  import opened Wrappers
  import opened Errors
  import opened Lexing
  import opened Ast
  import opened Parsing

  /**
   * A method's `ParseResult` agrees with the reference parse: the same node with the
   * cursor where the reference stops, or the same error.
   */
  predicate Agrees(r: Result<Node, Error>, cursor: nat, spec: Parsed<Node>) {
    match spec
    case Parsed(n, j) => r == Ok(n) && cursor == j
    case Failed(e) => r == Err(e)
  }

  class Parser {
    const builtins: set<string>
    const tokens: seq<Token>
    var tokenIdx: int
    var currentTok: Token

    /** The token the cursor designates: `tokenIdx` keeps counting past the end. */
    ghost function Cursor(): nat
      reads this
      requires EndsWithEof(tokens) && 0 <= tokenIdx
    {
      if tokenIdx < |tokens| then tokenIdx else |tokens| - 1
    }

    ghost predicate Valid()
      reads this
    {
      EndsWithEof(tokens) && 0 <= tokenIdx && currentTok == tokens[Cursor()]
    }

    /** `Parser.__init__`: the cursor starts at the first token. */
    constructor (builtins: set<string>, tokens: seq<Token>)
      requires EndsWithEof(tokens)
      ensures Valid() && this.builtins == builtins && this.tokens == tokens && Cursor() == 0
    {
      this.builtins := builtins;
      this.tokens := tokens;
      tokenIdx := 0;
      currentTok := tokens[0];
    }

    /** `advance`: one token on, but never past the last one. */
    method Advance() returns (t: Token)
      requires Valid()
      modifies this
      ensures Valid() && tokenIdx == old(tokenIdx) + 1
      ensures Cursor() == Adv(tokens, old(Cursor())) && t == currentTok
      ensures old(Cursor()) == |tokens| - 1 ==> currentTok == old(currentTok)
    {
      tokenIdx := tokenIdx + 1;
      if tokenIdx < |tokens| {
        currentTok := tokens[tokenIdx];
      }
      t := currentTok;
    }

    method Factor() returns (r: Result<Node, Error>)
      requires Valid()
      modifies this
      ensures Valid() && Agrees(r, Cursor(), Parsing.Factor(tokens, old(Cursor())))
      decreases |tokens| - Cursor(), 0, 0
    {
      var token := currentTok;
      if token.kind == INT || token.kind == FLOAT {
        var _ := Advance();
        return Ok(NumberNode(token));
      } else if Matches(token, STRING, None) {
        var _ := Advance();
        return Ok(StringNode(token));
      } else if Matches(token, SUB, None) {
        var _ := Advance();
        var e := Expr();
        if e.Err? {
          return e;
        }
        return Ok(UnaryOpNode(e.value, token));
      } else if Matches(token, IDENTIFIER, None) {
        var _ := Advance();
        return Ok(VarAccessNode(token));
      } else if Matches(token, LPAREN, None) {
        var _ := Advance();
        var e := Expr();
        if e.Err? {
          return e;
        }
        if currentTok.kind != RPAREN {
          return Err(SyntaxError(currentTok, "Expected )"));
        }
        var _ := Advance();
        return Ok(e.value);
      }
      return Err(SyntaxError(token, "Expected int or float or string or identifier or ("));
    }

    /** The operand parser handed to `binOp` at each level. */
    method Operand(level: nat) returns (r: Result<Node, Error>)
      requires level <= 2 && Valid()
      modifies this
      ensures Valid() && Agrees(r, Cursor(), Parsing.Operand(level, tokens, old(Cursor())))
      decreases |tokens| - Cursor(), level + 1, 0
    {
      if level == 0 {
        r := Factor();
      } else if level == 1 {
        r := Term();
      } else {
        r := ArithExpr();
      }
    }

    /** `binOp`: the left-folding loop over the level's operators. */
    method BinOp(level: nat) returns (r: Result<Node, Error>)
      requires level <= 2 && Valid()
      modifies this
      ensures Valid() && Agrees(r, Cursor(), Parsing.BinOp(level, tokens, old(Cursor())))
      decreases |tokens| - Cursor(), level + 1, 1
    {
      ghost var i0 := Cursor();
      var first := Operand(level);
      if first.Err? {
        return first;
      }
      var left := first.value;
      while currentTok.kind in Ops(level)
        invariant Valid() && IsExpr(left) && i0 < Cursor()
        invariant Parsing.BinOp(level, tokens, i0) == BinOpLoop(level, tokens, left, Cursor())
        decreases |tokens| - Cursor()
      {
        var opToken := currentTok;
        var _ := Advance();
        var right := Operand(level);
        if right.Err? {
          return right;
        }
        if right.value.StringNode? {
          return Err(SyntaxError(currentTok, STRING_OPERANDS));
        }
        if left.StringNode? {
          return Err(SyntaxError(currentTok, STRING_OPERANDS));
        }
        left := BinOpNode(left, opToken, right.value);
      }
      return Ok(left);
    }

    method Term() returns (r: Result<Node, Error>)
      requires Valid()
      modifies this
      ensures Valid() && Agrees(r, Cursor(), Parsing.Term(tokens, old(Cursor())))
      decreases |tokens| - Cursor(), 1, 2
    {
      r := BinOp(0);
    }

    method Expr() returns (r: Result<Node, Error>)
      requires Valid()
      modifies this
      ensures Valid() && Agrees(r, Cursor(), Parsing.Expr(tokens, old(Cursor())))
      decreases |tokens| - Cursor(), 5, 0
    {
      r := CompExpr();
    }

    method CompExpr() returns (r: Result<Node, Error>)
      requires Valid()
      modifies this
      ensures Valid() && Agrees(r, Cursor(), Parsing.CompExpr(tokens, old(Cursor())))
      decreases |tokens| - Cursor(), 4, 0
    {
      var opTok := currentTok;
      if Matches(opTok, NOT, None) {
        var _ := Advance();
        var e := Expr();
        if e.Err? {
          return e;
        }
        return Ok(UnaryOpNode(e.value, opTok));
      }
      r := BinOp(2);
    }

    method ArithExpr() returns (r: Result<Node, Error>)
      requires Valid()
      modifies this
      ensures Valid() && Agrees(r, Cursor(), Parsing.ArithExpr(tokens, old(Cursor())))
      decreases |tokens| - Cursor(), 2, 2
    {
      r := BinOp(1);
    }

    /** `codeBlock`: braces around a nested block, none around the top-level one. */
    method CodeBlock(curly: bool) returns (r: Result<Node, Error>)
      requires Valid()
      modifies this
      ensures Valid() && Agrees(r, Cursor(), Parsing.CodeBlock(builtins, tokens, old(Cursor()), curly))
      decreases |tokens| - Cursor(), 9, 0
    {
      ghost var i0 := Cursor();
      if Matches(currentTok, LCURLY, None) || !curly {
        if curly {
          var _ := Advance();
        }
        var endType := RCURLY;
        if !curly {
          endType := EOF;
        }
        ghost var start := Cursor();
        var body := [];
        while !Matches(currentTok, endType, None)
          invariant Valid() && i0 <= Cursor() && forall a :: a in body ==> IsStmt(a)
          invariant Block(builtins, tokens, start, endType, []) == Block(builtins, tokens, Cursor(), endType, body)
          decreases |tokens| - Cursor()
        {
          var action := Action();
          if action.Err? {
            return action;
          }
          body := body + [action.value];
        }
        if curly {
          var _ := Advance();
        }
        return Ok(CodeBlockNode(body));
      } else {
        return Err(SyntaxError(currentTok, "Expected {"));
      }
    }

    /** `action`: the statement forms, with the argument loop of builtin calls. */
    method Action() returns (r: Result<Node, Error>)
      requires Valid()
      modifies this
      ensures Valid() && Agrees(r, Cursor(), Parsing.Action(builtins, tokens, old(Cursor())))
      decreases |tokens| - Cursor(), 7, 0
    {
      if Matches(currentTok, KEYWORD, Some("func")) {
        r := FuncDecl();
      } else if Matches(currentTok, KEYWORD, Some("if")) {
        r := IfStmt();
      } else if Matches(currentTok, IDENTIFIER, None) {
        r := IdentStmt();
      } else {
        r := Err(SyntaxError(currentTok, "Expected func or if or identifier"));
      }
    }

    /** The `func` branch of `action`. */
    method FuncDecl() returns (r: Result<Node, Error>)
      requires Valid() && currentTok.kind == KEYWORD
      modifies this
      ensures Valid() && Agrees(r, Cursor(), Parsing.FuncDecl(builtins, tokens, old(Cursor())))
      decreases |tokens| - Cursor(), 6, 1
    {
      var _ := Advance();
      if !Matches(currentTok, IDENTIFIER, None) {
        return Err(SyntaxError(currentTok, "Expected identifier"));
      }
      var name := currentTok;
      var _ := Advance();
      if !Matches(currentTok, LPAREN, None) {
        return Err(SyntaxError(currentTok, "Expected ("));
      }
      var _ := Advance();
      if !Matches(currentTok, RPAREN, None) {
        return Err(SyntaxError(currentTok, "Expected )"));
      }
      var _ := Advance();
      var body := CodeBlock(true);
      if body.Err? {
        return body;
      }
      return Ok(FunctionNode(name, body.value));
    }

    /** The `if` branch of `action`. */
    method IfStmt() returns (r: Result<Node, Error>)
      requires Valid() && currentTok.kind == KEYWORD
      modifies this
      ensures Valid() && Agrees(r, Cursor(), Parsing.IfStmt(builtins, tokens, old(Cursor())))
      decreases |tokens| - Cursor(), 6, 1
    {
      var _ := Advance();
      var cond := Expr();
      if cond.Err? {
        return cond;
      }
      var body := CodeBlock(true);
      if body.Err? {
        return body;
      }
      return Ok(IfNode(cond.value, body.value));
    }

    /** The identifier branch of `action`: a call, with the argument loop of builtins, or an assignment. */
    method IdentStmt() returns (r: Result<Node, Error>)
      requires Valid() && currentTok.kind == IDENTIFIER
      modifies this
      ensures Valid() && Agrees(r, Cursor(), Parsing.IdentStmt(builtins, tokens, old(Cursor())))
      decreases |tokens| - Cursor(), 6, 1
    {
      ghost var i0 := Cursor();
      var name := currentTok;
      var _ := Advance();
      if Matches(currentTok, LPAREN, None) {
        var _ := Advance();
        ghost var i2 := Cursor();
        var args := [];
        if IsBuiltin(builtins, name) {
          while !Matches(currentTok, RPAREN, None)
            invariant Valid() && i0 < Cursor() && forall a :: a in args ==> IsExpr(a)
            invariant Args(tokens, i2, []) == Args(tokens, Cursor(), args)
            decreases |tokens| - Cursor()
          {
            var arg := Expr();
            if arg.Err? {
              return arg;
            }
            args := args + [arg.value];
            if !(Matches(currentTok, COMMA, None) || Matches(currentTok, RPAREN, None)) {
              return Err(SyntaxError(currentTok, "Expected , or )"));
            }
            if Matches(currentTok, RPAREN, None) {
              break;
            } else {
              var _ := Advance();
            }
          }
        } else {
          if !Matches(currentTok, RPAREN, None) {
            return Err(SyntaxError(currentTok, "Expected )"));
          }
        }
        var _ := Advance();
        return Ok(CallNode(name, args));
      }
      if !Matches(currentTok, EQ, None) {
        return Err(SyntaxError(currentTok, "Expected ="));
      }
      var _ := Advance();
      var value := Expr();
      if value.Err? {
        return value;
      }
      return Ok(VarAssignNode(name, value.value));
    }

    /** `parse`: the top-level block up to `EOF`. */
    method Parse() returns (r: Result<Node, Error>)
      requires Valid() && Cursor() == 0
      modifies this
      ensures Valid() && Agrees(r, Cursor(), Parsing.Parse(builtins, tokens))
    {
      r := CodeBlock(false);
    }
  }
}
