/**
 * The `Compiler` class of compiler.py: a visitor that builds command text with `code +=` while
 * it updates its counters, its lists and the files of the project folder. Every visit is
 * proved to return what the reference lowering returns and to leave the state it describes.
 */
module Compiler {
  import opened Wrappers
  import opened Lexing
  import opened Ast
  import opened Lowering
  import LoweringProps

  /**
   * A visit agrees with the reference lowering: it returns the same text and leaves the same
   * state, or it fails with the same error.
   */
  ghost predicate Agrees(r: Result<Out, GenError>, st: GenState, spec: Result<Lowered, GenError>) {
    match spec
    case Ok(l) => r == Ok(l.out) && st == l.st
    case Err(e) => r == Err(e)
  }

  /** The statement texts gathered so far, put in front of what the rest of a block lowers to. */
  function After(done: seq<string>, rest: Result<Texts, GenError>): Result<Texts, GenError> {
    match rest
    case Ok(t) => Ok(Texts(done + t.texts, t.st))
    case Err(e) => Err(e)
  }

  lemma AfterNothing(rest: Result<Texts, GenError>)
    ensures After([], rest) == rest
  {
    if rest.Ok? {
      assert [] + rest.value.texts == rest.value.texts;
    }
  }

  /** A block lowers to its statements' terminated texts less the last character, or fails as they do. */
  lemma BlockResult(env: Env, st: GenState, n: Node)
    requires n.CodeBlockNode?
    ensures Lower(env, st, n) ==
      match LowerStmts(env, st.(codeBlocks := st.codeBlocks + [n]), n, 0)
      case Ok(r) => Ok(Lowered(Str(DropLast(Terminated(r.texts))), r.st))
      case Err(e) => Err(e)
  {
    assert Lower(env, st, n) == LowerBlock(env, st, n);
  }

  /**
   * One round of the statement loop: a failing statement fails the block, one that gives no
   * text fails it with `NotText`, and otherwise its text joins those gathered so far.
   */
  lemma StmtsStep(env: Env, st: GenState, n: Node, k: nat, texts: seq<string>)
    requires n.CodeBlockNode? && k < |n.stmts|
    ensures var a := Lower(env, st, n.stmts[k]);
      (a.Err? ==> After(texts, LowerStmts(env, st, n, k)) == Err(a.error)) &&
      (a.Ok? && a.value.out.Nothing? ==> After(texts, LowerStmts(env, st, n, k)) == Err(NotText)) &&
      (a.Ok? && a.value.out.Str? ==>
        After(texts, LowerStmts(env, st, n, k)) == After(texts + [a.value.out.s], LowerStmts(env, a.value.st, n, k + 1)))
  {
    var a := Lower(env, st, n.stmts[k]);
    if a.Ok? && a.value.out.Str? {
      var rest := LowerStmts(env, a.value.st, n, k + 1);
      if rest.Ok? {
        assert texts + ([a.value.out.s] + rest.value.texts) == texts + [a.value.out.s] + rest.value.texts;
      }
    }
  }

  /** `code += text; code += "\n"` extends the newline-terminated texts by one. */
  lemma {:induction false} TerminatedSnoc(texts: seq<string>, s: string)
    ensures Terminated(texts + [s]) == Terminated(texts) + s + "\n"
  {
    if texts == [] {
      assert [] + [s] == [s];
      assert [s][1..] == [];
    } else {
      assert (texts + [s])[0] == texts[0];
      assert (texts + [s])[1..] == texts[1..] + [s];
      TerminatedSnoc(texts[1..], s);
    }
  }

  class Compiler {
    /** The namespace, `LETTERS` and `BUILTINFUNC`; the project folder is `files`. */
    const env: Env
    var tempInner: nat
    var resultInner: nat
    var condNot: bool
    var count: nat
    var codeBlocks: seq<Node>
    var functions: seq<Token>
    var files: map<string, string>

    function State(): GenState
      reads this
    {
      GenState(tempInner, resultInner, condNot, count, codeBlocks, functions, files)
    }

    /** `Compiler.__init__`: zero counters, empty lists and an empty project folder. */
    constructor (namespace: string, letters: string, builtins: set<string>)
      ensures env == Env(namespace, letters, builtins) && State() == Initial
    {
      env := Env(namespace, letters, builtins);
      tempInner, resultInner := 0, 0;
      condNot := false;
      count := 0;
      codeBlocks, functions := [], [];
      files := map[];
    }

    /** `visit`: the visit method of the node's class; a string node has none. */
    method Visit(n: Node) returns (r: Result<Out, GenError>)
      modifies this
      ensures Agrees(r, State(), Lower(env, old(State()), n))
      decreases n, 1, 0
    {
      match n
      case CodeBlockNode(_) => r := VisitCodeBlock(n);
      case FunctionNode(_, _) => r := VisitFunction(n);
      case NumberNode(_) =>
        var s := VisitNumber(n);
        r := Ok(Str(s));
      case CallNode(_, _) => r := VisitCall(n);
      case VarAccessNode(_) =>
        var s := VisitVarAccess(n);
        r := Ok(Str(s));
      case VarAssignNode(_, _) => r := VisitVarAssign(n);
      case UnaryOpNode(_, _) => r := VisitUnaryOp(n);
      case IfNode(_, _) => r := VisitIf(n);
      case BinOpNode(_, _, _) => r := VisitBinOp(n);
      case StringNode(_) => r := Err(NoVisitMethod(n));
    }

    /**
     * `writeFile`: the file ends up holding the text, after the objectives template when it
     * is the load file. Writing `None` fails.
     */
    method WriteFile(name: string, text: Out) returns (r: Result<(), GenError>)
      modifies this
      ensures match Lowering.WriteFile(old(State()), name, text)
        case Ok(st) => r.Ok? && State() == st
        case Err(e) => r == Err(e)
    {
      if text.Nothing? {
        return Err(NotText);
      }
      var template := if name == LOAD_FILE then LOAD_TEMPLATE else "";
      files := files[name := template + text.s];
      return Ok(());
    }

    /** `visit_CodeBlockNode`: each statement's text and a newline, without the last newline. */
    method VisitCodeBlock(n: Node) returns (r: Result<Out, GenError>)
      requires n.CodeBlockNode?
      modifies this
      ensures Agrees(r, State(), Lower(env, old(State()), n))
      decreases n, 0, 0
    {
      BlockResult(env, State(), n);
      codeBlocks := codeBlocks + [n];
      ghost var st1 := State();
      var code := "";
      ghost var texts: seq<string> := [];
      var k := 0;
      AfterNothing(LowerStmts(env, st1, n, 0));
      while k < |n.stmts|
        invariant 0 <= k <= |n.stmts|
        invariant code == Terminated(texts)
        invariant LowerStmts(env, st1, n, 0) == After(texts, LowerStmts(env, State(), n, k))
        decreases |n.stmts| - k
      {
        StmtsStep(env, State(), n, k, texts);
        var a := Visit(n.stmts[k]);
        if a.Err? {
          return Err(a.error);
        }
        if a.value.Nothing? {
          return Err(NotText);
        }
        TerminatedSnoc(texts, a.value.s);
        code := code + a.value.s + "\n";
        texts := texts + [a.value.s];
        k := k + 1;
      }
      assert texts + [] == texts;
      code := DropLast(code);
      return Ok(Str(code));
    }

    /** `visit_FunctionNode`: the body's text, also written to `<name>.mcfunction`. */
    method VisitFunction(n: Node) returns (r: Result<Out, GenError>)
      requires n.FunctionNode?
      modifies this
      ensures Agrees(r, State(), Lower(env, old(State()), n))
      decreases n, 0, 0
    {
      functions := functions + [n.name];
      var code :- Visit(n.body);
      var _ :- WriteFile(ValueText(n.name.value) + ".mcfunction", code);
      return Ok(code);
    }

    /** `visit_NumberNode`: the literal's text. */
    method VisitNumber(n: Node) returns (s: string)
      requires n.NumberNode?
      ensures Lower(env, State(), n) == Ok(Lowered(Str(s), State()))
    {
      s := ValueText(n.token.value);
    }

    /** `visit_VarAccessNode`: the variable's cell. */
    method VisitVarAccess(n: Node) returns (s: string)
      requires n.VarAccessNode?
      ensures Lower(env, State(), n) == Ok(Lowered(Str(s), State()))
    {
      s := VarRef(ValueText(n.name.value));
    }

    /**
     * `visit_CallNode`: with no arguments a call of the namespaced function; `print` shows its
     * first argument; any other call with arguments returns `None`.
     */
    method VisitCall(n: Node) returns (r: Result<Out, GenError>)
      requires n.CallNode?
      modifies this
      ensures Agrees(r, State(), Lower(env, old(State()), n))
      decreases n, 0, 0
    {
      if |n.args| > 0 {
        var funcName := ValueText(n.callee.value);
        if funcName in env.builtins {
          if funcName == "print" {
            var comp := "{}";
            var before := "";
            var arg := n.args[0];
            if arg.NumberNode? {
              var v := Visit(arg);
              comp := TextComponent(Show(v.value));
            } else if arg.VarAccessNode? {
              comp := ScoreComponent(ValueText(arg.name.value), "MClangVars");
            } else if arg.BinOpNode? {
              var v :- Visit(arg);
              before := Show(v);
              comp := ScoreComponent("a", "MClangTemp");
            }
            return Ok(Str(Tellraw(before, comp)));
          }
        }
        return Ok(Nothing);
      } else {
        return Ok(Str(CallFunction(env.namespace, ValueText(n.callee.value))));
      }
    }

    /**
     * `visit_VarAssignNode`: an expression is computed from `resultInner` zero and stored from
     * the register it ends in; anything else is set directly.
     */
    method VisitVarAssign(n: Node) returns (r: Result<Out, GenError>)
      requires n.VarAssignNode?
      modifies this
      ensures Agrees(r, State(), Lower(env, old(State()), n))
      decreases n, 0, 0
    {
      if n.value.BinOpNode? {
        resultInner := 0;
        var e :- Visit(n.value);
        var reg :- Register(env, resultInner);
        return Ok(Str(Show(e) + "\n" + StoreVar(ValueText(n.name.value), reg)));
      }
      var e :- Visit(n.value);
      return Ok(Str(SetVar(ValueText(n.name.value), Show(e))));
    }

    /** `visit_UnaryOpNode`: `!` sets `condNot`; `-` negates the text; otherwise `None`. */
    method VisitUnaryOp(n: Node) returns (r: Result<Out, GenError>)
      requires n.UnaryOpNode?
      modifies this
      ensures Agrees(r, State(), Lower(env, old(State()), n))
      decreases n, 0, 0
    {
      if Matches(n.op, NOT, None) {
        condNot := true;
        r := Visit(n.value);
      } else if Matches(n.op, SUB, None) {
        var e :- Visit(n.value);
        r := Ok(Str("-" + Show(e)));
      } else {
        r := Ok(Nothing);
      }
    }

    /**
     * `visit_IfNode`: the next conditional number names the file the body is written to; the
     * condition then guards a call of it.
     */
    method VisitIf(n: Node) returns (r: Result<Out, GenError>)
      requires n.IfNode?
      modifies this
      ensures Agrees(r, State(), Lower(env, old(State()), n))
      decreases n, 0, 0
    {
      count := count + 1;
      var fileName := IfName(count);
      var body :- Visit(n.body);
      var _ :- WriteFile(fileName + ".mcfunction", body);
      var cond :- Visit(n.cond);
      return Ok(Str(RunIf(Show(cond), env.namespace, fileName)));
    }

    /**
     * `visit_BinOpNode`: the left operand into register `tempInner` (or one level deeper), the
     * right operand combined into it, the comparison at the outermost level, then one register
     * popped.
     */
    method VisitBinOp(n: Node) returns (r: Result<Out, GenError>)
      requires n.BinOpNode?
      modifies this
      ensures Agrees(r, State(), LowerBinOp(env, old(State()), n))
      decreases n, 0, 0
    {
      ghost var st0 := State();
      LoweringProps.BinOpFails(env, st0, n);
      var info := OpOf(n.op);
      var exType := Test(info.ex, condNot);
      var code := "";
      var left := VisitLeft(n.left);
      if left.Err? {
        return Err(left.error);
      }
      ghost var a := Piece(left.value, State());
      assert "" + left.value == left.value;
      code := code + left.value;
      var right := VisitRight(n.right, info);
      if right.Err? {
        return Err(right.error);
      }
      ghost var b := Piece(right.value, State());
      code := code + right.value;
      var cmp := Compare(env, State(), info, exType);
      if cmp.Err? {
        return Err(cmp.error);
      }
      var fin := cmp.value;
      LoweringProps.BinOpSteps(env, st0, n, a, b, fin);
      code := DropNewline(code + fin);
      if tempInner > 0 {
        tempInner := tempInner - 1;
      }
      return Ok(Str(code));
    }

    /** The left-operand branch of `visit_BinOpNode`. */
    method VisitLeft(l: Node) returns (r: Result<string, GenError>)
      modifies this
      ensures match LowerLeft(env, old(State()), l)
        case Ok(p) => r == Ok(p.code) && State() == p.st
        case Err(e) => r == Err(e)
      decreases l, 2, 0
    {
      if l.NumberNode? {
        var reg :- Register(env, tempInner);
        var v := Visit(l);
        return Ok(SetTemp(reg, Show(v.value)) + "\n");
      } else if l.VarAccessNode? {
        var reg :- Register(env, tempInner);
        var v := Visit(l);
        return Ok(CopyTemp(reg, Show(v.value)) + "\n");
      } else if l.BinOpNode? {
        tempInner := tempInner + 1;
        resultInner := resultInner + 1;
        var v :- Visit(l);
        return Ok(Show(v) + "\n");
      }
      return Ok("");
    }

    /** The right-operand branch of `visit_BinOpNode`. */
    method VisitRight(rn: Node, info: OpInfo) returns (r: Result<string, GenError>)
      modifies this
      ensures match LowerRight(env, old(State()), rn, info)
        case Ok(p) => r == Ok(p.code) && State() == p.st
        case Err(e) => r == Err(e)
      decreases rn, 2, 0
    {
      if rn.NumberNode? {
        var reg1 :- Register(env, tempInner + 1);
        var v := Visit(rn);
        var code := SetTemp(reg1, Show(v.value)) + "\n";
        if !info.comp {
          // Both registers were looked up already, so neither lookup can fail here.
          var reg0 := Register(env, tempInner).value;
          var reg1' := Register(env, tempInner + 1).value;
          code := code + Combine(reg0, info.sign, reg1') + "\n";
        }
        return Ok(code);
      } else if rn.VarAccessNode? {
        var reg :- Register(env, tempInner);
        var v := Visit(rn);
        return Ok(CopyTemp(reg, Show(v.value)) + "\n");
      } else if rn.BinOpNode? {
        tempInner := tempInner + 1;
        resultInner := resultInner + 1;
        var v :- Visit(rn);
        var code := Show(v) + "\n";
        if !info.comp {
          var regR :- Register(env, resultInner);
          var regT :- Register(env, tempInner);
          code := code + Combine(regR, info.sign, regT) + "\n";
        }
        return Ok(code);
      }
      return Ok("");
    }
  }

  /**
   * A fresh generator visiting a whole program: the returned text and the project folder it
   * leaves are those of the reference lowering from the initial state.
   */
  method CompileProgram(namespace: string, letters: string, builtins: set<string>, ast: Node)
    returns (r: Result<Out, GenError>, files: map<string, string>)
    ensures match Compile(Env(namespace, letters, builtins), ast)
      case Ok(l) => r == Ok(l.out) && files == l.st.files
      case Err(e) => r == Err(e)
  {
    var c := new Compiler(namespace, letters, builtins);
    r := c.Visit(ast);
    files := c.files;
  }
}
