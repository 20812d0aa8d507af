/**
 * The reference definition of the code generator of compiler.py: each `visit_*` method as a
 * function from the generator's state to its returned text and its new state.
 */
module Lowering {
  import opened Wrappers
  import opened Text
  import opened Lexing
  import opened Ast

  /** The generator's fixed inputs: the namespace, `LETTERS` and `BUILTINFUNC`. */
  datatype Env = Env(namespace: string, letters: string, builtins: set<string>)

  const LOAD_FILE := "load.mcfunction"

  /** The text `writeFile` puts before the body of `load.mcfunction`. */
  const LOAD_TEMPLATE :=
    "scoreboard objectives add MClangVars dummy {\"text\": \"MCLang Variables\"}\n" +
    "scoreboard objectives add MClangTemp dummy {\"text\": \"MCLang Temp\"}\n"

  /**
   * The `Compiler` fields a visit reads and updates. `files` stands for the project folder:
   * the text each written file ends up holding, by file name.
   */
  datatype GenState = GenState(
    tempInner: nat,
    resultInner: nat,
    condNot: bool,
    count: nat,
    codeBlocks: seq<Node>,
    functions: seq<Token>,
    files: map<string, string>)

  /** The state `Compiler.__init__` sets up. */
  const Initial := GenState(0, 0, false, 0, [], [], map[])

  /**
   * What a visit returns: text, or nothing (`None`), which the visits of the source leave
   * to their callers.
   */
  datatype Out = Str(s: string) | Nothing

  /** The exceptions a visit can raise. */
  datatype GenError =
    | NoVisitMethod(node: Node)  // `visit` finds no `visit_StringNode`
    | IndexError(index: nat)     // a register beyond `LETTERS`
    | NotText                    // `None` appended to, or written as, text

  datatype Lowered = Lowered(out: Out, st: GenState)
  datatype Piece = Piece(code: string, st: GenState)
  datatype Texts = Texts(texts: seq<string>, st: GenState)

  /** `f"{v}"` for a value embedded in the output. */
  function Show(o: Out): string {
    if o.Str? then o.s else "None"
  }

  /** `f"{token.value}"`. Floats keep their lexeme. */
  function ValueText(v: Value): string {
    match v
    case NoValue => "None"
    case IntValue(n) => NatToString(n)
    case FloatValue(lexeme) => lexeme
    case Word(text) => text
  }

  /** `const.LETTERS[i]`: the name of scratch register `i`. */
  function Register(env: Env, i: nat): (r: Result<string, GenError>)
    ensures r.Ok? <==> i < |env.letters|
    ensures r.Ok? ==> r.value == [env.letters[i]]
    ensures r.Err? ==> r.error == IndexError(i)
  {
    if i < |env.letters| then Ok([env.letters[i]]) else Err(IndexError(i))
  }

  /** The name of the artifact for the `k`-th conditional. */
  function IfName(k: nat): string {
    "if_" + NatToString(k)
  }

  /** `writeFile`: the file holds the text, after the template for `load.mcfunction`. */
  function WriteFile(st: GenState, name: string, text: Out): (r: Result<GenState, GenError>)
    ensures r.Ok? <==> text.Str?
    ensures r.Ok? ==> r.value == st.(files := st.files[name := (if name == LOAD_FILE then LOAD_TEMPLATE else "") + text.s])
  {
    if text.Nothing? then Err(NotText)
    else Ok(st.(files := st.files[name := (if name == LOAD_FILE then LOAD_TEMPLATE else "") + text.s]))
  }

  /** What `visit_BinOpNode` derives from the operator: the sign, the test and whether it compares. */
  datatype OpInfo = OpInfo(sign: string, ex: string, comp: bool)

  function OpOf(op: Token): OpInfo {
    if Matches(op, ADD, None) then OpInfo("+=", "", false)
    else if Matches(op, SUB, None) then OpInfo("-=", "", false)
    else if Matches(op, MUL, None) then OpInfo("*=", "", false)
    else if Matches(op, DIV, None) then OpInfo("/=", "", false)
    else if Matches(op, EE, None) then OpInfo("=", "if", true)
    else if Matches(op, NE, None) then OpInfo("=", "unless", true)
    else OpInfo("", "", false)
  }

  /** A set `condNot` turns `unless` into `if` and anything else into `unless`. */
  function Test(ex: string, condNot: bool): string {
    if !condNot then ex else if ex == "unless" then "if" else "unless"
  }

  /** `code[:-1]`. */
  function DropLast(s: string): string {
    if |s| == 0 then s else s[..|s| - 1]
  }

  /** The trailing-newline strip at the end of `visit_BinOpNode`. */
  function DropNewline(s: string): string {
    if |s| > 0 && s[|s| - 1] == '\n' then s[..|s| - 1] else s
  }

  /** Each text followed by a newline, as the loop of `visit_CodeBlockNode` builds it. */
  function Terminated(texts: seq<string>): string {
    if texts == [] then "" else texts[0] + "\n" + Terminated(texts[1..])
  }

  // ---------------------------------------------------------------------------
  // The command formats the visits emit

  /** `<x> MClangVars`: a variable's cell. */
  function VarRef(x: string): string {
    x + " MClangVars"
  }

  /** `scoreboard players set <x> MClangVars <v>`. */
  function SetVar(x: string, v: string): string {
    "scoreboard players set " + x + " MClangVars " + v
  }

  /** `scoreboard players operation <x> MClangVars = <reg> MClangTemp`. */
  function StoreVar(x: string, reg: string): string {
    "scoreboard players operation " + x + " MClangVars = " + reg + " MClangTemp"
  }

  /** `scoreboard players set <reg> MClangTemp <v>`. */
  function SetTemp(reg: string, v: string): string {
    "scoreboard players set " + reg + " MClangTemp " + v
  }

  /** `scoreboard players operation <reg> MClangTemp = <cell>`. */
  function CopyTemp(reg: string, cell: string): string {
    "scoreboard players operation " + reg + " MClangTemp = " + cell
  }

  /** `scoreboard players operation <dst> MClangTemp <sign> <src> MClangTemp`. */
  function Combine(dst: string, sign: string, src: string): string {
    "scoreboard players operation " + dst + " MClangTemp " + sign + " " + src + " MClangTemp"
  }

  /** `execute <test> score <a> MClangTemp <sign> <b> MClangTemp`. */
  function Execute(test: string, a: string, sign: string, b: string): string {
    "execute " + test + " score " + a + " MClangTemp " + sign + " " + b + " MClangTemp"
  }

  /** `function <namespace>:<name>`. */
  function CallFunction(namespace: string, name: string): string {
    "function " + namespace + ":" + name
  }

  /** `<guard> run function <namespace>:<name>`. */
  function RunIf(guard: string, namespace: string, name: string): string {
    guard + " run " + CallFunction(namespace, name)
  }

  /** `<before>\ntellraw @a <component>`. */
  function Tellraw(before: string, component: string): string {
    before + "\ntellraw @a " + component
  }

  function TextComponent(v: string): string {
    "{\"text\":\"" + v + "\"}"
  }

  function ScoreComponent(name: string, objective: string): string {
    "{\"score\": {\"name\":\"" + name + "\",\"objective\":\"" + objective + "\"}}"
  }

  /** `visit`: dispatch on the node's class. */
  function Lower(env: Env, st: GenState, n: Node): Result<Lowered, GenError>
    decreases n, 1, 0
  {
    match n
    case CodeBlockNode(_) => LowerBlock(env, st, n)
    case FunctionNode(_, _) => LowerFunction(env, st, n)
    case NumberNode(t) => Ok(Lowered(Str(ValueText(t.value)), st))
    case CallNode(_, _) => LowerCall(env, st, n)
    case VarAccessNode(t) => Ok(Lowered(Str(VarRef(ValueText(t.value))), st))
    case VarAssignNode(_, _) => LowerAssign(env, st, n)
    case UnaryOpNode(_, _) => LowerUnary(env, st, n)
    case IfNode(_, _) => LowerIf(env, st, n)
    case BinOpNode(_, _, _) => LowerBinOp(env, st, n)
    case StringNode(_) => Err(NoVisitMethod(n))
  }

  /** `visit_CodeBlockNode`: the statements' texts, each followed by a newline, less the last one. */
  function LowerBlock(env: Env, st: GenState, n: Node): Result<Lowered, GenError>
    requires n.CodeBlockNode?
    decreases n, 0, |n.stmts| + 1
  {
    var r :- LowerStmts(env, st.(codeBlocks := st.codeBlocks + [n]), n, 0);
    Ok(Lowered(Str(DropLast(Terminated(r.texts))), r.st))
  }

  /** `visit_FunctionNode`: the body's text, also written to the function's own file. */
  function LowerFunction(env: Env, st: GenState, n: Node): Result<Lowered, GenError>
    requires n.FunctionNode?
    decreases n, 0, 0
  {
    var b :- Lower(env, st.(functions := st.functions + [n.name]), n.body);
    var st' :- WriteFile(b.st, ValueText(n.name.value) + ".mcfunction", b.out);
    Ok(Lowered(b.out, st'))
  }

  /**
   * `visit_VarAssignNode`: an operator value is computed into the scratch registers from
   * `resultInner` 0 and stored from the last one; any other value is set directly.
   */
  function LowerAssign(env: Env, st: GenState, n: Node): Result<Lowered, GenError>
    requires n.VarAssignNode?
    decreases n, 0, 0
  {
    var x := ValueText(n.name.value);
    if n.value.BinOpNode? then
      var e :- Lower(env, st.(resultInner := 0), n.value);
      var reg :- Register(env, e.st.resultInner);
      Ok(Lowered(Str(Show(e.out) + "\n" + StoreVar(x, reg)), e.st))
    else
      var e :- Lower(env, st, n.value);
      Ok(Lowered(Str(SetVar(x, Show(e.out))), e.st))
  }

  /** `visit_UnaryOpNode`: `!` sets `condNot` for its operand; `-` negates the operand's text. */
  function LowerUnary(env: Env, st: GenState, n: Node): Result<Lowered, GenError>
    requires n.UnaryOpNode?
    decreases n, 0, 0
  {
    if Matches(n.op, NOT, None) then Lower(env, st.(condNot := true), n.value)
    else if Matches(n.op, SUB, None) then
      var e :- Lower(env, st, n.value);
      Ok(Lowered(Str("-" + Show(e.out)), e.st))
    else Ok(Lowered(Nothing, st))
  }

  /**
   * `visit_IfNode`: the body goes to the file of the next conditional number, and the
   * condition's text guards a call of that file.
   */
  function LowerIf(env: Env, st: GenState, n: Node): Result<Lowered, GenError>
    requires n.IfNode?
    decreases n, 0, 0
  {
    var st1 := st.(count := st.count + 1);
    var fileName := IfName(st1.count);
    var b :- Lower(env, st1, n.body);
    var st2 :- WriteFile(b.st, fileName + ".mcfunction", b.out);
    var c :- Lower(env, st2, n.cond);
    Ok(Lowered(Str(RunIf(Show(c.out), env.namespace, fileName)), c.st))
  }

  /** The loop of `visit_CodeBlockNode` from statement `k` on: each statement's text, in order. */
  function LowerStmts(env: Env, st: GenState, blk: Node, k: nat): Result<Texts, GenError>
    requires blk.CodeBlockNode? && k <= |blk.stmts|
    decreases blk, 0, |blk.stmts| - k
  {
    if k == |blk.stmts| then Ok(Texts([], st))
    else
      var a :- Lower(env, st, blk.stmts[k]);
      if a.out.Nothing? then Err(NotText)
      else
        var rest :- LowerStmts(env, a.st, blk, k + 1);
        Ok(Texts([a.out.s] + rest.texts, rest.st))
  }

  /** `visit_CallNode`: a call of a user function, or `print` of its first argument. */
  function LowerCall(env: Env, st: GenState, n: Node): Result<Lowered, GenError>
    requires n.CallNode?
    decreases n, 0, 0
  {
    var funcName := ValueText(n.callee.value);
    if |n.args| > 0 then
      if funcName in env.builtins && funcName == "print" then
        var arg := n.args[0];
        if arg.NumberNode? then
          var v :- Lower(env, st, arg);
          Ok(Lowered(Str(Tellraw("", TextComponent(Show(v.out)))), v.st))
        else if arg.VarAccessNode? then
          Ok(Lowered(Str(Tellraw("", ScoreComponent(ValueText(arg.name.value), "MClangVars"))), st))
        else if arg.BinOpNode? then
          var e :- Lower(env, st, arg);
          Ok(Lowered(Str(Tellraw(Show(e.out), ScoreComponent("a", "MClangTemp"))), e.st))
        else Ok(Lowered(Str(Tellraw("", "{}")), st))
      else Ok(Lowered(Nothing, st))
    else Ok(Lowered(Str(CallFunction(env.namespace, funcName)), st))
  }

  /** `visit_BinOpNode`: the left operand, the right operand, the comparison, then the pop. */
  function LowerBinOp(env: Env, st: GenState, n: Node): Result<Lowered, GenError>
    requires n.BinOpNode?
    decreases n, 0, 0
  {
    var info := OpOf(n.op);
    var ex := Test(info.ex, st.condNot);
    var left :- LowerLeft(env, st, n.left);
    var right :- LowerRight(env, left.st, n.right, info);
    var fin :- Compare(env, right.st, info, ex);
    var t := right.st.tempInner;
    Ok(Lowered(Str(DropNewline(left.code + right.code + fin)),
      right.st.(tempInner := if t > 0 then t - 1 else t)))
  }

  /** The left operand: loaded into register `tempInner`, or lowered one register deeper. */
  function LowerLeft(env: Env, st: GenState, l: Node): Result<Piece, GenError>
    decreases l, 2, 0
  {
    if l.NumberNode? then
      var reg :- Register(env, st.tempInner);
      var v :- Lower(env, st, l);
      Ok(Piece(SetTemp(reg, Show(v.out)) + "\n", v.st))
    else if l.VarAccessNode? then
      var reg :- Register(env, st.tempInner);
      var v :- Lower(env, st, l);
      Ok(Piece(CopyTemp(reg, Show(v.out)) + "\n", v.st))
    else if l.BinOpNode? then
      var e :- Lower(env, st.(tempInner := st.tempInner + 1, resultInner := st.resultInner + 1), l);
      Ok(Piece(Show(e.out) + "\n", e.st))
    else Ok(Piece("", st))
  }

  /**
   * The right operand: a number goes to register `tempInner + 1` and is combined into
   * `tempInner`; a variable is copied into `tempInner` itself; a nested expression is lowered
   * one register deeper and combined from `resultInner`.
   */
  function LowerRight(env: Env, st: GenState, r: Node, info: OpInfo): Result<Piece, GenError>
    decreases r, 2, 0
  {
    if r.NumberNode? then
      var reg1 :- Register(env, st.tempInner + 1);
      var v :- Lower(env, st, r);
      var load := SetTemp(reg1, Show(v.out)) + "\n";
      if !info.comp then
        var reg0 :- Register(env, v.st.tempInner);
        var reg1' :- Register(env, v.st.tempInner + 1);
        Ok(Piece(load + Combine(reg0, info.sign, reg1') + "\n", v.st))
      else Ok(Piece(load, v.st))
    else if r.VarAccessNode? then
      var reg :- Register(env, st.tempInner);
      var v :- Lower(env, st, r);
      Ok(Piece(CopyTemp(reg, Show(v.out)) + "\n", v.st))
    else if r.BinOpNode? then
      var e :- Lower(env, st.(tempInner := st.tempInner + 1, resultInner := st.resultInner + 1), r);
      var code := Show(e.out) + "\n";
      if !info.comp then
        var regR :- Register(env, e.st.resultInner);
        var regT :- Register(env, e.st.tempInner);
        Ok(Piece(code + Combine(regR, info.sign, regT) + "\n", e.st))
      else Ok(Piece(code, e.st))
    else Ok(Piece("", st))
  }

  /** The `execute` test a comparison emits, only at the outermost register. */
  function Compare(env: Env, st: GenState, info: OpInfo, ex: string): Result<string, GenError> {
    if info.comp && st.tempInner <= 0 then
      var reg0 :- Register(env, st.tempInner);
      var reg1 :- Register(env, st.tempInner + 1);
      Ok(Execute(ex, reg0, info.sign, reg1))
    else Ok("")
  }

  /** `Compiler(projFolder, namespace).visit(ast)`. */
  function Compile(env: Env, ast: Node): Result<Lowered, GenError> {
    Lower(env, Initial, ast)
  }
}
