/** Properties of the code generator: what each visit keeps, what it writes, what it emits. */
module LoweringProps {
  import opened Wrappers
  import opened Text
  import opened Lexing
  import opened Ast
  import opened Lowering

  function IfFile(k: nat): string {
    IfName(k) + ".mcfunction"
  }

  /** Conditional artifacts have distinct names. */
  lemma IfFilesDistinct(j: nat, k: nat)
    requires j != k
    ensures IfFile(j) != IfFile(k)
  {
    if IfFile(j) == IfFile(k) {
      var sj, sk := NatToString(j), NatToString(k);
      assert |sj| == |sk| by {
        assert |IfFile(j)| == 3 + |sj| + 11;
        assert |IfFile(k)| == 3 + |sk| + 11;
      }
      assert sj == IfFile(j)[3..3 + |sj|];
      assert sk == IfFile(k)[3..3 + |sk|];
      NatToStringInjective(j, k);
    }
  }

  /** `tempInner -= 1` when positive. */
  function Pop(t: nat): nat {
    if t > 0 then t - 1 else t
  }

  /**
   * What no visit undoes: the conditional counter only rises; every file stays written and
   * each new conditional's artifact is among them; `condNot`, once set, stays set; the
   * `codeBlocks` and `functions` lists are only appended to.
   */
  predicate Grows(s: GenState, s': GenState) {
    s.count <= s'.count && s.files.Keys <= s'.files.Keys &&
    (forall k :: s.count < k <= s'.count ==> IfFile(k) in s'.files) &&
    (s.condNot ==> s'.condNot) &&
    s.codeBlocks <= s'.codeBlocks && s.functions <= s'.functions
  }

  lemma GrowsTrans(a: GenState, b: GenState, c: GenState)
    requires Grows(a, b) && Grows(b, c)
    ensures Grows(a, c)
  {
    forall k | a.count < k <= c.count
      ensures IfFile(k) in c.files
    {
      if k <= b.count {
        assert IfFile(k) in b.files;
      }
    }
  }

  // ---------------------------------------------------------------------------
  // The state every visit keeps

  lemma {:induction false} LowerGrows(env: Env, st: GenState, n: Node)
    ensures Lower(env, st, n).Ok? ==>
      var st' := Lower(env, st, n).value.st;
      Grows(st, st') && st'.tempInner <= st.tempInner
    ensures Lower(env, st, n).Ok? && n.BinOpNode? ==> Lower(env, st, n).value.st.tempInner == Pop(st.tempInner)
    decreases n, 1, 0
  {
    match n
    case CodeBlockNode(_) => BlockGrows(env, st, n);
    case FunctionNode(_, _) => FunctionGrows(env, st, n);
    case NumberNode(_) =>
    case CallNode(_, _) => CallGrows(env, st, n);
    case VarAccessNode(_) =>
    case VarAssignNode(_, v) =>
      if v.BinOpNode? {
        LowerGrows(env, st.(resultInner := 0), v);
      } else {
        LowerGrows(env, st, v);
      }
    case UnaryOpNode(_, _) => UnaryGrows(env, st, n);
    case IfNode(_, _) => IfGrows(env, st, n);
    case BinOpNode(_, _, _) => BinOpGrows(env, st, n);
    case StringNode(_) =>
  }

  lemma {:induction false} BlockGrows(env: Env, st: GenState, n: Node)
    requires n.CodeBlockNode?
    ensures Lower(env, st, n).Ok? ==>
      var st' := Lower(env, st, n).value.st;
      Grows(st, st') && st'.tempInner <= st.tempInner
    decreases n, 0, |n.stmts| + 1
  {
    var st1 := st.(codeBlocks := st.codeBlocks + [n]);
    var r := LowerStmts(env, st1, n, 0);
    if r.Ok? {
      StmtsGrows(env, st1, n, 0);
      GrowsTrans(st, st1, r.value.st);
    }
  }

  lemma {:induction false} FunctionGrows(env: Env, st: GenState, n: Node)
    requires n.FunctionNode?
    ensures Lower(env, st, n).Ok? ==>
      var st' := Lower(env, st, n).value.st;
      Grows(st, st') && st'.tempInner <= st.tempInner
    decreases n, 0, 0
  {
    var st1 := st.(functions := st.functions + [n.name]);
    LowerGrows(env, st1, n.body);
    var b := Lower(env, st1, n.body);
    if b.Ok? {
      GrowsTrans(st, st1, b.value.st);
      var w := WriteFile(b.value.st, ValueText(n.name.value) + ".mcfunction", b.value.out);
      if w.Ok? {
        GrowsTrans(st, b.value.st, w.value);
      }
    }
  }

  lemma {:induction false} UnaryGrows(env: Env, st: GenState, n: Node)
    requires n.UnaryOpNode?
    ensures Lower(env, st, n).Ok? ==>
      var st' := Lower(env, st, n).value.st;
      Grows(st, st') && st'.tempInner <= st.tempInner
    decreases n, 0, 0
  {
    if Matches(n.op, NOT, None) {
      LowerGrows(env, st.(condNot := true), n.value);
    } else if Matches(n.op, SUB, None) {
      LowerGrows(env, st, n.value);
    }
  }

  lemma {:induction false} IfGrows(env: Env, st: GenState, n: Node)
    requires n.IfNode?
    ensures Lower(env, st, n).Ok? ==>
      var st' := Lower(env, st, n).value.st;
      Grows(st, st') && st'.tempInner <= st.tempInner
    decreases n, 0, 0
  {
    var st1 := st.(count := st.count + 1);
    LowerGrows(env, st1, n.body);
    var b := Lower(env, st1, n.body);
    if b.Ok? {
      var w := WriteFile(b.value.st, IfFile(st1.count), b.value.out);
      if w.Ok? {
        var st2 := w.value;
        LowerGrows(env, st2, n.cond);
        var c := Lower(env, st2, n.cond);
        if c.Ok? {
          GrowsTrans(st1, b.value.st, st2);
          GrowsTrans(st1, st2, c.value.st);
          assert IfFile(st1.count) in c.value.st.files;
          assert Lower(env, st, n) == Ok(Lowered(Str(RunIf(Show(c.value.out), env.namespace, IfName(st1.count))), c.value.st));
        }
      }
    }
  }

  lemma {:induction false} StmtsGrows(env: Env, st: GenState, blk: Node, k: nat)
    requires blk.CodeBlockNode? && k <= |blk.stmts|
    ensures LowerStmts(env, st, blk, k).Ok? ==>
      var st' := LowerStmts(env, st, blk, k).value.st;
      Grows(st, st') && st'.tempInner <= st.tempInner
    decreases blk, 0, |blk.stmts| - k
  {
    if k < |blk.stmts| && LowerStmts(env, st, blk, k).Ok? {
      LowerGrows(env, st, blk.stmts[k]);
      var a := Lower(env, st, blk.stmts[k]).value;
      StmtsGrows(env, a.st, blk, k + 1);
      GrowsTrans(st, a.st, LowerStmts(env, st, blk, k).value.st);
    }
  }

  lemma {:induction false} CallGrows(env: Env, st: GenState, n: Node)
    requires n.CallNode?
    ensures LowerCall(env, st, n).Ok? ==>
      var st' := LowerCall(env, st, n).value.st;
      Grows(st, st') && st'.tempInner <= st.tempInner
    decreases n, 0, 0
  {
    if |n.args| > 0 {
      LowerGrows(env, st, n.args[0]);
    }
  }

  lemma {:induction false} BinOpGrows(env: Env, st: GenState, n: Node)
    requires n.BinOpNode?
    ensures LowerBinOp(env, st, n).Ok? ==>
      var st' := LowerBinOp(env, st, n).value.st;
      Grows(st, st') && st'.tempInner == Pop(st.tempInner)
    decreases n, 0, 0
  {
    var r := LowerBinOp(env, st, n);
    if r.Ok? {
      LeftGrows(env, st, n.left);
      var left := LowerLeft(env, st, n.left).value;
      RightGrows(env, left.st, n.right, OpOf(n.op));
      var right := LowerRight(env, left.st, n.right, OpOf(n.op)).value;
      GrowsTrans(st, left.st, right.st);
    }
  }

  lemma {:induction false} LeftGrows(env: Env, st: GenState, l: Node)
    ensures LowerLeft(env, st, l).Ok? ==>
      var st' := LowerLeft(env, st, l).value.st;
      Grows(st, st') && st'.tempInner == st.tempInner
    decreases l, 2, 0
  {
    if LowerLeft(env, st, l).Ok? {
      if l.BinOpNode? {
        var st1 := st.(tempInner := st.tempInner + 1, resultInner := st.resultInner + 1);
        LowerGrows(env, st1, l);
      }
    }
  }

  lemma {:induction false} RightGrows(env: Env, st: GenState, r: Node, info: OpInfo)
    ensures LowerRight(env, st, r, info).Ok? ==>
      var st' := LowerRight(env, st, r, info).value.st;
      Grows(st, st') && st'.tempInner == st.tempInner
    decreases r, 2, 0
  {
    if LowerRight(env, st, r, info).Ok? {
      if r.BinOpNode? {
        var st1 := st.(tempInner := st.tempInner + 1, resultInner := st.resultInner + 1);
        LowerGrows(env, st1, r);
      }
    }
  }

  /**
   * The scratch depth never rises across a visit, so statements lowered from the initial
   * state all start at register 0; and a set `condNot` is never cleared.
   */
  lemma StatementsStartAtZero(env: Env, st: GenState, n: Node)
    requires st.tempInner == 0
    ensures Lower(env, st, n).Ok? ==> Lower(env, st, n).value.st.tempInner == 0
    ensures Lower(env, st, n).Ok? && st.condNot ==> Lower(env, st, n).value.st.condNot
  {
    LowerGrows(env, st, n);
  }

  /** Every conditional lowered gets an artifact of its own, named after its counter value. */
  lemma IfArtifactsWritten(env: Env, st: GenState, n: Node, k: nat)
    requires Lower(env, st, n).Ok? && st.count < k <= Lower(env, st, n).value.st.count
    ensures IfFile(k) in Lower(env, st, n).value.st.files
  {
    LowerGrows(env, st, n);
  }

  // ---------------------------------------------------------------------------
  // Arithmetic trees

  /** Numbers and variables combined by binary operators. */
  predicate IsArithTree(n: Node) {
    match n
    case NumberNode(_) => true
    case VarAccessNode(_) => true
    case BinOpNode(l, _, r) => IsArithTree(l) && IsArithTree(r)
    case _ => false
  }

  /** Binary-operator nesting: the deepest scratch register is `tempInner + Height`. */
  function Height(n: Node): nat {
    match n
    case BinOpNode(l, _, r) => 1 + (if Height(l) > Height(r) then Height(l) else Height(r))
    case _ => 0
  }

  /** Binary operators strictly below the root: each moves `resultInner` on by one. */
  function Inner(n: Node): nat {
    match n
    case BinOpNode(l, _, r) => Ops(l) + Ops(r)
    case _ => 0
  }

  function Ops(n: Node): nat {
    match n
    case BinOpNode(l, _, r) => 1 + Ops(l) + Ops(r)
    case _ => 0
  }

  /**
   * An arithmetic tree lowers to text without touching anything but the two scratch
   * counters, given enough registers: none beyond `tempInner + Height` and
   * `resultInner + Inner` is used. `tempInner` ends one lower (never below 0) and
   * `resultInner` has advanced once per nested operator.
   */
  lemma {:induction false} ArithLowering(env: Env, st: GenState, n: Node)
    requires IsArithTree(n) && st.tempInner + Height(n) < |env.letters| && st.resultInner + Inner(n) < |env.letters|
    ensures Lower(env, st, n).Ok? && Lower(env, st, n).value.out.Str?
    ensures Lower(env, st, n).value.st ==
      st.(tempInner := if n.BinOpNode? then Pop(st.tempInner) else st.tempInner,
          resultInner := st.resultInner + Inner(n))
    decreases n, 1
  {
    if n.BinOpNode? {
      var t, ri := st.tempInner, st.resultInner;
      ArithLeft(env, st, n.left);
      var left := LowerLeft(env, st, n.left).value;
      assert left.st == st.(resultInner := ri + Ops(n.left));
      ArithRight(env, left.st, n.right, OpOf(n.op));
      var right := LowerRight(env, left.st, n.right, OpOf(n.op)).value;
      assert right.st == st.(resultInner := ri + Ops(n.left) + Ops(n.right));
      var fin := Compare(env, right.st, OpOf(n.op), Test(OpOf(n.op).ex, st.condNot));
      assert fin.Ok?;
      BinOpAssembly(env, st, n, left, right, fin.value);
    }
  }

  lemma {:induction false} ArithLeft(env: Env, st: GenState, l: Node)
    requires IsArithTree(l) && st.tempInner + 1 + Height(l) < |env.letters|
    requires st.resultInner + Ops(l) < |env.letters|
    ensures LowerLeft(env, st, l).Ok? && LowerLeft(env, st, l).value.st == st.(resultInner := st.resultInner + Ops(l))
    decreases l, 2
  {
    if l.BinOpNode? {
      var st1 := st.(tempInner := st.tempInner + 1, resultInner := st.resultInner + 1);
      ArithLowering(env, st1, l);
      NestedLeft(env, st, l, Lower(env, st1, l).value);
    } else {
      LeafLeft(env, st, l);
    }
  }

  /** A leaf on the left is loaded into register `tempInner` and changes no state. */
  lemma LeafLeft(env: Env, st: GenState, l: Node)
    requires (l.NumberNode? || l.VarAccessNode?) && st.tempInner < |env.letters|
    ensures LowerLeft(env, st, l).Ok? && LowerLeft(env, st, l).value.st == st
  {
    assert Lower(env, st, l).Ok? && Lower(env, st, l).value.st == st;
  }

  /** A nested operator on the left is lowered one register deeper. */
  lemma NestedLeft(env: Env, st: GenState, l: Node, e: Lowered)
    requires l.BinOpNode?
    requires Lower(env, st.(tempInner := st.tempInner + 1, resultInner := st.resultInner + 1), l) == Ok(e)
    ensures LowerLeft(env, st, l) == Ok(Piece(Show(e.out) + "\n", e.st))
  {
  }

  lemma {:induction false} ArithRight(env: Env, st: GenState, r: Node, info: OpInfo)
    requires IsArithTree(r) && st.tempInner + 1 + Height(r) < |env.letters|
    requires st.resultInner + Ops(r) < |env.letters|
    ensures LowerRight(env, st, r, info).Ok? && LowerRight(env, st, r, info).value.st == st.(resultInner := st.resultInner + Ops(r))
    decreases r, 2
  {
    if r.BinOpNode? {
      var st1 := st.(tempInner := st.tempInner + 1, resultInner := st.resultInner + 1);
      ArithLowering(env, st1, r);
      NestedRight(env, st, r, info, Lower(env, st1, r).value);
    } else {
      LeafRight(env, st, r, info);
    }
  }

  /** A leaf on the right is loaded and combined within `tempInner + 1` and changes no state. */
  lemma LeafRight(env: Env, st: GenState, r: Node, info: OpInfo)
    requires (r.NumberNode? || r.VarAccessNode?) && st.tempInner + 1 < |env.letters|
    ensures LowerRight(env, st, r, info).Ok? && LowerRight(env, st, r, info).value.st == st
  {
    assert Lower(env, st, r).Ok? && Lower(env, st, r).value.st == st;
  }

  /** A nested operator on the right is lowered one register deeper, then combined. */
  lemma NestedRight(env: Env, st: GenState, r: Node, info: OpInfo, e: Lowered)
    requires r.BinOpNode?
    requires Lower(env, st.(tempInner := st.tempInner + 1, resultInner := st.resultInner + 1), r) == Ok(e)
    requires e.st.resultInner < |env.letters| && e.st.tempInner < |env.letters|
    ensures LowerRight(env, st, r, info).Ok? && LowerRight(env, st, r, info).value.st == e.st
  {
  }

  // ---------------------------------------------------------------------------
  // Blocks and functions

  /** A block's text is its statements' texts joined by single newlines, with none trailing. */
  lemma {:induction false} BlockTextIsJoin(texts: seq<string>)
    ensures DropLast(Terminated(texts)) == Join(texts, '\n')
  {
    if |texts| == 1 {
      assert Terminated(texts) == texts[0] + "\n" + Terminated([]);
    } else if |texts| > 1 {
      var rest := Terminated(texts[1..]);
      assert |rest| > 0;
      BlockTextIsJoin(texts[1..]);
      assert DropLast(texts[0] + "\n" + rest) == texts[0] + "\n" + DropLast(rest);
    }
  }

  lemma BlockLowering(env: Env, st: GenState, stmts: seq<Node>)
    ensures Lower(env, st, CodeBlockNode(stmts)).Ok? ==>
      var r := LowerStmts(env, st.(codeBlocks := st.codeBlocks + [CodeBlockNode(stmts)]), CodeBlockNode(stmts), 0);
      r.Ok? && |r.value.texts| == |stmts| &&
      Lower(env, st, CodeBlockNode(stmts)) == Ok(Lowered(Str(Join(r.value.texts, '\n')), r.value.st))
  {
    var blk := CodeBlockNode(stmts);
    assert Lower(env, st, blk) == LowerBlock(env, st, blk);
    var r := LowerStmts(env, st.(codeBlocks := st.codeBlocks + [blk]), blk, 0);
    if r.Ok? {
      BlockTextIsJoin(r.value.texts);
      StmtsCount(env, st.(codeBlocks := st.codeBlocks + [blk]), blk, 0);
    }
  }

  lemma {:induction false} StmtsCount(env: Env, st: GenState, blk: Node, k: nat)
    requires blk.CodeBlockNode? && k <= |blk.stmts|
    ensures LowerStmts(env, st, blk, k).Ok? ==> |LowerStmts(env, st, blk, k).value.texts| == |blk.stmts| - k
    decreases |blk.stmts| - k
  {
    if k < |blk.stmts| && LowerStmts(env, st, blk, k).Ok? {
      StmtsCount(env, Lower(env, st, blk.stmts[k]).value.st, blk, k + 1);
    }
  }

  /**
   * A function's text is stored as `<name>.mcfunction`, after the template when that is
   * `load.mcfunction`, and is also what the visit returns.
   */
  lemma FunctionArtifact(env: Env, st: GenState, name: Token, body: Node)
    ensures Lower(env, st, FunctionNode(name, body)).Ok? ==>
      var file := ValueText(name.value) + ".mcfunction";
      var r := Lower(env, st, FunctionNode(name, body)).value;
      var b := Lower(env, st.(functions := st.functions + [name]), body);
      b.Ok? && r.out == b.value.out && r.out.Str? &&
      r.st == b.value.st.(files := b.value.st.files[file := (if file == LOAD_FILE then LOAD_TEMPLATE else "") + r.out.s])
  {
    assert Lower(env, st, FunctionNode(name, body)) == LowerFunction(env, st, FunctionNode(name, body));
  }

  // ---------------------------------------------------------------------------
  // Emitted text

  lemma DropNewlineOfNewline(s: string)
    ensures DropNewline(s + "\n") == s
  {
    assert (s + "\n")[..|s|] == s;
  }

  lemma DropNewlineKeeps(s: string, t: string)
    requires |t| > 0 && t[|t| - 1] != '\n'
    ensures DropNewline(s + t) == s + t
  {
    assert (s + t)[|s + t| - 1] == t[|t| - 1];
  }

  lemma JoinThree(a: string, b: string, c: string)
    ensures Join([a, b, c], '\n') == a + "\n" + b + "\n" + c
  {
    assert [a, b, c][1..] == [b, c];
    assert [b, c][1..] == [c];
    assert Join([b, c], '\n') == b + "\n" + c;
    assert a + "\n" + (b + "\n" + c) == a + "\n" + b + "\n" + c;
  }

  lemma JoinFour(a: string, b: string, c: string, d: string)
    ensures Join([a, b, c, d], '\n') == a + "\n" + b + "\n" + c + "\n" + d
  {
    assert [a, b, c, d][1..] == [b, c, d];
    JoinThree(b, c, d);
    assert a + "\n" + (b + "\n" + c + "\n" + d) == a + "\n" + b + "\n" + c + "\n" + d;
  }

  /** `x = m + n` with number operands, lowered at scratch depth 0. */
  lemma {:induction false} AssignSum(env: Env, st: GenState, x: Token, a: Token, plus: Token, b: Token, m: nat, n: nat)
    requires |env.letters| >= 2 && st.tempInner == 0
    requires a.value == IntValue(m) && b.value == IntValue(n) && plus.kind == ADD
    ensures
      var r0, r1 := [env.letters[0]], [env.letters[1]];
      var r := Lower(env, st, VarAssignNode(x, BinOpNode(NumberNode(a), plus, NumberNode(b))));
      r.Ok? && r.value.st == st.(resultInner := 0) &&
      r.value.out == Str(Join([SetTemp(r0, NatToString(m)), SetTemp(r1, NatToString(n)), Combine(r0, "+=", r1),
        StoreVar(ValueText(x.value), r0)], '\n'))
  {
    var r0, r1 := [env.letters[0]], [env.letters[1]];
    var st0 := st.(resultInner := 0);
    var e := BinOpNode(NumberNode(a), plus, NumberNode(b));
    var l1, l2, l3 := SetTemp(r0, NatToString(m)), SetTemp(r1, NatToString(n)), Combine(r0, "+=", r1);
    var l4 := StoreVar(ValueText(x.value), r0);
    MatchesMeaning(plus, ADD, None);
    var info := OpOf(plus);
    assert info == OpInfo("+=", "", false);
    assert LowerLeft(env, st0, NumberNode(a)) == Ok(Piece(l1 + "\n", st0));
    assert LowerRight(env, st0, NumberNode(b), info) == Ok(Piece(l2 + "\n" + l3 + "\n", st0));
    assert Compare(env, st0, info, Test(info.ex, st0.condNot)) == Ok("");
    BinOpAssembly(env, st0, e, Piece(l1 + "\n", st0), Piece(l2 + "\n" + l3 + "\n", st0), "");
    var code := l1 + "\n" + l2 + "\n" + l3;
    assert l1 + "\n" + (l2 + "\n" + l3 + "\n") + "" == code + "\n";
    DropNewlineOfNewline(code);
    AssignAssembly(env, st, x, e, Lowered(Str(code), st0));
    JoinFour(l1, l2, l3, l4);
  }

  /** How `visit_VarAssignNode` stores an operator value from register `resultInner`. */
  lemma AssignAssembly(env: Env, st: GenState, x: Token, e: Node, le: Lowered)
    requires e.BinOpNode? && Lower(env, st.(resultInner := 0), e) == Ok(le) && le.st.resultInner < |env.letters|
    ensures Lower(env, st, VarAssignNode(x, e)) ==
      Ok(Lowered(Str(Show(le.out) + "\n" + StoreVar(ValueText(x.value), [env.letters[le.st.resultInner]])), le.st))
  {
    assert Lower(env, st, VarAssignNode(x, e)) == LowerAssign(env, st, VarAssignNode(x, e));
  }

  /** A block of one statement has that statement's text. */
  lemma {:induction false} SingleStatementBlock(env: Env, st: GenState, stmt: Node)
    ensures
      var st1 := st.(codeBlocks := st.codeBlocks + [CodeBlockNode([stmt])]);
      var a := Lower(env, st1, stmt);
      a.Ok? && a.value.out.Str? ==> Lower(env, st, CodeBlockNode([stmt])) == Ok(Lowered(a.value.out, a.value.st))
  {
    var body := CodeBlockNode([stmt]);
    var st1 := st.(codeBlocks := st.codeBlocks + [body]);
    var a := Lower(env, st1, stmt);
    if a.Ok? && a.value.out.Str? {
      var t := a.value.out.s;
      assert LowerStmts(env, a.value.st, body, 1) == Ok(Texts([], a.value.st));
      assert [t] + [] == [t];
      assert LowerStmts(env, st1, body, 0) == Ok(Texts([t], a.value.st));
      assert [t][1..] == [];
      assert Terminated([t]) == t + "\n";
      assert (t + "\n")[..|t|] == t;
    }
  }

  /** A variable operand is copied into register `tempInner`, on either side. */
  lemma VariableOperand(env: Env, st: GenState, p: Token, info: OpInfo)
    requires st.tempInner < |env.letters|
    ensures
      var line := CopyTemp([env.letters[st.tempInner]], VarRef(ValueText(p.value))) + "\n";
      LowerLeft(env, st, VarAccessNode(p)) == Ok(Piece(line, st)) &&
      LowerRight(env, st, VarAccessNode(p), info) == Ok(Piece(line, st))
  {
  }

  /** How `visit_BinOpNode` assembles its three pieces of code. */
  lemma BinOpAssembly(env: Env, st: GenState, n: Node, a: Piece, b: Piece, c: string)
    requires n.BinOpNode?
    requires LowerLeft(env, st, n.left) == Ok(a)
    requires LowerRight(env, a.st, n.right, OpOf(n.op)) == Ok(b)
    requires Compare(env, b.st, OpOf(n.op), Test(OpOf(n.op).ex, st.condNot)) == Ok(c)
    ensures Lower(env, st, n) == Ok(Lowered(Str(DropNewline(a.code + b.code + c)), b.st.(tempInner := Pop(b.st.tempInner))))
  {
    BinOpSteps(env, st, n, a, b, c);
  }

  /** `visit_BinOpNode` fails with the first of its three steps that fails. */
  lemma BinOpFails(env: Env, st: GenState, n: Node)
    requires n.BinOpNode?
    ensures
      var info := OpOf(n.op);
      var left := LowerLeft(env, st, n.left);
      left.Err? ==> LowerBinOp(env, st, n) == Err(left.error)
    ensures
      var info := OpOf(n.op);
      var left := LowerLeft(env, st, n.left);
      left.Ok? && LowerRight(env, left.value.st, n.right, info).Err? ==>
        LowerBinOp(env, st, n) == Err(LowerRight(env, left.value.st, n.right, info).error)
    ensures
      var info := OpOf(n.op);
      var left := LowerLeft(env, st, n.left);
      left.Ok? && LowerRight(env, left.value.st, n.right, info).Ok? ==>
        var right := LowerRight(env, left.value.st, n.right, info).value;
        var fin := Compare(env, right.st, info, Test(info.ex, st.condNot));
        fin.Err? ==> LowerBinOp(env, st, n) == Err(fin.error)
  {
  }

  /** `visit_BinOpNode` from the results of its three steps. */
  lemma BinOpSteps(env: Env, st: GenState, n: Node, a: Piece, b: Piece, c: string)
    requires n.BinOpNode?
    requires LowerLeft(env, st, n.left) == Ok(a)
    requires LowerRight(env, a.st, n.right, OpOf(n.op)) == Ok(b)
    requires Compare(env, b.st, OpOf(n.op), Test(OpOf(n.op).ex, st.condNot)) == Ok(c)
    ensures LowerBinOp(env, st, n) == Ok(Lowered(Str(DropNewline(a.code + b.code + c)), b.st.(tempInner := Pop(b.st.tempInner))))
  {
  }

  /** `==` is the comparison with sign `=` and test `if`. */
  lemma EqualsInfo(eq: Token)
    requires eq.kind == EE
    ensures OpOf(eq) == OpInfo("=", "if", true)
  {
    MatchesMeaning(eq, ADD, None);
    MatchesMeaning(eq, SUB, None);
    MatchesMeaning(eq, MUL, None);
    MatchesMeaning(eq, DIV, None);
    MatchesMeaning(eq, EE, None);
  }

  /** Two copied variables and an `execute` line, as one block of text with no trailing newline. */
  lemma ComparisonText(l1: string, l2: string, l3: string)
    requires |l3| > 0 && l3[|l3| - 1] != '\n'
    ensures DropNewline(l1 + "\n" + (l2 + "\n") + l3) == Join([l1, l2, l3], '\n')
  {
    DropNewlineKeeps(l1 + "\n" + (l2 + "\n"), l3);
    JoinThree(l1, l2, l3);
  }

  /** `p == q` at register 0: both variables are copied into register 0, then compared with register 1. */
  lemma {:induction false} CompareVariables(env: Env, st: GenState, p: Token, eq: Token, q: Token)
    requires |env.letters| >= 2 && st.tempInner == 0 && eq.kind == EE
    ensures
      var r0, r1 := [env.letters[0]], [env.letters[1]];
      var test := if st.condNot then "unless" else "if";
      Lower(env, st, BinOpNode(VarAccessNode(p), eq, VarAccessNode(q))) ==
      Ok(Lowered(Str(Join([CopyTemp(r0, VarRef(ValueText(p.value))), CopyTemp(r0, VarRef(ValueText(q.value))),
        Execute(test, r0, "=", r1)], '\n')), st))
  {
    var r0, r1 := [env.letters[0]], [env.letters[1]];
    var test := if st.condNot then "unless" else "if";
    var l1, l2, l3 := CopyTemp(r0, VarRef(ValueText(p.value))), CopyTemp(r0, VarRef(ValueText(q.value))), Execute(test, r0, "=", r1);
    EqualsInfo(eq);
    var info := OpInfo("=", "if", true);
    VariableOperand(env, st, p, info);
    VariableOperand(env, st, q, info);
    assert Compare(env, st, info, test) == Ok(l3);
    BinOpAssembly(env, st, BinOpNode(VarAccessNode(p), eq, VarAccessNode(q)), Piece(l1 + "\n", st), Piece(l2 + "\n", st), l3);
    assert l3[|l3| - 1] == 'p';
    ComparisonText(l1, l2, l3);
  }

  /** A conditional artifact is never the load file, so it gets no template. */
  lemma WriteIfFile(st: GenState, k: nat, text: string)
    ensures WriteFile(st, IfName(k) + ".mcfunction", Str(text)) == Ok(st.(files := st.files[IfFile(k) := text]))
  {
    assert IfFile(k)[0] == 'i';
    assert LOAD_FILE[0] == 'l';
    assert "" + text == text;
  }

  /** How `visit_IfNode` assembles the file of its body and the guarded call. */
  lemma IfAssembly(env: Env, st: GenState, c: Node, b: Node, lb: Lowered, lc: Lowered)
    requires Lower(env, st.(count := st.count + 1), b) == Ok(lb) && lb.out.Str?
    requires Lower(env, lb.st.(files := lb.st.files[IfFile(st.count + 1) := lb.out.s]), c) == Ok(lc)
    ensures Lower(env, st, IfNode(c, b)) == Ok(Lowered(Str(RunIf(Show(lc.out), env.namespace, IfName(st.count + 1))), lc.st))
  {
    var st2 := lb.st.(files := lb.st.files[IfFile(st.count + 1) := lb.out.s]);
    WriteIfFile(lb.st, st.count + 1, lb.out.s);
    assert lb.out == Str(lb.out.s);
    IfSteps(env, st, c, b, lb, st2, lc);
  }

  /** `visit_IfNode` from the results of its three steps. */
  lemma IfSteps(env: Env, st: GenState, c: Node, b: Node, lb: Lowered, st2: GenState, lc: Lowered)
    requires Lower(env, st.(count := st.count + 1), b) == Ok(lb)
    requires WriteFile(lb.st, IfName(st.count + 1) + ".mcfunction", lb.out) == Ok(st2)
    requires Lower(env, st2, c) == Ok(lc)
    ensures Lower(env, st, IfNode(c, b)) == Ok(Lowered(Str(RunIf(Show(lc.out), env.namespace, IfName(st.count + 1))), lc.st))
  {
    assert LowerIf(env, st, IfNode(c, b)) == Ok(Lowered(Str(RunIf(Show(lc.out), env.namespace, IfName(st.count + 1))), lc.st));
  }

  /** `x = v` for a number `v` sets the variable directly and changes no state. */
  lemma AssignNumber(env: Env, st: GenState, x: Token, v: Token)
    ensures Lower(env, st, VarAssignNode(x, NumberNode(v))) == Ok(Lowered(Str(SetVar(ValueText(x.value), ValueText(v.value))), st))
  {
    assert Lower(env, st, NumberNode(v)) == Ok(Lowered(Str(ValueText(v.value)), st));
    assert Lower(env, st, VarAssignNode(x, NumberNode(v))) == LowerAssign(env, st, VarAssignNode(x, NumberNode(v)));
  }

  /**
   * `if p == q { x = v }`: the body goes to the next conditional artifact and the visit
   * returns the comparison guarding a call of it.
   */
  lemma {:induction false} IfEquals(env: Env, st: GenState, p: Token, eq: Token, q: Token, x: Token, v: Token)
    requires |env.letters| >= 2 && st.tempInner == 0 && eq.kind == EE && v.kind == INT
    ensures
      var r0, r1 := [env.letters[0]], [env.letters[1]];
      var body := CodeBlockNode([VarAssignNode(x, NumberNode(v))]);
      var cond := BinOpNode(VarAccessNode(p), eq, VarAccessNode(q));
      var test := if st.condNot then "unless" else "if";
      var r := Lower(env, st, IfNode(cond, body));
      r.Ok? && r.value.st.count == st.count + 1 &&
      r.value.st.files == st.files[IfFile(st.count + 1) := SetVar(ValueText(x.value), ValueText(v.value))] &&
      r.value.out == Str(RunIf(Join([CopyTemp(r0, VarRef(ValueText(p.value))), CopyTemp(r0, VarRef(ValueText(q.value))),
        Execute(test, r0, "=", r1)], '\n'), env.namespace, IfName(st.count + 1)))
  {
    var stmt := VarAssignNode(x, NumberNode(v));
    var body := CodeBlockNode([stmt]);
    var cond := BinOpNode(VarAccessNode(p), eq, VarAccessNode(q));
    var st1 := st.(count := st.count + 1);
    var assign := SetVar(ValueText(x.value), ValueText(v.value));
    var st1b := st1.(codeBlocks := st1.codeBlocks + [body]);
    AssignNumber(env, st1b, x, v);
    SingleStatementBlock(env, st1, stmt);
    var lb := Lowered(Str(assign), st1b);
    var st2 := st1b.(files := st1b.files[IfFile(st1.count) := assign]);
    CompareVariables(env, st2, p, eq, q);
    var lc := Lower(env, st2, cond).value;
    IfAssembly(env, st, cond, body, lb, lc);
  }

  /** `!` sets `condNot` for the whole rest of the run, flipping every later comparison. */
  lemma NotIsSticky(env: Env, st: GenState, v: Node, bang: Token)
    requires bang.kind == NOT
    ensures Lower(env, st, UnaryOpNode(v, bang)) == Lower(env, st.(condNot := true), v)
    ensures Lower(env, st, UnaryOpNode(v, bang)).Ok? ==> Lower(env, st, UnaryOpNode(v, bang)).value.st.condNot
    ensures Test("if", true) == "unless" && Test("unless", true) == "if"
  {
    LowerGrows(env, st.(condNot := true), v);
  }

  /** An assignment of an expression does not depend on `resultInner` left by earlier statements. */
  lemma AssignmentResetsResult(env: Env, st: GenState, x: Token, v: Node, stale: nat)
    requires v.BinOpNode?
    ensures Lower(env, st, VarAssignNode(x, v)) == Lower(env, st.(resultInner := stale), VarAssignNode(x, v))
  {
  }

  /**
   * Call lowering: no arguments is a call of the namespaced function; `print` of a number or
   * a variable is a `tellraw` after an empty line; any other call with arguments gives
   * nothing, which a block cannot take.
   */
  lemma {:induction false} CallLowering(env: Env, st: GenState, f: Token, args: seq<Node>)
    ensures args == [] ==>
      Lower(env, st, CallNode(f, args)) == Ok(Lowered(Str(CallFunction(env.namespace, ValueText(f.value))), st))
    ensures |args| > 0 && ValueText(f.value) != "print" ==>
      Lower(env, st, CallNode(f, args)) == Ok(Lowered(Nothing, st)) &&
      Lower(env, st, CodeBlockNode([CallNode(f, args)])) == Err(NotText)
    ensures |args| > 0 && ValueText(f.value) == "print" && "print" in env.builtins && args[0].NumberNode? ==>
      Lower(env, st, CallNode(f, args)) ==
      Ok(Lowered(Str(Tellraw("", TextComponent(ValueText(args[0].token.value)))), st))
    ensures |args| > 0 && ValueText(f.value) == "print" && "print" in env.builtins && args[0].VarAccessNode? ==>
      Lower(env, st, CallNode(f, args)) ==
      Ok(Lowered(Str(Tellraw("", ScoreComponent(ValueText(args[0].name.value), "MClangVars"))), st))
  {
    if |args| > 0 && ValueText(f.value) != "print" {
      var blk := CodeBlockNode([CallNode(f, args)]);
      var st1 := st.(codeBlocks := st.codeBlocks + [blk]);
      assert Lower(env, st1, CallNode(f, args)) == Ok(Lowered(Nothing, st1));
      assert LowerStmts(env, st1, blk, 0) == Err(NotText);
    }
    if |args| > 0 && args[0].NumberNode? {
      assert Lower(env, st, args[0]) == Ok(Lowered(Str(ValueText(args[0].token.value)), st));
    }
  }

  /** A string node has no visit of its own. */
  lemma StringHasNoVisit(env: Env, st: GenState, t: Token)
    ensures Lower(env, st, StringNode(t)) == Err(NoVisitMethod(StringNode(t)))
  {
  }
}
