/** Tokens and the reference definition of the scanner in lexer.py. */
module Lexing {
  import opened Wrappers
  import opened Text
  import opened Errors

  /**
   * Token kinds of lexer.py. `STRING` and `COMMA` are referred to by the parser but never
   * defined by lexer.py; they are kinds that the scanner below never produces.
   */
  datatype Kind =
    | IDENTIFIER | KEYWORD | EOF | EQ | EE | NE | NOT | INT | FLOAT
    | ADD | SUB | MUL | DIV | LPAREN | RPAREN | LCURLY | RCURLY
    | STRING | COMMA

  /**
   * The literal value of a token: an integer folded from its digits, the lexeme of a
   * float, or the word of an identifier or keyword.
   */
  datatype Value = NoValue | IntValue(n: nat) | FloatValue(lexeme: string) | Word(text: string)

  /** A token with the two ends of its range. */
  datatype Token = Token(kind: Kind, value: Value, start: Position, end: Position)

  /**
   * The character sets of const.py, whose contents are not part of this model. The
   * only assumption is that every `DIGITS` character is a decimal digit, since the
   * lexer hands each integer lexeme to `int()`.
   */
  datatype Consts = Consts(digits: string, letters: string, keywords: set<string>, builtins: set<string>) {
    predicate Valid() {
      AllDigits(digits)
    }
  }

  /** The copy a single-position token uses as its end: one character further on, or
    * unchanged when indexing the text at the position raises (Python's negative indices
    * count from the end). */
  function Step(p: Position): (q: Position)
    ensures 0 <= p.idx < |p.ftxt| ==> q.idx == p.idx + 1
    ensures p.idx >= |p.ftxt| ==> q == p
  {
    if 0 <= p.idx < |p.ftxt| then Advance(p, Some(p.ftxt[p.idx]))
    else if -|p.ftxt| <= p.idx < 0 then Advance(p, Some(p.ftxt[|p.ftxt| + p.idx]))
    else p
  }

  /** `Token.__init__`: a range given by one position is completed with its step. */
  function MakeToken(range: seq<Position>, kind: Kind, value: Value): (t: Token)
    requires |range| >= 1
    ensures t.kind == kind && t.value == value && t.start == range[0]
    ensures |range| >= 2 ==> t.end == range[1]
    ensures |range| == 1 ==> t.end == Step(range[0])
  {
    if |range| >= 2 then Token(kind, value, range[0], range[1])
    else Token(kind, value, range[0], Step(range[0]))
  }

  /** `Token.matches`: the value is compared only when the wanted value is truthy. */
  predicate Matches(t: Token, kind: Kind, value: Option<string>) {
    if Truthy(value) then t.kind == kind && t.value == Word(value.value) else t.kind == kind
  }

  lemma MatchesMeaning(t: Token, kind: Kind, value: Option<string>)
    ensures Matches(t, kind, value) ==> t.kind == kind
    ensures !Truthy(value) ==> (Matches(t, kind, value) <==> t.kind == kind)
    ensures Truthy(value) ==> (Matches(t, kind, value) <==> t.kind == kind && t.value == Word(value.value))
  {
  }

  /** The lexer's current character: `code[idx]` inside the text, `None` past its end. */
  function CharAt(code: string, i: int): (c: Option<char>)
    ensures c.Some? <==> 0 <= i < |code|
    ensures c.Some? ==> c.value == code[i]
  {
    if 0 <= i < |code| then Some(code[i]) else None
  }

  /** Kinds of the one-character tokens, in the order lexer.py tests them. */
  function SingleCharKind(ch: char): Option<Kind> {
    if ch == '+' then Some(ADD)
    else if ch == '-' then Some(SUB)
    else if ch == '*' then Some(MUL)
    else if ch == '/' then Some(DIV)
    else if ch == '(' then Some(LPAREN)
    else if ch == ')' then Some(RPAREN)
    else if ch == '{' then Some(LCURLY)
    else if ch == '}' then Some(RCURLY)
    else None
  }

  predicate IsBlank(ch: char) {
    ch in " \t\n"
  }

  /** Whether some branch of `lex` handles `ch`; anything else is an illegal character. */
  predicate Handled(c: Consts, ch: char) {
    IsBlank(ch) || ch in c.digits || ch in c.letters || SingleCharKind(ch).Some? ||
    ch == '#' || ch == '=' || ch == '!'
  }

  predicate InText(code: string, p: Position) {
    p.ftxt == code && 0 <= p.idx <= |code|
  }

  // ---------------------------------------------------------------------------
  // makeNumber

  predicate NumberChar(c: Consts, ch: char) {
    ch in c.digits + "."
  }

  /** The loop of `makeNumber` from position `p`, having read `numStr` with `dots` dots. */
  function NumberLoop(c: Consts, code: string, p: Position, numStr: string, dots: nat): (r: (string, nat, Position))
    requires InText(code, p)
    ensures InText(code, r.2) && p.idx <= r.2.idx && p.fn == r.2.fn
    ensures forall k :: p.idx <= k < r.2.idx ==> NumberChar(c, code[k])
    ensures r.2.idx == |code| || !NumberChar(c, code[r.2.idx]) || (code[r.2.idx] == '.' && r.1 >= 1)
    decreases |code| - p.idx
  {
    if p.idx < |code| && NumberChar(c, code[p.idx]) then
      var ch := code[p.idx];
      if ch == '.' && dots >= 1 then (numStr, dots, p)
      else NumberLoop(c, code, Advance(p, Some(ch)), numStr + [ch], if ch == '.' then dots + 1 else dots)
    else (numStr, dots, p)
  }

  /** What the loop read: `numStr` grows by the consumed slice. */
  lemma {:induction false} NumberLoopText(c: Consts, code: string, p: Position, numStr: string, dots: nat)
    requires InText(code, p)
    ensures var r := NumberLoop(c, code, p, numStr, dots); r.0 == numStr + code[p.idx..r.2.idx]
    decreases |code| - p.idx
  {
    var r := NumberLoop(c, code, p, numStr, dots);
    if p.idx < |code| && NumberChar(c, code[p.idx]) {
      var ch := code[p.idx];
      if !(ch == '.' && dots >= 1) {
        var q := Advance(p, Some(ch));
        NumberLoopText(c, code, q, numStr + [ch], if ch == '.' then dots + 1 else dots);
        assert code[p.idx..r.2.idx] == [ch] + code[q.idx..r.2.idx];
        assert numStr + [ch] + code[q.idx..r.2.idx] == numStr + ([ch] + code[q.idx..r.2.idx]);
      }
    }
  }

  /**
   * `dots` grows by the dots in the consumed slice, so a loop started with at most one dot
   * ends with at most one.
   */
  lemma {:induction false} NumberLoopDots(c: Consts, code: string, p: Position, numStr: string, dots: nat)
    requires InText(code, p)
    ensures var r := NumberLoop(c, code, p, numStr, dots);
      r.1 == dots + Count(code[p.idx..r.2.idx], '.') && (dots <= 1 ==> r.1 <= 1)
    decreases |code| - p.idx
  {
    var r := NumberLoop(c, code, p, numStr, dots);
    if p.idx < |code| && NumberChar(c, code[p.idx]) {
      var ch := code[p.idx];
      if !(ch == '.' && dots >= 1) {
        var q := Advance(p, Some(ch));
        NumberLoopDots(c, code, q, numStr + [ch], if ch == '.' then dots + 1 else dots);
        var read := code[p.idx..r.2.idx];
        assert read[0] == ch && read[1..] == code[q.idx..r.2.idx];
      }
    }
  }

  /**
   * The lexeme `makeNumber` reads from a digit: non-empty, at most one dot, its dot count
   * zero exactly when it has no dot, and then all digits.
   */
  lemma NumberLexeme(c: Consts, code: string, p: Position)
    requires c.Valid() && InText(code, p) && p.idx < |code| && code[p.idx] in c.digits
    ensures var (numStr, dots, q) := NumberLoop(c, code, p, "", 0); var lexeme := code[p.idx..q.idx];
      numStr == lexeme && p.idx < q.idx && Count(lexeme, '.') <= 1 &&
      (dots == 0 <==> '.' !in lexeme) && (dots == 0 ==> AllDigits(lexeme))
  {
    var (numStr, dots, q) := NumberLoop(c, code, p, "", 0);
    NumberLoopText(c, code, p, "", 0);
    NumberLoopDots(c, code, p, "", 0);
    var lexeme := code[p.idx..q.idx];
    assert "" + lexeme == lexeme;
    CountZeroMeansAbsent(lexeme, '.');
    assert q.idx > p.idx by {
      assert NumberChar(c, code[p.idx]);
      assert code[p.idx] != '.' by { assert AllDigits(c.digits); }
    }
    if dots == 0 {
      forall k | 0 <= k < |lexeme| ensures IsDigit(lexeme[k]) {
        assert lexeme[k] == code[p.idx + k];
        assert NumberChar(c, code[p.idx + k]);
      }
    }
  }

  /**
   * `makeNumber`: digits and at most one `.`; a second `.` ends the number unconsumed.
   * No dot gives an `INT` holding the folded digits, one dot a `FLOAT` holding its lexeme.
   */
  function Number(c: Consts, code: string, p: Position): (r: (Token, Position))
    requires c.Valid() && InText(code, p) && p.idx < |code| && code[p.idx] in c.digits
    ensures InText(code, r.1) && p.idx < r.1.idx && r.1.fn == p.fn
    ensures var (t, q) := r; var lexeme := code[p.idx..q.idx];
      t.start == p && t.end == q &&
      (forall k :: p.idx <= k < q.idx ==> NumberChar(c, code[k])) &&
      Count(lexeme, '.') <= 1 &&
      (q.idx == |code| || !NumberChar(c, code[q.idx]) || (code[q.idx] == '.' && '.' in lexeme)) &&
      ('.' !in lexeme ==> AllDigits(lexeme) && t.kind == INT && t.value == IntValue(DigitsValue(lexeme))) &&
      ('.' in lexeme ==> t.kind == FLOAT && t.value == FloatValue(lexeme))
  {
    var (numStr, dots, q) := NumberLoop(c, code, p, "", 0);
    NumberLexeme(c, code, p);
    if dots == 0 then (MakeToken([p, q], INT, IntValue(DigitsValue(numStr))), q)
    else (MakeToken([p, q], FLOAT, FloatValue(numStr)), q)
  }

  // ---------------------------------------------------------------------------
  // makeIdentifier

  predicate IdentChar(c: Consts, ch: char) {
    ch in c.letters + "_"
  }

  /** The loop of `makeIdentifier`. */
  function IdentLoop(c: Consts, code: string, p: Position, idenStr: string): (r: (string, Position))
    requires InText(code, p)
    ensures InText(code, r.1) && p.idx <= r.1.idx && p.fn == r.1.fn
    ensures r.0 == idenStr + code[p.idx..r.1.idx]
    ensures forall k :: p.idx <= k < r.1.idx ==> IdentChar(c, code[k])
    ensures r.1.idx == |code| || !IdentChar(c, code[r.1.idx])
    decreases |code| - p.idx
  {
    if p.idx < |code| && IdentChar(c, code[p.idx]) then
      var ch := code[p.idx];
      var r := IdentLoop(c, code, Advance(p, Some(ch)), idenStr + [ch]);
      assert code[p.idx..r.1.idx] == [ch] + code[p.idx + 1..r.1.idx];
      assert idenStr + [ch] + code[p.idx + 1..r.1.idx] == idenStr + code[p.idx..r.1.idx];
      r
    else (idenStr, p)
  }

  /**
   * `makeIdentifier`: the maximal run of letters and `_`, a `KEYWORD` when the word is a
   * keyword and an `IDENTIFIER` otherwise, with the word as its value.
   */
  function Identifier(c: Consts, code: string, p: Position): (r: (Token, Position))
    requires InText(code, p) && p.idx < |code| && code[p.idx] in c.letters
    ensures InText(code, r.1) && p.idx < r.1.idx && r.1.fn == p.fn
    ensures var (t, q) := r; var word := code[p.idx..q.idx];
      t.start == p && t.end == q && t.value == Word(word) &&
      (forall k :: p.idx <= k < q.idx ==> IdentChar(c, code[k])) &&
      (q.idx == |code| || !IdentChar(c, code[q.idx])) &&
      (t.kind == KEYWORD <==> word in c.keywords) &&
      (t.kind != KEYWORD ==> t.kind == IDENTIFIER)
  {
    var (idenStr, q) := IdentLoop(c, code, p, "");
    assert IdentChar(c, code[p.idx]);
    if idenStr in c.keywords then (MakeToken([p, q], KEYWORD, Word(idenStr)), q)
    else (MakeToken([p, q], IDENTIFIER, Word(idenStr)), q)
  }

  // ---------------------------------------------------------------------------
  // makeEquals / makeNotEquals

  /**
   * The two-character operators: `first` followed by `=` gives `pair` and consumes two
   * characters; otherwise `single`, consuming one.
   */
  function Operator(code: string, p: Position, first: char, single: Kind, pair: Kind): (r: (Token, Position))
    requires InText(code, p) && p.idx < |code| && code[p.idx] == first
    ensures var (t, q) := r;
      InText(code, q) && q.fn == p.fn && t.start == p && t.end == q && t.value == NoValue &&
      (p.idx + 1 < |code| && code[p.idx + 1] == '=' ==> t.kind == pair && q.idx == p.idx + 2) &&
      (!(p.idx + 1 < |code| && code[p.idx + 1] == '=') ==> t.kind == single && q.idx == p.idx + 1)
  {
    var q := Advance(p, Some(first));
    if CharAt(code, q.idx) == Some('=') then
      var q2 := Advance(q, Some('='));
      (MakeToken([p, q2], pair, NoValue), q2)
    else (MakeToken([p, q], single, NoValue), q)
  }

  /** `makeEquals`: `==` is `EE`, a lone `=` is `EQ`. */
  function Equals(code: string, p: Position): (r: (Token, Position))
    requires InText(code, p) && p.idx < |code| && code[p.idx] == '='
    ensures r.0.kind == EE <==> p.idx + 1 < |code| && code[p.idx + 1] == '='
    ensures r.0.kind == EE ==> r.1.idx == p.idx + 2
    ensures r.0.kind != EE ==> r.0.kind == EQ && r.1.idx == p.idx + 1
  {
    Operator(code, p, '=', EQ, EE)
  }

  /** `makeNotEquals`: `!=` is `NE`, a lone `!` is `NOT`. */
  function NotEquals(code: string, p: Position): (r: (Token, Position))
    requires InText(code, p) && p.idx < |code| && code[p.idx] == '!'
    ensures r.0.kind == NE <==> p.idx + 1 < |code| && code[p.idx + 1] == '='
    ensures r.0.kind == NE ==> r.1.idx == p.idx + 2
    ensures r.0.kind != NE ==> r.0.kind == NOT && r.1.idx == p.idx + 1
  {
    Operator(code, p, '!', NOT, NE)
  }

  // ---------------------------------------------------------------------------
  // comments

  /**
   * The `#` comment loop, with an end-of-input guard: it stops at the next newline
   * (left for the blank branch) or at the end of the text.
   */
  function SkipComment(code: string, p: Position): (q: Position)
    requires InText(code, p)
    ensures InText(code, q) && p.idx <= q.idx && q.fn == p.fn
    ensures forall k :: p.idx <= k < q.idx ==> code[k] != '\n'
    ensures q.idx == |code| || code[q.idx] == '\n'
    decreases |code| - p.idx
  {
    if p.idx < |code| && code[p.idx] != '\n' then SkipComment(code, Advance(p, Some(code[p.idx]))) else p
  }

  // ---------------------------------------------------------------------------
  // lex

  /** What `lex` returns, with the position the scanner stopped at. */
  datatype Lexed = Lexed(tokens: seq<Token>, error: Option<Error>, end: Position)

  /** Tokens found before the rest of the scan; an error discards them, as `return [], err` does. */
  function PrependAll(ts: seq<Token>, r: Lexed): Lexed {
    if r.error.None? then Lexed(ts + r.tokens, None, r.end) else r
  }

  function IllegalChar(p: Position, ch: char): Error {
    MakeError([p], ILLEGAL_CHAR, Some("\"" + [ch] + "\""))
  }

  /** One pass through the body of the `lex` loop. */
  datatype Step1 = End | Skip(next: Position) | Emit(token: Token, next: Position) | Fail(error: Error, next: Position)

  /**
   * The branches of the `lex` loop body, in source order: blanks and comments are skipped,
   * a token is emitted, or an unhandled character fails.
   */
  function Scan(c: Consts, code: string, p: Position): (r: Step1)
    requires c.Valid() && InText(code, p)
    ensures r.End? <==> p.idx >= |code|
    ensures !r.End? ==> InText(code, r.next) && p.idx < r.next.idx && r.next.fn == p.fn
    ensures r.Skip? ==> IsBlank(code[p.idx]) || code[p.idx] == '#'
    ensures r.Emit? ==> Handled(c, code[p.idx]) && r.token.start == p && r.token.end == r.next
    ensures r.Emit? ==> r.token.kind !in {EOF, STRING, COMMA}
    ensures r.Fail? <==> p.idx < |code| && !Handled(c, code[p.idx])
    ensures r.Fail? ==> r.error == IllegalChar(p, code[p.idx])
  {
    if p.idx >= |code| then End
    else
      var ch := code[p.idx];
      if IsBlank(ch) then Skip(Advance(p, Some(ch)))
      else if ch in c.digits then
        var (t, q) := Number(c, code, p);
        Emit(t, q)
      else if ch in c.letters then
        var (t, q) := Identifier(c, code, p);
        Emit(t, q)
      else if SingleCharKind(ch).Some? then
        Emit(MakeToken([p], SingleCharKind(ch).value, NoValue), Advance(p, Some(ch)))
      else if ch == '#' then
        var q := SkipComment(code, p);
        assert q.idx > p.idx by { assert code[p.idx] != '\n'; }
        Skip(q)
      else if ch == '=' then
        var (t, q) := Equals(code, p);
        Emit(t, q)
      else if ch == '!' then
        var (t, q) := NotEquals(code, p);
        Emit(t, q)
      else Fail(IllegalChar(p, ch), Advance(p, Some(ch)))
  }

  /** The `lex` loop from position `p` to the end of the text; at the end an `EOF` token. */
  function Tokenize(c: Consts, code: string, p: Position): (r: Lexed)
    requires c.Valid() && InText(code, p)
    decreases |code| - p.idx
  {
    match Scan(c, code, p)
    case End => Lexed([MakeToken([p], EOF, NoValue)], None, p)
    case Skip(q) => Tokenize(c, code, q)
    case Emit(t, q) => PrependAll([t], Tokenize(c, code, q))
    case Fail(e, q) => Lexed([], Some(e), q)
  }

  /** The lexer starts at index 0, line 0, with the position `Lexer.__init__` builds. */
  function StartPosition(fn: string, code: string): (p: Position)
    ensures InText(code, p) && p.idx == 0 && p.fn == fn
  {
    Advance(Position(-1, 0, -1, fn, code), None)
  }

  /** `Lexer(fn, code).lex()`. */
  function Lex(c: Consts, fn: string, code: string): Lexed
    requires c.Valid()
  {
    Tokenize(c, code, StartPosition(fn, code))
  }
}
