/** Properties of the scanner of lexer.py, proved about its reference definition. */
module LexerProps {
  import opened Wrappers
  import opened Text
  import opened Errors
  import opened Lexing

  /** A token list whose only `EOF` is its last token and which has no `STRING`/`COMMA`. */
  predicate EofTerminated(ts: seq<Token>) {
    |ts| >= 1 && ts[|ts| - 1].kind == EOF &&
    (forall i :: 0 <= i < |ts| - 1 ==> ts[i].kind != EOF) &&
    (forall i :: 0 <= i < |ts| ==> ts[i].kind != STRING && ts[i].kind != COMMA)
  }

  /** A successful lex ends with its only `EOF` token. */
  lemma {:induction false} SuccessIsEofTerminated(c: Consts, code: string, p: Position)
    requires c.Valid() && InText(code, p)
    ensures Tokenize(c, code, p).error.None? ==> EofTerminated(Tokenize(c, code, p).tokens)
    decreases |code| - p.idx
  {
    match Scan(c, code, p)
    case End =>
    case Skip(q) => SuccessIsEofTerminated(c, code, q);
    case Emit(t, q) =>
      SuccessIsEofTerminated(c, code, q);
      var rest := Tokenize(c, code, q);
      if rest.error.None? {
        ConsEofTerminated(t, rest.tokens);
      }
    case Fail(e, q) =>
  }

  /** A token other than `EOF`, `STRING` and `COMMA` in front keeps a list `EOF`-terminated. */
  lemma ConsEofTerminated(t: Token, ts: seq<Token>)
    requires t.kind !in {EOF, STRING, COMMA} && EofTerminated(ts)
    ensures EofTerminated([t] + ts)
  {
    var us := [t] + ts;
    assert forall i :: 1 <= i < |us| ==> us[i] == ts[i - 1];
  }

  /**
   * A failed lex returns no tokens and an `Illegal Character` error whose detail is an
   * unhandled character of the text in quotes, at that character's position.
   */
  lemma {:induction false} FailureIsIllegalChar(c: Consts, code: string, p: Position)
    requires c.Valid() && InText(code, p)
    ensures var r := Tokenize(c, code, p);
      r.error.Some? ==>
        r.tokens == [] && r.error.value.name == ILLEGAL_CHAR &&
        exists k :: p.idx <= k < |code| && !Handled(c, code[k]) &&
          r.error.value.details == Some("\"" + [code[k]] + "\"") &&
          |r.error.value.range| == 2 && r.error.value.range[0] == r.error.value.range[1] &&
          r.error.value.range[0].idx == k
    decreases |code| - p.idx
  {
    match Scan(c, code, p)
    case End =>
    case Skip(q) => FailureIsIllegalChar(c, code, q);
    case Emit(t, q) => FailureIsIllegalChar(c, code, q);
    case Fail(e, q) => assert !Handled(c, code[p.idx]);
  }

  /** Conversely, a text all of whose characters some branch handles always lexes. */
  lemma {:induction false} HandledTextLexes(c: Consts, code: string, p: Position)
    requires c.Valid() && InText(code, p)
    requires forall k :: p.idx <= k < |code| ==> Handled(c, code[k])
    ensures Tokenize(c, code, p).error.None?
    decreases |code| - p.idx
  {
    match Scan(c, code, p)
    case End =>
    case Skip(q) => HandledTextLexes(c, code, q);
    case Emit(t, q) => HandledTextLexes(c, code, q);
    case Fail(e, q) => assert false;
  }

  /**
   * Token ranges of a lex: every token starts at or after `from`, ends after it starts
   * (the `EOF` token is empty), and each token ends before the next one starts.
   */
  predicate Spanned(ts: seq<Token>, from: int) {
    (forall i :: 0 <= i < |ts| ==> from <= ts[i].start.idx) &&
    (forall i :: 0 <= i < |ts| && ts[i].kind != EOF ==> ts[i].start.idx < ts[i].end.idx) &&
    (forall i :: 0 <= i < |ts| && ts[i].kind == EOF ==> ts[i].start == ts[i].end) &&
    (forall i :: 0 <= i < |ts| - 1 ==> ts[i].end.idx <= ts[i + 1].start.idx)
  }

  lemma {:induction false} SuccessIsSpanned(c: Consts, code: string, p: Position)
    requires c.Valid() && InText(code, p)
    ensures Tokenize(c, code, p).error.None? ==> Spanned(Tokenize(c, code, p).tokens, p.idx)
    decreases |code| - p.idx
  {
    match Scan(c, code, p)
    case End =>
      assert Step(p) == p;
    case Skip(q) => SuccessIsSpanned(c, code, q);
    case Emit(t, q) =>
      SuccessIsSpanned(c, code, q);
      var rest := Tokenize(c, code, q);
      if rest.error.None? {
        SuccessIsEofTerminated(c, code, q);
        var ts := [t] + rest.tokens;
        assert forall i :: 1 <= i < |ts| ==> ts[i] == rest.tokens[i - 1];
        assert ts[0] == t;
      }
    case Fail(e, q) =>
  }

  /** Skipped input: blanks and comments produce no tokens of their own. */
  lemma SkippedInputEmitsNothing(c: Consts, code: string, p: Position)
    requires c.Valid() && InText(code, p) && p.idx < |code|
    requires IsBlank(code[p.idx]) || (code[p.idx] == '#' && '#' !in c.letters)
    ensures IsBlank(code[p.idx]) ==> Tokenize(c, code, p) == Tokenize(c, code, Advance(p, Some(code[p.idx])))
    ensures code[p.idx] == '#' ==> Tokenize(c, code, p) == Tokenize(c, code, SkipComment(code, p))
  {
    if IsBlank(code[p.idx]) {
      assert Scan(c, code, p) == Skip(Advance(p, Some(code[p.idx])));
    } else {
      assert '#' !in c.digits by { assert AllDigits(c.digits); }
      assert Scan(c, code, p) == Skip(SkipComment(code, p));
    }
  }

  /** Advancing a position over the characters from its index up to index `k`. */
  function AdvanceTo(code: string, p: Position, k: int): (q: Position)
    requires InText(code, p) && p.idx <= k <= |code|
    ensures InText(code, q) && q.idx == k
    decreases k - p.idx
  {
    if p.idx == k then p else AdvanceTo(code, Advance(p, Some(code[p.idx])), k)
  }

  /** A run of blanks of any length in front of the input changes nothing. */
  lemma {:induction false} BlankRunEmitsNothing(c: Consts, code: string, p: Position, k: int)
    requires c.Valid() && InText(code, p) && p.idx <= k <= |code|
    requires forall j :: p.idx <= j < k ==> IsBlank(code[j])
    ensures Tokenize(c, code, p) == Tokenize(c, code, AdvanceTo(code, p, k))
    decreases k - p.idx
  {
    if p.idx < k {
      BlankRunEmitsNothing(c, code, Advance(p, Some(code[p.idx])), k);
    }
  }

  /**
   * A comment that runs to the end of the input (no newline after the `#`) ends the scan
   * with the `EOF` token, thanks to the end-of-input guard of `SkipComment`.
   */
  lemma TrailingCommentEnds(c: Consts, code: string, p: Position)
    requires c.Valid() && InText(code, p) && p.idx < |code| && code[p.idx] == '#' && '#' !in c.letters
    requires forall j :: p.idx <= j < |code| ==> code[j] != '\n'
    ensures var r := Tokenize(c, code, p);
      r.error.None? && |r.tokens| == 1 && r.tokens[0].kind == EOF && r.tokens[0].start.idx == |code|
  {
    var q := SkipComment(code, p);
    assert q.idx == |code|;
    assert '#' !in c.digits by { assert AllDigits(c.digits); }
    assert Scan(c, code, p) == Skip(q);
    assert Scan(c, code, q) == End;
  }

  /** The number scan of `1.2.3` stops at the second dot with the `FLOAT` lexeme `1.2`. */
  lemma OnePointTwoNumber(c: Consts, fn: string)
    requires c.Valid() && '1' in c.digits && '2' in c.digits
    ensures var code := "1.2.3"; var p := StartPosition(fn, code);
      Number(c, code, p).0.kind == FLOAT &&
      Number(c, code, p).0.value == FloatValue("1.2") &&
      Number(c, code, p).1.idx == 3
  {
    var code := "1.2.3";
    var p := StartPosition(fn, code);
    var p1 := Advance(p, Some('1'));
    var p2 := Advance(p1, Some('.'));
    var p3 := Advance(p2, Some('2'));
    assert p1.idx == 1 && p2.idx == 2 && p3.idx == 3;
    assert code[0] == '1' && code[1] == '.' && code[2] == '2' && code[3] == '.';
    assert NumberChar(c, '1') && NumberChar(c, '.') && NumberChar(c, '2');
    assert "" + ['1'] == "1" && "1" + ['.'] == "1." && "1." + ['2'] == "1.2";
    assert NumberLoop(c, code, p3, "1.2", 1) == ("1.2", 1, p3);
    assert NumberLoop(c, code, p2, "1.", 1) == ("1.2", 1, p3);
    assert NumberLoop(c, code, p1, "1", 0) == ("1.2", 1, p3);
    assert NumberLoop(c, code, p, "", 0) == ("1.2", 1, p3);
    assert code[p.idx..p3.idx] == "1.2";
    assert '.' in "1.2";
  }

  /** A `.` that no branch handles fails the scan at that point. */
  lemma StrayDotFails(c: Consts, code: string, q: Position)
    requires c.Valid() && InText(code, q) && q.idx < |code| && code[q.idx] == '.' && '.' !in c.letters
    ensures Tokenize(c, code, q) == Lexed([], Some(IllegalChar(q, '.')), Advance(q, Some('.')))
  {
    assert '.' !in c.digits by { assert AllDigits(c.digits); }
    assert !Handled(c, '.');
  }

  /**
   * `1.2.3` lexes the `FLOAT` `1.2` and then fails on the stray `.`: the result is no
   * tokens and an illegal-character error for `"."`.
   */
  lemma OnePointTwoPointThree(c: Consts, fn: string)
    requires c.Valid() && '1' in c.digits && '2' in c.digits && '.' !in c.letters
    ensures var r := Lex(c, fn, "1.2.3");
      r.tokens == [] && r.error.Some? && r.error.value.name == ILLEGAL_CHAR &&
      r.error.value.details == Some("\".\"")
  {
    var code := "1.2.3";
    var p := StartPosition(fn, code);
    OnePointTwoNumber(c, fn);
    var (t, q) := Number(c, code, p);
    assert code[q.idx] == '.';
    assert Scan(c, code, p) == Emit(t, q);
    StrayDotFails(c, code, q);
    assert "\"" + ['.'] + "\"" == "\".\"";
  }

  // ---------------------------------------------------------------------------
  // The comment loop as written

  /**
   * The `#` loop of `lex` as written: it stops only on a newline, advancing with the current
   * character, which is `None` past the end of the text. `Some(q)` is where it stops within
   * `fuel` steps; `None` means it has not stopped by then.
   */
  function SkipCommentAsWritten(code: string, p: Position, fuel: nat): Option<Position>
    decreases fuel
  {
    if CharAt(code, p.idx) == Some('\n') then Some(p)
    else if fuel == 0 then None
    else SkipCommentAsWritten(code, Advance(p, CharAt(code, p.idx)), fuel - 1)
  }

  /** A comment with no newline after it never ends: however many steps, the loop runs on. */
  lemma {:induction false} TrailingCommentHangs(code: string, p: Position, fuel: nat)
    requires 0 <= p.idx && forall j :: p.idx <= j < |code| ==> code[j] != '\n'
    ensures SkipCommentAsWritten(code, p, fuel) == None
    decreases fuel
  {
    if fuel > 0 {
      TrailingCommentHangs(code, Advance(p, CharAt(code, p.idx)), fuel - 1);
    }
  }

  /** Where a newline follows, the guarded loop stops where the loop as written does. */
  lemma {:induction false} CommentWithNewlineAgrees(code: string, p: Position)
    requires InText(code, p) && exists j :: p.idx <= j < |code| && code[j] == '\n'
    ensures SkipCommentAsWritten(code, p, |code| - p.idx) == Some(SkipComment(code, p))
    decreases |code| - p.idx
  {
    var j :| p.idx <= j < |code| && code[j] == '\n';
    if code[p.idx] != '\n' {
      var q := Advance(p, Some(code[p.idx]));
      assert q.idx <= j;
      CommentWithNewlineAgrees(code, q);
    }
  }
}
