/** The `Lexer` class of lexer.py: a cursor over the source that emits tokens. */
module Lexer {
  import opened Wrappers
  import opened Text
  import opened Errors
  import opened Lexing

  lemma PrependAllAppend(ts: seq<Token>, t: Token, r: Lexed)
    ensures PrependAll(ts, PrependAll([t], r)) == PrependAll(ts + [t], r)
  {
    if r.error.None? {
      assert ts + ([t] + r.tokens) == (ts + [t]) + r.tokens;
    }
  }

  class Lexer {
    const consts: Consts
    const fn: string
    const code: string
    var pos: Position
    var currentChar: Option<char>

    /** The cursor invariant: `currentChar` is the character at `pos.idx`, or `None` past the end. */
    ghost predicate Valid()
      reads this
    {
      consts.Valid() && pos.ftxt == code && pos.fn == fn && 0 <= pos.idx &&
      currentChar == CharAt(code, pos.idx)
    }

    /** `Lexer.__init__`: the position starts before the text and is advanced once. */
    constructor (consts: Consts, fn: string, code: string)
      requires consts.Valid()
      ensures Valid() && this.consts == consts && this.fn == fn && this.code == code
      ensures pos == StartPosition(fn, code)
    {
      this.consts := consts;
      this.fn := fn;
      this.code := code;
      pos := Errors.Advance(Position(-1, 0, -1, fn, code), None);
      currentChar := CharAt(code, 0);
    }

    /** `advance`: the position moves on past the current character. */
    method Advance()
      requires Valid()
      modifies this
      ensures Valid()
      ensures pos == Errors.Advance(old(pos), old(currentChar))
      ensures currentChar == CharAt(code, pos.idx)
    {
      pos := Errors.Advance(pos, currentChar);
      currentChar := if pos.idx < |code| then Some(code[pos.idx]) else None;
    }

    /** `makeNumber`, proved to compute `Number`. */
    method MakeNumber() returns (token: Token)
      requires Valid() && pos.idx < |code| && code[pos.idx] in consts.digits
      modifies this
      ensures Valid()
      ensures (token, pos) == Number(consts, code, old(pos))
    {
      var numStr := "";
      var dots: nat := 0;
      var startPos := pos;
      while currentChar.Some? && NumberChar(consts, currentChar.value)
        invariant Valid() && InText(code, pos) && startPos.idx <= pos.idx
        invariant NumberLoop(consts, code, startPos, "", 0) == NumberLoop(consts, code, pos, numStr, dots)
        decreases |code| - pos.idx
      {
        if currentChar.value == '.' {
          if dots >= 1 {
            break;
          }
          dots := dots + 1;
          numStr := numStr + ".";
        } else {
          numStr := numStr + [currentChar.value];
        }
        Advance();
      }
      assert NumberLoop(consts, code, startPos, "", 0) == (numStr, dots, pos);
      NumberLexeme(consts, code, startPos);
      if dots <= 0 {
        token := MakeToken([startPos, pos], INT, IntValue(DigitsValue(numStr)));
      } else {
        token := MakeToken([startPos, pos], FLOAT, FloatValue(numStr));
      }
    }

    /** `makeIdentifier`, proved to compute `Identifier`. */
    method MakeIdentifier() returns (token: Token)
      requires Valid() && pos.idx < |code| && code[pos.idx] in consts.letters
      modifies this
      ensures Valid()
      ensures (token, pos) == Identifier(consts, code, old(pos))
    {
      var idenStr := "";
      var startPos := pos;
      while currentChar.Some? && IdentChar(consts, currentChar.value)
        invariant Valid() && InText(code, pos) && startPos.idx <= pos.idx
        invariant IdentLoop(consts, code, startPos, "") == IdentLoop(consts, code, pos, idenStr)
        decreases |code| - pos.idx
      {
        idenStr := idenStr + [currentChar.value];
        Advance();
      }
      if idenStr in consts.keywords {
        token := MakeToken([startPos, pos], KEYWORD, Word(idenStr));
      } else {
        token := MakeToken([startPos, pos], IDENTIFIER, Word(idenStr));
      }
    }

    /** `makeEquals`, proved to compute `Equals`. */
    method MakeEquals() returns (token: Token)
      requires Valid() && pos.idx < |code| && code[pos.idx] == '='
      modifies this
      ensures Valid()
      ensures (token, pos) == Equals(code, old(pos))
    {
      var tokenType := EQ;
      var startPos := pos;
      Advance();
      if currentChar == Some('=') {
        tokenType := EE;
        Advance();
      }
      token := MakeToken([startPos, pos], tokenType, NoValue);
    }

    /** `makeNotEquals`, proved to compute `NotEquals`. */
    method MakeNotEquals() returns (token: Token)
      requires Valid() && pos.idx < |code| && code[pos.idx] == '!'
      modifies this
      ensures Valid()
      ensures (token, pos) == NotEquals(code, old(pos))
    {
      var tokenType := NOT;
      var startPos := pos;
      Advance();
      if currentChar == Some('=') {
        tokenType := NE;
        Advance();
      }
      token := MakeToken([startPos, pos], tokenType, NoValue);
    }

    /**
     * `lex`, proved to compute `Tokenize` from the current position: the token list and
     * the error it returns, and where the cursor stops.
     */
    method Lex() returns (tokens: seq<Token>, err: Option<Error>)
      requires Valid() && pos.idx <= |code|
      modifies this
      ensures Valid()
      ensures Lexed(tokens, err, pos) == Tokenize(consts, code, old(pos))
    {
      ghost var p0 := pos;
      tokens := [];
      while currentChar != None
        invariant Valid() && InText(code, pos)
        invariant Tokenize(consts, code, p0) == PrependAll(tokens, Tokenize(consts, code, pos))
        decreases |code| - pos.idx
      {
        var ch := currentChar.value;
        ghost var step := Scan(consts, code, pos);
        if IsBlank(ch) {
          Advance();
        } else if ch in consts.digits {
          var t := MakeNumber();
          PrependAllAppend(tokens, t, Tokenize(consts, code, pos));
          tokens := tokens + [t];
        } else if ch in consts.letters {
          var t := MakeIdentifier();
          PrependAllAppend(tokens, t, Tokenize(consts, code, pos));
          tokens := tokens + [t];
        } else if SingleCharKind(ch).Some? {
          var t := MakeToken([pos], SingleCharKind(ch).value, NoValue);
          Advance();
          PrependAllAppend(tokens, t, Tokenize(consts, code, pos));
          tokens := tokens + [t];
        } else if ch == '#' {
          ghost var hash := pos;
          while currentChar != None && currentChar != Some('\n')
            invariant Valid() && InText(code, pos) && hash.idx <= pos.idx
            invariant SkipComment(code, hash) == SkipComment(code, pos)
            decreases |code| - pos.idx
          {
            Advance();
          }
          assert step == Skip(pos);
        } else if ch == '=' {
          var t := MakeEquals();
          PrependAllAppend(tokens, t, Tokenize(consts, code, pos));
          tokens := tokens + [t];
        } else if ch == '!' {
          var t := MakeNotEquals();
          PrependAllAppend(tokens, t, Tokenize(consts, code, pos));
          tokens := tokens + [t];
        } else {
          var posStart := pos;
          Advance();
          assert step == Fail(IllegalChar(posStart, ch), pos);
          return [], Some(IllegalChar(posStart, ch));
        }
      }
      tokens := tokens + [MakeToken([pos], EOF, NoValue)];
      err := None;
    }
  }
}
