/** Source positions and the diagnostic record shared by the lexer and the parser (error.py). */
module Errors {
  import opened Wrappers
  import opened Text

  /**
   * A source location. position.py is not part of this model: the record keeps the
   * fields the core reads (index, line, column, file name, full text).
   */
  datatype Position = Position(idx: int, ln: int, col: int, fn: string, ftxt: string)

  /**
   * Moving one character on. Only the index step and the unchanged file data are relied
   * upon by the lexer; the line/column bookkeeping is the conventional one.
   */
  function Advance(p: Position, current: Option<char>): (q: Position)
    ensures q.idx == p.idx + 1 && q.fn == p.fn && q.ftxt == p.ftxt
  {
    if current == Some('\n') then p.(idx := p.idx + 1, ln := p.ln + 1, col := 0)
    else p.(idx := p.idx + 1, col := p.col + 1)
  }

  const ILLEGAL_CHAR := "Illegal Character"
  const INVALID_SYNTAX := "Invalid Syntax"

  /**
   * A diagnostic: a range of positions, a name and optional details. `Error.__init__` calls
   * `copy()` on every entry first, so an absent entry never gets as far as a range.
   */
  datatype Error = Error(range: seq<Position>, name: string, details: Option<string>)

  /**
   * `Error.__init__`: a range with fewer than two entries gets its first entry appended;
   * any other range is kept as given. (The `posRange[1] == None` test cannot hold once
   * every entry has been copied.)
   */
  function MakeError(range: seq<Position>, name: string, details: Option<string>): (e: Error)
    requires |range| >= 1
    ensures e.name == name && e.details == details
    ensures |e.range| >= 2 && e.range[0] == range[0]
    ensures |range| >= 2 ==> e.range == range
    ensures |range| < 2 ==> e.range == range + [range[0]]
  {
    if |range| < 2 then Error(range + [range[0]], name, details)
    else Error(range, name, details)
  }

  /** What `Error.__str__` needs to index the source line without raising. */
  predicate Renderable(e: Error) {
    |e.range| >= 1 &&
    0 <= e.range[0].ln < |Split(e.range[0].ftxt, '\n')|
  }

  /** The part of the rendering that is always present. */
  function Header(e: Error): string
    requires Renderable(e)
  {
    var p := e.range[0];
    "At " + p.fn + ", line " + NatToString(p.ln + 1) + ":\n" + Split(p.ftxt, '\n')[p.ln] + "\n" + e.name
  }

  /** `Error.__str__`: the header, then `: <details>` exactly when the details are truthy. */
  function Render(e: Error): (r: string)
    requires Renderable(e)
    ensures |r| >= |Header(e)| && r[..|Header(e)|] == Header(e)
    ensures Truthy(e.details) <==> |r| > |Header(e)|
    ensures Truthy(e.details) ==> r[|Header(e)|..] == ": " + e.details.value
  {
    if Truthy(e.details) then Header(e) + ": " + e.details.value else Header(e)
  }

  /**
   * The excerpt in the rendering is one whole line of the source: it holds no newline and
   * the source is the newline-join of all its lines.
   */
  lemma RenderedLineIsSourceLine(e: Error)
    requires Renderable(e)
    ensures var p := e.range[0];
      var lines := Split(p.ftxt, '\n');
      '\n' !in lines[p.ln] && Join(lines, '\n') == p.ftxt &&
      Header(e) == "At " + p.fn + ", line " + NatToString(p.ln + 1) + ":\n" + lines[p.ln] + "\n" + e.name
  {
    JoinSplit(e.range[0].ftxt, '\n');
  }

  /** The line number shown is one more than the stored 0-based line, read back exactly. */
  lemma RenderedLineNumber(e: Error)
    requires Renderable(e)
    ensures DigitsValue(NatToString(e.range[0].ln + 1)) == e.range[0].ln + 1
  {
    DigitsValueOfNatToString(e.range[0].ln + 1);
  }
}
