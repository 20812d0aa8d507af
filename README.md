# MCLang compiler core in Dafny

MCLang is a small scripting language of variables, arithmetic and comparisons, zero-argument
functions, `if` blocks and a `print` builtin. It compiles to Minecraft datapack function text:
`scoreboard players set/operation` lines, `execute if|unless score … run function` lines and
`tellraw` lines. This project models the three stages of its compiler and proves properties
about them.

- **Lexer** (`lexer.py`, `error.py`). `Lexing` gives a pure reference scanner over positions:
  `Number`, `Identifier`, `Equals`, `NotEquals`, `SkipComment`, `Scan` and `Tokenize`.
  The class `Lexer.Lexer` keeps the source's mutable cursor (`pos`, `currentChar`). Each of
  its methods is proved to compute what the reference function computes. `Errors` models the
  `Error` record and its rendering.
- **Parser** (`parser.py`). `Ast.Node` is one datatype covering the node classes, and
  `Ast.NodeRange` gives their `posRange`. `Parsing` is the recursive descent as mutually
  recursive functions over a token index. `ParseResult` becomes the value `Parsed(node, next)`
  or `Failed(error)`. The class `Parser.Parser` keeps `tokenIdx`/`currentTok`. Each of its
  methods is proved to agree with the reference parse, in node, cursor and error.
- **Code generator** (`compiler.py`). `Lowering` defines every `visit_*` method as a function
  from the generator state to the returned text and the new state. The state `GenState` holds
  `tempInner`, `resultInner`, `condNot`, `count`, `codeBlocks`, `functions` and the files
  written. The project folder is a map from file name to file text. The class
  `Compiler.Compiler` has those fields. Its visit methods update them step by step with
  `code +=`. Each visit is proved to return the reference text and to leave the reference
  state, or to fail with the same error.

`const.py` is not part of this model. Its character sets and keyword and builtin sets are
parameters: `Lexing.Consts` and `Lowering.Env`. The only assumption is that `DIGITS` holds
decimal digits. `position.py` is not part of this model either. A position is a record whose
index advances by one per character.

Two behaviours of the code are easy to miss:

- A call with arguments to a name other than `print` returns `None` (`compiler.py:71-87`).
  The model returns `Nothing`, which the enclosing block then rejects as text (`NotText`, the
  `TypeError` of `code +=`).
- A `print` argument that is not a number, a variable or an operation emits `tellraw @a {}`.

## Model

| member | source | states |
|---|---|---|
| Errors.MakeError | error.py:5-15 | the name and details are kept; a range of one position gets that position appended, and any longer range is unchanged; either way the result has at least two entries and the same first one |
| Errors.Render | error.py:17-22 | the rendering starts with the `At <file>, line <n>:` header, the source line and the error name; `: <details>` follows exactly when the details are truthy |
| Errors.RenderedLineIsSourceLine | error.py:18 | the excerpt is one whole source line: it has no newline, and joining all lines gives the source back |
| Errors.RenderedLineNumber | error.py:18 | the line number shown reads back as the 0-based line plus one |
| Lexing.MakeToken | lexer.py:30-45 | kind, value and start are those given; a two-position range gives the end, and a one-position range ends one character on |
| Lexing.Step | lexer.py:39-45 | a single-position token ends one index further inside the text, and at the same position when the index is past the end |
| Lexing.MatchesMeaning | lexer.py:47-49 | `matches` compares the kind, and the value only when the wanted value is truthy |
| Lexing.CharAt | lexer.py:69 | the current character is `code[idx]` exactly when the index is inside the text, otherwise `None` |
| Lexing.NumberLoop | lexer.py:129-139 | the loop consumes number characters, stopping at the end, at a non-number character, or at a second `.`, and consumes only number characters |
| Lexing.NumberLoopText | lexer.py:129-139 | the collected text is the accumulated prefix followed by exactly the slice the loop consumed |
| Lexing.NumberLoopDots | lexer.py:129-139 | `dots` is its start value plus the dots in the consumed slice, and never exceeds one when it starts at most one |
| Lexing.Number | lexer.py:123-144 | the token spans the maximal digit run with at most one `.`; without a dot it is an `INT` holding the digits' value, with one a `FLOAT` holding its lexeme |
| Lexing.NumberLexeme | lexer.py:123-144 | the number's lexeme is non-empty and holds at most one `.`; it has none exactly when `dots` is 0, and then it is all digits |
| Lexing.IdentLoop | lexer.py:151-154 | the loop consumes the maximal run of letters and `_` |
| Lexing.Identifier | lexer.py:146-159 | the token spans that run and holds the word; it is a `KEYWORD` exactly when the word is a keyword, and an `IDENTIFIER` otherwise |
| Lexing.Operator | lexer.py:161-183 | a character followed by `=` gives the pair kind and consumes two characters; otherwise the single kind, consuming one |
| Lexing.Equals | lexer.py:161-171 | `==` is `EE` (two characters); anything else is `EQ` (one character) |
| Lexing.NotEquals | lexer.py:173-183 | `!=` is `NE` (two characters); anything else is `NOT` (one character) |
| Lexing.SkipComment | lexer.py:105-107 | the comment loop skips only non-newline characters and stops at the next newline or at the end of the text |
| Lexing.Scan | lexer.py:74-117 | one pass of the `lex` loop: it ends exactly at the end of the text; it skips blanks and comments; it emits a token of a handled character beginning there; it fails exactly on an unhandled character, with the illegal-character error |
| Lexing.Tokenize | lexer.py:71-121 | reference definition, no contract of its own: the `lex` loop from a position, which drops skipped input, keeps emitted tokens in order, stops with no tokens and the error at the first illegal character, and at the end of the text appends an empty `EOF` token |
| Lexing.Lex | lexer.py:58-121 | reference definition, no contract of its own: `Lexer(fn, code).lex()`, that is `Tokenize` from the start position |
| Lexing.StartPosition | lexer.py:58-65 | the lexer starts at index 0 of its text |
| Lexer.Lexer.constructor | lexer.py:58-65 | the cursor is at the start position of the text |
| Lexer.Lexer.Advance | lexer.py:67-69 | the position advances over the current character, and `currentChar` is the character at the new index |
| Lexer.Lexer.MakeNumber | lexer.py:123-144 | the token and the cursor are those of `Lexing.Number` |
| Lexer.Lexer.MakeIdentifier | lexer.py:146-159 | the token and the cursor are those of `Lexing.Identifier` |
| Lexer.Lexer.MakeEquals | lexer.py:161-171 | the token and the cursor are those of `Lexing.Equals` |
| Lexer.Lexer.MakeNotEquals | lexer.py:173-183 | the token and the cursor are those of `Lexing.NotEquals` |
| Lexer.Lexer.Lex | lexer.py:71-121 | the tokens, the error and the final cursor are those of `Lexing.Tokenize` |
| LexerProps.SuccessIsEofTerminated | lexer.py:119-121 | a successful lex ends with an `EOF` token, has no other `EOF` and never yields `STRING` or `COMMA` |
| LexerProps.FailureIsIllegalChar | lexer.py:112-117 | a failed lex returns no tokens and an `Illegal Character` error; its detail is a quoted unhandled character of the text, and its range is that character's position twice |
| LexerProps.HandledTextLexes | lexer.py:74-121 | a text whose characters are all handled always lexes |
| LexerProps.SuccessIsSpanned | lexer.py:71-121 | the tokens of a successful lex lie in order and do not overlap; each non-`EOF` token is non-empty and the `EOF` token is empty |
| LexerProps.SkippedInputEmitsNothing | lexer.py:75-107 | a blank or a comment contributes no token: lexing goes on from after it |
| LexerProps.BlankRunEmitsNothing | lexer.py:75-76 | a run of blanks of any length in front of the input changes nothing |
| LexerProps.TrailingCommentEnds | lexer.py:105-107 | with the end-of-input guard, a comment at the end of the text ends the lex with the `EOF` token |
| LexerProps.SkipCommentAsWritten | lexer.py:105-107 | as-written definition, no contract of its own: the comment loop with no end-of-input test, run for a given amount of fuel; it stops only on a newline, and past the end of the text the current character stays `None` |
| LexerProps.TrailingCommentHangs | lexer.py:105-107 | as written, the comment loop never stops when no newline follows the `#` |
| LexerProps.CommentWithNewlineAgrees | lexer.py:105-107 | when a newline follows, the guarded comment loop stops where the loop as written stops |
| LexerProps.OnePointTwoNumber | lexer.py:129-144 | the number scan of `1.2.3` gives the `FLOAT` `1.2` and stops before the second dot |
| LexerProps.StrayDotFails | lexer.py:112-117 | a `.` that starts no token fails the lex with an illegal-character error |
| LexerProps.OnePointTwoPointThree | lexer.py:71-144 | `1.2.3` lexes to no tokens and an illegal-character error for `"."` |
| Ast.OperandTreeRange | parser.py:6-32 | a tree of operands and binary operators ranges from its leftmost token's start to its rightmost token's end |
| Ast.AssignmentRange | parser.py:87-92 | an assignment of an operand tree ends where the value's rightmost token ends |
| Ast.NodeRange | parser.py:6-102 | reference definition, no contract of its own: the `posRange` each node constructor computes, including the operand-then-operator range of a unary node and the nested ranges of a code block |
| Parsing.Adv | parser.py:133-139 | `advance` moves the index one on, never past the last token |
| Parsing.Factor | parser.py:146-182 | a successful factor consumes at least one token and is an expression |
| Parsing.Operand | parser.py:187 | the operand parser of each level consumes at least one token and returns an expression |
| Parsing.BinOp | parser.py:184-200 | a successful `binOp` consumes at least one token and returns an expression; its grouping is stated by `ParserShape.BinOpRanked` |
| Parsing.BinOpLoop | parser.py:189-198 | the operator loop never moves back and builds expressions with no string operand |
| Parsing.Term | parser.py:202-203 | a successful term consumes at least one token and is an expression |
| Parsing.ArithExpr | parser.py:223-224 | a successful arithmetic expression consumes at least one token and is an expression |
| Parsing.CompExpr | parser.py:208-221 | a successful comparison expression consumes at least one token and is an expression |
| Parsing.Expr | parser.py:205-206 | a successful expression consumes at least one token and is an expression; its grouping is stated by `ParserShape.ExprRanked` and its token extent by `ParserShape.ExprWithin` |
| Parsing.Args | parser.py:298-313 | the argument loop stops at a `)` and collects expressions |
| Parsing.Action | parser.py:253-331 | a successful action consumes at least one token and is a statement; a call of a non-builtin has no arguments |
| Parsing.FuncDecl | parser.py:256-277 | a successful `func` declaration consumes at least one token and is a function node whose name is an identifier and whose body is a block of statements |
| Parsing.IfStmt | parser.py:278-289 | a successful `if` consumes at least one token and is a conditional on an expression with a block of statements |
| Parsing.IdentStmt | parser.py:290-331 | a successful call or assignment consumes at least one token and is a statement; a call of a non-builtin has no arguments |
| Parsing.Block | parser.py:237-244 | the statement loop stops at the end token and collects statements |
| Parsing.CodeBlock | parser.py:226-251 | a successful block is a block of statements; the top-level block stops at `EOF` |
| Parsing.Parse | parser.py:141-144 | a successful parse is a block of statements ending at `EOF` |
| Parser.Parser.constructor | parser.py:127-131 | the cursor is at the first token |
| Parser.Parser.Advance | parser.py:133-139 | `tokenIdx` goes up by one; the cursor moves as `Parsing.Adv` says, and at the last token `currentTok` stays |
| Parser.Parser.Factor | parser.py:146-182 | node, cursor and error agree with `Parsing.Factor` |
| Parser.Parser.Operand | parser.py:187 | node, cursor and error agree with `Parsing.Operand` |
| Parser.Parser.BinOp | parser.py:184-200 | node, cursor and error agree with `Parsing.BinOp`; the loop keeps what remains equal to `Parsing.BinOpLoop` from the cursor |
| Parser.Parser.Term | parser.py:202-203 | agrees with `Parsing.Term` |
| Parser.Parser.Expr | parser.py:205-206 | agrees with `Parsing.Expr` |
| Parser.Parser.CompExpr | parser.py:208-221 | agrees with `Parsing.CompExpr` |
| Parser.Parser.ArithExpr | parser.py:223-224 | agrees with `Parsing.ArithExpr` |
| Parser.Parser.CodeBlock | parser.py:226-251 | agrees with `Parsing.CodeBlock`; the statement loop keeps the statements read so far and the rest equal to `Parsing.Block` |
| Parser.Parser.Action | parser.py:253-332 | agrees with `Parsing.Action`: dispatches on `func`, `if` and an identifier, and fails otherwise |
| Parser.Parser.FuncDecl | parser.py:256-277 | agrees with `Parsing.FuncDecl` |
| Parser.Parser.IfStmt | parser.py:278-289 | agrees with `Parsing.IfStmt` |
| Parser.Parser.IdentStmt | parser.py:290-331 | agrees with `Parsing.IdentStmt`; the argument loop keeps the arguments read so far and the rest equal to `Parsing.Args` |
| Parser.Parser.Parse | parser.py:141-144 | agrees with `Parsing.Parse` |
| ParserProps.LexedTokensParse | lexer.py:119-121 | what a successful lex returns ends with `EOF`, as the parser needs |
| ParserProps.Leaf | parser.py:153-164 | a number, string or identifier token becomes a one-token expression |
| ParserProps.LevelOf | parser.py:202-224 | each binary operator kind belongs to exactly one of the three levels |
| ParserProps.LeafOperand | parser.py:184-200 | a leaf followed by an operator of a looser level is a whole operand |
| ParserProps.Lift | parser.py:184-224 | a level whose operator does not follow returns the tighter level's parse unchanged |
| ParserProps.ExprIsComparison | parser.py:205-221 | an expression that does not start with `!` is a comparison-level parse |
| ParserProps.LeafExpr | parser.py:146-224 | a leaf followed by a non-operator is a whole expression |
| ParserProps.LoopFoldsLeft | parser.py:189-198 | the operator loop over a chain of leaves builds the left-deep tree |
| ParserProps.ChainFoldsLeft | parser.py:184-200 | a chain of leaves joined by operators of one level parses as exactly the left-deep tree, stopping at the first looser token |
| ParserProps.SubtractionFoldsLeft | parser.py:223-224 | `a - b - c` parses as `(a - b) - c` |
| ParserProps.ProductsBindTighter | parser.py:202-224 | `1 + 2 * 3` parses as `1 + (2 * 3)` |
| ParserProps.SumsBindTighter | parser.py:208-224 | `1 == 2 + 3` parses as `1 == (2 + 3)` |
| ParserProps.OneOperator | parser.py:184-200 | a non-string leaf, one operator of the level and a tighter operand before a looser token parse as that single operator node |
| ParserProps.StringOperandsRejected | parser.py:193-196 | at every level and for every operator of it, a string leaf on either side fails with the string-operand error at the token after the right operand, both at that level and for the whole expression |
| ParserProps.FailureRises | parser.py:184-224 | a failed parse at one level is the same failure at every looser level from the same token |
| ParserProps.NestedBlockBraces | parser.py:226-251 | a nested block must start with `{` and ends after its `}` |
| ParserProps.TopLevelBlock | parser.py:141-144 | the empty program is the empty block; a stray `}` is rejected as not starting a statement |
| ParserProps.StatementErrors | parser.py:253-331 | the error for each malformed statement start, with its message, at the token that breaks it |
| ParserProps.NonBuiltinCall | parser.py:314-320 | a call to a non-builtin must be `()` exactly, and otherwise fails with `Expected )` |
| ParserProps.ArgsStep | parser.py:300-313 | one round of the argument loop over a leaf: `)` ends it, `,` continues after the comma |
| ParserProps.ArgsOfLeaves | parser.py:298-313 | comma-separated leaves closed by `)` are collected in order |
| ParserProps.MoreArgsOfLeaves | parser.py:300-313 | after a leaf and a comma, the rest of the leaves are collected in order behind it |
| ParserProps.BuiltinCallArgs | parser.py:290-320 | a builtin call of comma-separated leaves has exactly those arguments and ends after `)` |
| ParserProps.BuiltinCallErrors | parser.py:307-308 | `f(x y)` fails at `y` with `Expected , or )`; `f()` has no arguments |
| ParserProps.UnaryOpNodeInit | parser.py:45-53 | as-written definition, no contract of its own: `UnaryOpNode.__init__` reads its value's `posRange`, so it builds the node from a node and raises `AttributeError` on a `ParseResult` |
| ParserProps.NegationAsWritten | parser.py:159-161 | as-written definition, no contract of its own: the `-` branch of `factor` handing the whole `ParseResult` of `expr` to `UnaryOpNode` |
| ParserProps.NegationRaises | parser.py:159-161 | as written, `-1` raises although `1` parses, because the operand is the whole `ParseResult` |
| ParserProps.NegationParses | parser.py:159-161 | with the operand taken from the `ParseResult`, `-1` is the negation of `1`, and `-1 + 2` negates the sum |
| ParserShape.FactorRanked | parser.py:146-182 | without parentheses a factor holds no binary operator outside a negated expression |
| ParserShape.OperandRanked | parser.py:187 | without parentheses the operand of a level binds strictly tighter than that level |
| ParserShape.BinOpRanked | parser.py:184-200 | without parentheses every tree `binOp` builds at a level has its operators at that level or tighter, same-level operators grouped to the left, and tighter ones on the right |
| ParserShape.LoopRanked | parser.py:189-198 | each round of the operator loop keeps the tree ranked: the new operator takes the tree so far on its left and a tighter operand on its right |
| ParserShape.CompExprRanked | parser.py:208-221 | without parentheses a comparison-level parse, or a `!` of a whole expression, is ranked |
| ParserShape.ExprRanked | parser.py:146-224 | for every input without parentheses: `*` and `/` bind tighter than `+` and `-`, which bind tighter than `==` and `!=`, and each level groups to the left |
| ParserShape.NoLooserOnRight | parser.py:189-198 | in a ranked tree the right operand of an operator is never an operator of the same or a looser level |
| ParserShape.FactorWithin | parser.py:146-182 | an operand tree a factor parses begins and ends with tokens it consumed, including inside parentheses |
| ParserShape.OperandWithin | parser.py:187 | the same for the operand of each level |
| ParserShape.BinOpWithin | parser.py:184-200 | the same for each level of `binOp` |
| ParserShape.LoopWithin | parser.py:189-198 | folding an operand in keeps the tree's first token from the left part and its last from the right operand, all inside the consumed tokens |
| ParserShape.ExprWithin | parser.py:205-221 | an operand tree `expr` parses from `i` to `j` begins with a token of `ts[i..j]` and ends with a later or the same one |
| ParserShape.SpannedOrder | lexer.py:71-121 | in the lexer's token list a token never starts before an earlier one |
| ParserShape.ExprRangeOrdered | parser.py:24-32 | over the lexer's tokens, an operand tree that `expr` parses has the range from its first token's start to its last token's end, and that range does not run backwards |
| Lowering.Register | compiler.py:148-170 | `LETTERS[i]` succeeds exactly for an index inside `LETTERS`, and otherwise fails with that index |
| Lowering.WriteFile | compiler.py:42-46 | writing `None` fails; otherwise the file holds the text, after the objectives template exactly for `load.mcfunction` |
| Lowering.ValueText | compiler.py:68-69 | reference definition, no contract of its own: the text of a token value, with an integer in decimal and a float as its lexeme |
| Lowering.OpOf | compiler.py:114-139 | reference definition, no contract of its own: the sign, the `if`/`unless` test and the comparison flag of each operator, and empty ones otherwise |
| Lowering.Test | compiler.py:141-145 | reference definition, no contract of its own: a set `condNot` turns `unless` into `if` and anything else into `unless` |
| Lowering.Lower | compiler.py:24-27 | reference definition, no contract of its own: `visit` dispatches on the node kind; a number gives its value text, a variable `<name> MClangVars`, and a string `noVisitMethod` |
| Lowering.LowerBlock | compiler.py:48-58 | reference definition, no contract of its own: records the block, joins its statements' texts each followed by a newline, and drops the last character |
| Lowering.LowerStmts | compiler.py:52-54 | reference definition, no contract of its own: the statements' texts in order from a given index, failing on the first error or on a statement that yields no text |
| Lowering.LowerFunction | compiler.py:60-66 | reference definition, no contract of its own: records the name, lowers the body and writes its text to `<name>.mcfunction` |
| Lowering.LowerCall | compiler.py:71-87 | reference definition, no contract of its own: a call without arguments, `print` of a number, variable, operation or other argument, and no text for other calls with arguments |
| Lowering.LowerAssign | compiler.py:92-96 | reference definition, no contract of its own: an operation value is computed from `resultInner` 0 and stored from its register; any other value is set directly |
| Lowering.LowerUnary | compiler.py:98-103 | reference definition, no contract of its own: `!` sets `condNot` and lowers the operand, `-` prefixes its text, anything else yields no text |
| Lowering.LowerIf | compiler.py:105-111 | reference definition, no contract of its own: bumps `count`, writes the body to `if_<count>`, then guards a call of it with the condition's text |
| Lowering.LowerBinOp | compiler.py:113-178 | reference definition, no contract of its own: the left part, the right part and the comparison, the last newline dropped and `tempInner` popped when positive |
| Lowering.LowerLeft | compiler.py:147-154 | reference definition, no contract of its own: a number is set and a variable copied into register `tempInner`; an operation is lowered one register deeper |
| Lowering.LowerRight | compiler.py:156-167 | reference definition, no contract of its own: a number goes to register `tempInner + 1` and is combined for arithmetic; a variable is copied into `tempInner`; an operation is lowered one register deeper and combined from `resultInner` |
| Lowering.Compare | compiler.py:169-170 | reference definition, no contract of its own: the `execute` test of a comparison, only when `tempInner` is at most 0 |
| Lowering.Compile | compiler.py:10-27 | reference definition, no contract of its own: a fresh generator visiting the program |
| LoweringProps.IfFilesDistinct | compiler.py:105-107 | different counter values name different conditional files |
| LoweringProps.GrowsTrans | compiler.py:14-22 | what visits never undo is preserved across a sequence of visits |
| LoweringProps.LowerGrows | compiler.py:24-178 | no visit lowers `count`, removes a file, clears `condNot` or shortens `codeBlocks`/`functions`; every new conditional gets its file; `tempInner` never rises |
| LoweringProps.BlockGrows | compiler.py:48-58 | the same for a code block |
| LoweringProps.StmtsGrows | compiler.py:52-54 | the same for the statement loop of a code block |
| LoweringProps.FunctionGrows | compiler.py:60-66 | the same for a function declaration |
| LoweringProps.UnaryGrows | compiler.py:98-103 | the same for a unary operation |
| LoweringProps.IfGrows | compiler.py:105-111 | the same for a conditional, whose own file is written |
| LoweringProps.CallGrows | compiler.py:71-87 | the same for a call |
| LoweringProps.BinOpGrows | compiler.py:113-178 | the same for a binary operation, which ends with `tempInner` popped once |
| LoweringProps.LeftGrows | compiler.py:147-154 | the same for the left operand, which leaves `tempInner` as it was when it returns to the operator |
| LoweringProps.RightGrows | compiler.py:156-167 | the same for the right operand |
| LoweringProps.StatementsStartAtZero | compiler.py:175-176 | from scratch depth 0 every visit ends at depth 0, and a set `condNot` stays set |
| LoweringProps.IfArtifactsWritten | compiler.py:105-109 | every conditional counted during a visit has its `if_<k>.mcfunction` file |
| LoweringProps.ArithLowering | compiler.py:113-178 | given enough registers, an arithmetic tree lowers to text and changes only the two scratch counters: `tempInner` pops once, and `resultInner` advances once per nested operator |
| LoweringProps.ArithLeft | compiler.py:147-154 | the left operand of an arithmetic tree lowers and advances `resultInner` by its operator count |
| LoweringProps.LeafLeft | compiler.py:147-150 | a number or variable on the left lowers without changing the state |
| LoweringProps.ArithRight | compiler.py:156-167 | the right operand of an arithmetic tree lowers and advances `resultInner` by its operator count |
| LoweringProps.LeafRight | compiler.py:156-160 | a number or variable on the right lowers without changing the state |
| LoweringProps.BlockTextIsJoin | compiler.py:51-56 | appending each text and a newline, then dropping the last character, joins the texts with single newlines |
| LoweringProps.BlockLowering | compiler.py:48-58 | a block's text is its statements' texts, one per statement, joined with newlines |
| LoweringProps.StmtsCount | compiler.py:52-54 | the statement loop yields one text per statement |
| LoweringProps.FunctionArtifact | compiler.py:42-66 | a function returns its body's text and stores it as `<name>.mcfunction`, after the template for `load.mcfunction` |
| LoweringProps.AssignSum | compiler.py:92-95 | `x = m + n` emits: set register 0 to `m`, set register 1 to `n`, add 1 into 0, store 0 into `x`; `resultInner` is reset to 0 |
| LoweringProps.AssignNumber | compiler.py:92-95 | assigning a number literal is one `set` of the variable to that literal, with the state unchanged |
| LoweringProps.AssignAssembly | compiler.py:92-95 | assigning a binary operation lowers it from `resultInner` 0, then stores the result register into the variable |
| LoweringProps.SingleStatementBlock | compiler.py:48-58 | a block of one statement has that statement's text |
| LoweringProps.VariableOperand | compiler.py:149-161 | a variable operand is copied into register `tempInner` on either side of the operator |
| LoweringProps.BinOpFails | compiler.py:113-178 | a binary operation fails with the first error among its left part, its right part and its comparison |
| LoweringProps.EqualsInfo | compiler.py:132-135 | `==` compares with sign `=` under test `if` |
| LoweringProps.ComparisonText | compiler.py:169-173 | two operand lines and the `execute` line form newline-joined text with none trailing |
| LoweringProps.CompareVariables | compiler.py:147-173 | `p == q` at depth 0 copies both variables into register 0 and emits `execute if` (or `unless` when `condNot` is set) comparing registers 0 and 1 |
| LoweringProps.WriteIfFile | compiler.py:105-109 | a conditional's file never gets the load template |
| LoweringProps.IfAssembly | compiler.py:105-111 | a conditional writes its body's text to the next `if_<k>` file, then lowers the condition and guards a call of that file with it |
| LoweringProps.IfEquals | compiler.py:105-111 | `if p == q { x = v }` increments `count`, writes `x = v` to `if_<count>.mcfunction` and returns the comparison followed by `run function <ns>:if_<count>` |
| LoweringProps.NotIsSticky | compiler.py:98-101 | `!` lowers its operand with `condNot` set, which stays set afterwards and flips `if` and `unless` |
| LoweringProps.AssignmentResetsResult | compiler.py:92-95 | an assignment of an expression does not depend on the `resultInner` left by earlier statements |
| LoweringProps.CallLowering | compiler.py:71-87 | `f()` calls `<ns>:f`; `print` of a number or a variable is a `tellraw` after an empty line; another call with arguments returns nothing, which a block rejects |
| LoweringProps.StringHasNoVisit | compiler.py:24-40 | a string node has no visit method |
| Compiler.TerminatedSnoc | compiler.py:52-54 | one more `code += text + "\n"` adds one more newline-terminated text |
| Compiler.Compiler.constructor | compiler.py:10-22 | counters zero, `condNot` false, empty lists and no files |
| Compiler.Compiler.Visit | compiler.py:24-27 | returns the text and leaves the state of `Lowering.Lower`, or fails with its error |
| Compiler.Compiler.WriteFile | compiler.py:42-46 | the files are those of `Lowering.WriteFile`, or it fails with its error |
| Compiler.Compiler.VisitCodeBlock | compiler.py:48-58 | agrees with `Lowering.Lower`; the loop keeps `code` equal to the terminated texts so far, and the rest equal to `Lowering.LowerStmts` |
| Compiler.Compiler.VisitFunction | compiler.py:60-66 | agrees with `Lowering.Lower` on a function declaration |
| Compiler.Compiler.VisitNumber | compiler.py:68-69 | returns the text `Lowering.Lower` gives a number, with no state change |
| Compiler.Compiler.VisitVarAccess | compiler.py:89-90 | returns the text `Lowering.Lower` gives a variable, with no state change |
| Compiler.Compiler.VisitCall | compiler.py:71-87 | agrees with `Lowering.Lower` on a call |
| Compiler.Compiler.VisitVarAssign | compiler.py:92-96 | agrees with `Lowering.Lower` on an assignment |
| Compiler.Compiler.VisitUnaryOp | compiler.py:98-103 | agrees with `Lowering.Lower` on a unary operation |
| Compiler.Compiler.VisitIf | compiler.py:105-111 | agrees with `Lowering.Lower` on a conditional |
| Compiler.Compiler.VisitBinOp | compiler.py:113-178 | agrees with `Lowering.LowerBinOp` |
| Compiler.Compiler.VisitLeft | compiler.py:147-154 | the text and state of `Lowering.LowerLeft`, or its error |
| Compiler.Compiler.VisitRight | compiler.py:156-167 | the text and state of `Lowering.LowerRight`, or its error |
| Compiler.CompileProgram | compiler.py:10-27 | a fresh generator visiting a program returns the text and leaves the files of `Lowering.Compile`, or fails with its error |

Proof helpers without a row of their own, each one unfolding of a reference definition with
its sub-results given: `LoweringProps.NestedLeft`, `LoweringProps.NestedRight`,
`LoweringProps.BinOpAssembly`, `LoweringProps.BinOpSteps`, `LoweringProps.IfSteps`,
`Compiler.BlockResult`, `Compiler.StmtsStep` and `Compiler.AfterNothing`.

## Left out

- mclang.py is not part of this model. It holds the build driver: configuration, folders, the pack format, printing and `exit()`.
- const.py and position.py are not part of this model. Their constants are parameters (`Lexing.Consts`, `Lowering.Env`). Positions follow the usual index, line and column steps.
- The file system: `writeFile` becomes an update of the `files` map, and the project folder path and `os.sep` are dropped.
- `visit` dispatches with a `match` instead of `getattr`. The message of `noVisitMethod` is reduced to the node it names.
- `findToken` is left out because nothing calls it.
- The `__repr__` methods of tokens and nodes are left out. They are only used for debug output.
- Errors.MakeError: `Error.__init__` calls `copy()` on every entry of its range (error.py:9-11), so a `None` entry raises `AttributeError` there, before the padding test of error.py:14. Ranges are therefore sequences of positions, and the `posRange[1] == None` alternative, which cannot hold, is not modelled. The copies themselves are discarded by the source, and structural values make a copy implicit.
- Lowering.ValueText: a `FLOAT` is shown as its source lexeme, not as Python's minimal float text (for example `1.50` rather than `1.5`). Floating point is not modelled.
- Parsing.BinOpLoop: a failed operand stops the parse at once. The source records the error in its `ParseResult`, then either returns it right away or crashes building a node from `None`. Both roll out the same way, but the crash is not modelled.
- Lexing.SkipComment: this carries an end-of-input guard that the source lacks. See the findings below.
- Parsing.Factor: this takes the operand of `-` from the expression's `ParseResult`. See the findings below.
- Compiler.Compiler.Visit: on an error the method promises only the error. The state, left partly updated by the source, is not stated, and neither is a file left truncated by a failed write. The same goes for the other visit methods and `Compiler.Compiler.WriteFile`.
- Python exceptions become error values: the `IndexError` of `LETTERS` and the `TypeError` of using `None` as text. The `AttributeError` of the as-written negation has no error value; it appears only in `ParserProps.NegationAsWritten`, and the parser itself uses the corrected negation.
- Parsing.Factor: `Token` defines no `STRING` kind (lexer.py:5-28), so as written `token.matches(Token.STRING)` (parser.py:156) raises `AttributeError` for every factor that is not a number: `x = y`, `x = (1)`, `x = -1` and `if a == b { }` all raise. The model instead compares with a `STRING` kind the lexer never emits, so that branch never fires and the later branches are reached.
- Parsing.Args: likewise `Token.COMMA` (parser.py:307) does not exist, so as written every builtin call with an argument, such as `print(1)`, raises `AttributeError`. The model compares with a `COMMA` kind the lexer never emits, so a second argument always fails with `Expected , or )`.
- Parsing.BinOp: precedence and grouping are proved for every input without `(` (`ParserShape.BinOpRanked`). The tree keeps no trace of parentheses, so with them the shape is not stated.
- Parsing.Expr: the same holds for whole expressions (`ParserShape.ExprRanked`); only `ParserShape.ExprWithin` covers parenthesised input.
- ParserProps.ChainFoldsLeft: the exact left-deep tree is stated only for chains of leaves. For other operands, `ParserShape.BinOpRanked` states the left grouping but not the exact tree.
- ParserShape.ExprRangeOrdered: only operand trees are covered. A unary node ranges from its operand's start to its operator's end (parser.py:51), which runs backwards, and a code block's range holds its statements' ranges rather than positions (parser.py:61), so the containment of ranges is not stated for those nodes.
- Errors.Render: only errors whose first position names an existing line of its text are rendered (`Errors.Renderable`); on others `split("\n")[ln]` raises `IndexError`, which is not modelled. That every error the lexer and parser build is renderable is not stated.

## Findings

| source | as written | input that shows it | evidently intended | confidence | as-written member | corrected member |
|---|---|---|---|---|---|---|
| lexer.py:105-107 | the comment loop runs `while self.currentChar != "\n"` with no end-of-input test; past the end `currentChar` stays `None` and the loop never stops | a program whose last line is a comment with no newline after it, e.g. `x = 1 # done` | stop at the end of the text as well | high, not executed | LexerProps.TrailingCommentHangs | LexerProps.TrailingCommentEnds |
| parser.py:159-161 | `UnaryOpNode(self.expr(), token)` passes the whole `ParseResult`, which has no `posRange`, so the constructor raises `AttributeError`; as written `x = -1` already raises one line earlier at `Token.STRING` (parser.py:156), so this defect shows only once that line is repaired | `x = -1` | pass `expr.node` after checking `expr.error`, as `compExpr` does for `!` | high, not executed | ParserProps.NegationRaises | ParserProps.NegationParses |
