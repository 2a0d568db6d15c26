# rxl formula engine, modelled in Dafny

rxl reads a small spreadsheet. The sheet is text: one line per row, with `|` between the cells. A cell is one of three things:

- empty;
- a number written with decimal digits;
- a formula that starts with `=`.

A formula is arithmetic over numbers and cell references such as `b3`. A column is given by its letters and a row by its 1-based number. The engine holds the cells in a flat row-major grid, evaluates each formula on demand and stores the result in the cell. References are evaluated recursively, and a reference cycle is reported as an error instead of looping forever.

The project models the core of that engine, layer by layer:

- **Tokens** (`tokens.dfy`) holds the token vocabulary and `TryFrom<char>`.
- **Lexer** (`lexer.dfy`) is the tokenizer.
  - The class `Lexer.Tokenizer` keeps the unread input in its `source` field and consumes it step by step, as `src/tokenizer.rs` does.
  - Each method is proved to agree with a pure function of the input: `LexNumber`, `LexCellPosition`, `LexCellReference`, `LexLiteral`, `LexNext` and `Lex`.
  - `LexerProperties` (`lexer_props.dfy`) proves facts about those functions. Column letters and column numbers are inverse to each other. Reference texts, range texts, the `sum` keyword and decimals lex to the expected tokens, and the file's own tokenizer examples are reproduced.
- **Ast** (`ast.dfy`) holds the expression tree and `Expr::eval`.
  - The caller's cell lookup is a function parameter.
  - `Lookups` records, in order, which cells one evaluation looks up. The locality lemma `EvalLocal` says evaluation depends on the lookup at those cells only, and the table proof rests on it.
- **Parsing** (`parser_spec.dfy`, `parser.dfy`) is the recursive-descent parser.
  - The class `Parsing.Parser` keeps the current token, the previous token and the undelivered items. Each method is proved to leave the parser in the state that the function of the same name in `ParserSpec` computes.
  - The flag `calls` selects between the two parsers of the repository:
    - `true` is `src/parser.rs`, with a call level; its primary also accepts `sum` and ranges;
    - `false` is the copy in `src/ast.rs`, with no call level; its primary accepts only numbers and references.
  - `ParserProperties` (`parser_props.dfy`) proves four kinds of fact:
    - precedence and left associativity;
    - unary nesting;
    - argument lists and the repository's own parser examples;
    - error propagation.
- **Cells** (`cell.dfy`) is `Cell::new_expr`.
  - It turns one field of the sheet into an empty cell, a number cell or a formula cell, or into the error that building the cell produced.
  - `src/cell.rs` imports the parser of `src/ast.rs`, so formulas are parsed without the call level. `sum(...)` therefore cannot appear in a cell.
- **Grids** (`grid.dfy`) is `Grid<T>`: a flat vector indexed by `cols * row + col`.
- **TableSpec** and **Tables** (`table_spec.dfy`, `table.dfy`) are the table itself.
  - `TableSpec.Outcome` defines the value of a cell as a pure function of the grid's slots and the call chain: the cells currently being evaluated.
  - The class `Tables.Table` holds the grid. Its methods `EvaluateCell`, `EvaluateExpr` and `EvalExpr` call each other as `evaluate_cell` and the closure it hands to `Expr::evaluate` do.
  - Those three methods are proved to return the value `Outcome` gives on the grid they are called on, and the same value on the grid they leave behind. They change the grid only by storing a result in a formula that had none (`Evolves`), and they leave every cell of the chain alone (`Frozen`).
  - When an evaluation produces a value, the results it stored on the way are `Sound`: each is a value, the one `Outcome` gives that cell on the starting grid with the still-pending formulas on the chain. So such an evaluation has changed the value of no cell a later operand can reach (`SoundAgrees`), and there the memoisation is invisible.
  - An evaluation that ends in an error is not covered by this. The errors it stores can depend on the chain they were found under, so a later call can return a different error than the starting grid gives (`TableProperties.StoredCycleError`).
  - `Run` evaluates the sheet column by column. It is proved to leave no formula without a result.
  - `TableProperties` (`table_props.dfy`) proves facts about `Outcome` on the grid a call starts from, which is what `EvaluateCell` returns:
    - a self-reference is a recursion error, and so is a two-cell cycle;
    - a cell referenced twice is evaluated twice, each time with its own chain;
    - empty and broken cells give errors;
    - the two-by-two sheet `1|2` / `=a1+a2|=b1+3` gets its values.

Numbers are `real`. Character classes are ASCII.

## Where the model follows the code

- **Coordinates are transposed.**
  - The lexer returns a reference as `(column, row)`. `Expr::eval` passes that pair to the lookup unchanged.
  - The lookup that `src/table.rs` builds takes its two arguments as `(row, col)` of `evaluate_cell`. So the reference `b1`, which is column 1 and row 0, reads the grid at row 1, column 0.
  - The model keeps this:
    - `TableSpec.CellLookup` passes the pair on in the same order;
    - `Ast.RefsWithin(e, rows, cols)` bounds a reference's column component by the row count;
    - on the sheet above, `TableProperties.SheetValues` proves `=b1+3` evaluates to 6, where reading `b1` as column b, row 1 would give 5.
- **The grid is row-major.** It is addressed as `cols * row + col`, and `new_interpet` pushes the cells row after row.
- **A range is kept as written.** It runs from the first corner to one past the second, without ordering the two corners.
- **Formula cells use the restricted parser of `src/ast.rs`**, not the one in `src/parser.rs`.

## Model

| member | source | states |
|---|---|---|
| Tokens.FromChar | src/tokenizer.rs:39-56 | exactly the seven characters `+-/*(),` give a token, and that token is the punctuation written as that character; any other character gives `InvalidCell("Unknown character encountered: c")` |
| Tokens.FromSymbol | src/tokenizer.rs:39-56 | every punctuation token is recovered from its character |
| Lexer.Span | src/tokenizer.rs:71-80 | the count is the longest prefix satisfying the predicate: every counted character satisfies it, and the next one, if any, does not |
| Lexer.SpanIs | src/tokenizer.rs:71-80 | any prefix length with that property is the span: the count is unique |
| Lexer.LetterValue | src/tokenizer.rs:147-151 | a letter of either case weighs 1 to 26; a non-letter is skipped, which counts as 0 |
| Lexer.ColumnNumber | src/tokenizer.rs:145-152 | a column ending in a letter is numbered from 1 |
| Lexer.LexNumber | src/tokenizer.rs:122-137 | lexing a number never grows the input, and consumes at least one character when the input starts with a digit |
| Lexer.LexCellPosition | src/tokenizer.rs:139-171 | same bound; a reference that starts with a letter always consumes input |
| Lexer.LexCellReference | src/tokenizer.rs:173-196 | same bound for a reference or a range |
| Lexer.LexLiteral | src/tokenizer.rs:198-211 | same bound for a keyword or a reference |
| Lexer.LexNext | src/tokenizer.rs:213-230 | no token exactly when the input is all whitespace; every token or error consumes input |
| Lexer.Tokenizer.constructor | src/tokenizer.rs:63-65 | the tokenizer starts on the whole input |
| Lexer.Tokenizer.AtEnd | src/tokenizer.rs:67-69 | true exactly when no input is left |
| Lexer.Tokenizer.PeekWhile | src/tokenizer.rs:71-80 | the loop counts exactly the span of the predicate |
| Lexer.Tokenizer.Chop | src/tokenizer.rs:101-105 | returns the first `n` characters and leaves the rest |
| Lexer.Tokenizer.ChopWhile | src/tokenizer.rs:82-88 | returns the span and leaves what follows it |
| Lexer.Tokenizer.ChopWhileOrElse | src/tokenizer.rs:90-99 | an empty span is the given error and consumes nothing; otherwise as `ChopWhile` |
| Lexer.Tokenizer.StripLeft | src/tokenizer.rs:107-109 | leading whitespace is removed |
| Lexer.Tokenizer.PeekMatch | src/tokenizer.rs:111-120 | true exactly when input is left and its first character satisfies the predicate |
| Lexer.Tokenizer.Number | src/tokenizer.rs:122-137 | token and remaining input are those of `LexNumber` on the input before the call |
| Lexer.Tokenizer.ParseCellReference | src/tokenizer.rs:139-171 | result and remaining input are those of `LexCellPosition`, with the error cases and what each leaves consumed |
| Lexer.Tokenizer.DecodeColumn | src/tokenizer.rs:145-152 | the power-of-26 loop over the reversed letters computes `ColumnNumber` |
| Lexer.Tokenizer.CellReference | src/tokenizer.rs:173-196 | result and remaining input are those of `LexCellReference` |
| Lexer.Tokenizer.Literal | src/tokenizer.rs:198-211 | result and remaining input are those of `LexLiteral` |
| Lexer.Tokenizer.NextToken | src/tokenizer.rs:213-230 | result and remaining input are those of `LexNext` |
| Lexer.Tokenizer.Collect | src/tokenizer.rs:233-238 | draining the iterator yields exactly `Lex` of the starting input |
| Lexer.ColumnNumberPrepend | src/tokenizer.rs:145-152 | a letter in front of a column adds its weight times 26 to the power of the letters after it |
| LexerProperties.ColumnNumberOfLetters | src/tokenizer.rs:145-152 | decoding the lower-case letters of any column number gives that number back |
| LexerProperties.LettersOfColumnNumber | src/tokenizer.rs:145-152 | encoding the decoded number of any run of letters gives the lower-cased run back |
| LexerProperties.ColumnNumberInjective | src/tokenizer.rs:145-152 | two letter runs name the same column only if they agree up to case |
| LexerProperties.ColumnExamples | src/tokenizer.rs:145-152 | `a` is column 0, `z` is 25, and `aa` and `AA` are 26 |
| LexerProperties.DigitsValueOfDigits | src/tokenizer.rs:159-163 | the digits of a natural number parse back to it |
| LexerProperties.ZerosValue | src/tokenizer.rs:159-169 | a run of zeros has value 0, the row number the source rejects |
| LexerProperties.SpanAppend | src/tokenizer.rs:71-80 | a prefix that satisfies the predicate adds its length to the span of the rest |
| LexerProperties.SpanStop | src/tokenizer.rs:71-80 | the span stops at the first character that fails the predicate |
| LexerProperties.CellPositionOfRuns | src/tokenizer.rs:139-171 | letters for column `c+1` followed by digits for row `r+1` give `(c, r)` and stop before a non-digit |
| LexerProperties.CellPositionOfRefText | src/tokenizer.rs:139-171 | the written form of every `(col, row)` lexes back to it |
| LexerProperties.LexRefText | src/tokenizer.rs:213-230 | the written form of every reference, except one that spells `sum`, is one `CellRef` token |
| Lexer.RangeOk | src/tokenizer.rs:173-196 | two positions joined by `:` make the range from the first corner to one past the second |
| Lexer.RangeError | src/tokenizer.rs:183-188 | a second corner that does not decode makes the whole range the error "Invalid cell range" |
| LexerProperties.RangeOfRefTexts | src/tokenizer.rs:173-196 | the written form of every range lexes to that range |
| LexerProperties.LexRangeText | src/tokenizer.rs:213-230 | the same, for the whole next token |
| LexerProperties.BadSecondCorner | src/tokenizer.rs:182-184 | a bad second corner is `Invalid cell range`, whatever its own error |
| LexerProperties.CellPositionErrors | src/tokenizer.rs:139-171 | row zero, a missing row and a missing column are each `Could not parse cell reference` |
| LexerProperties.LexSumKeyword | src/tokenizer.rs:198-211 | `sum` in any case, not followed by a letter, is the `Sum` token |
| LexerProperties.ColumnStartsReference | src/tokenizer.rs:198-211 | a run of column letters other than `sum`, ended by a non-letter, is read again as a cell reference: the next token is exactly what `cell_reference` gives |
| LexerProperties.LexNextSkipsWhitespace | src/tokenizer.rs:213-217 | leading whitespace does not change the next token |
| LexerProperties.LexNextOfStripped | src/tokenizer.rs:213-217 | the next token of the input is the next token of the input with its leading whitespace removed |
| LexerProperties.LexSkipsWhitespace | src/tokenizer.rs:233-238 | leading whitespace does not change the token stream |
| LexerProperties.LexSingleCharacter | src/tokenizer.rs:219-227 | a character that is not a letter, a digit or whitespace is one `TryFrom<char>` result and consumes one character |
| LexerProperties.LexedNumbersParse | src/tokenizer.rs:122-137 | a number the lexer reads never fails to convert |
| LexerProperties.LexDecimalDigits | src/tokenizer.rs:122-137 | the digits of `n` lex to `Number(n)` |
| LexerProperties.LexNextDigits | src/tokenizer.rs:122-137 | the digits of `n` followed by anything but a digit or `.` are the next token `Number(n)`, and the rest is left unread |
| LexerProperties.LexIsShort | src/tokenizer.rs:233-238 | there are never more tokens than characters |
| LexerProperties.LexSingle | src/tokenizer.rs:233-238 | a token that consumes all the input is the whole stream |
| LexerProperties.LexTwo | src/tokenizer.rs:233-238 | two tokens in a row, the second ending the input, make the stream exactly `[t1, t2]` |
| LexerProperties.LexThree | src/tokenizer.rs:233-238 | three tokens in a row, each starting where the previous one stopped and the third ending the input, make the stream exactly `[t1, t2, t3]` |
| LexerProperties.LexExampleReference | src/tokenizer.rs:257-263 | ` aa12` is the one token `CellRef(26, 11)` |
| LexerProperties.LexNextColumnRange | src/tokenizer.rs:173-196 | `a1:a5` is the range columns 0..1, rows 0..5 |
| LexerProperties.LexExampleColumnRange | src/tokenizer.rs:282-292 | `  a1:a5` is one token, that range |
| LexerProperties.LexExampleBlockRange | src/tokenizer.rs:295-315 | `a1:b22` is the range columns 0..2, rows 0..22 |
| LexerProperties.LexExampleDecimal | src/tokenizer.rs:248-254 | ` 1.2` is the one token `Number(1.2)` |
| LexerProperties.SumShadowsColumn | src/tokenizer.rs:198-211 | `sum1` is the keyword then the number 1, not a reference to column `sum` |
| LexerProperties.LexNextSum | src/tokenizer.rs:198-211 | `sum` followed by anything but a letter is the next token `Sum`, and the rest is left unread |
| LexerProperties.LexNextBlankSum | src/tokenizer.rs:198-217 | the same after leading whitespace |
| LexerProperties.LexNextPunctuation | src/tokenizer.rs:39-56 | the character of a punctuation token is that token, and only that character is consumed |
| LexerProperties.LexNextRefAfter | src/tokenizer.rs:213-230 | after leading whitespace, the written form of a reference that nothing continues is one `CellRef` token |
| LexerProperties.LexConsTwo | src/tokenizer.rs:233-238 | two tokens in a row are the first two items of the stream, followed by the stream of what is left |
| LexerProperties.LexSumParen | src/tokenizer.rs:198-227 | after leading whitespace, `sum(` is `Sum` then `LeftParen`, followed by the tokens of the rest |
| LexerProperties.LexCloseAddRef | src/tokenizer.rs:213-230 | `)+` and a reference are `RightParen`, `Plus` and that `CellRef`, and nothing more |
| LexerProperties.LexSumRangePlus | src/tokenizer.rs:213-238 | after whitespace, `sum(`, a range, `)+` and a reference are the six tokens `Sum`, `LeftParen`, the range, `RightParen`, `Plus`, the reference |
| LexerProperties.LexValuesPlus | src/tokenizer.rs:213-238 | a reference, a comma, blanks, a reference, `)+` and a reference are the six tokens in that order |
| LexerProperties.LexSumValuesPlus | src/tokenizer.rs:213-238 | after whitespace, `sum(` and the arguments above are the eight tokens `Sum`, `LeftParen`, reference, `Comma`, reference, `RightParen`, `Plus`, reference |
| LexerProperties.LexCellOpCell | src/tokenizer.rs:265-279 | `  a1 op b3` is `CellRef(0, 0)`, the operator's token and `CellRef(1, 2)`, for each of `+`, `-`, `/` and `*` |
| LexerProperties.LexExampleSumRange | src/tokenizer.rs:294-315 | `  sum(a1:b22)+c3` is `Sum`, `LeftParen`, the range columns 0..2 and rows 0..22, `RightParen`, `Plus`, `CellRef(2, 2)` |
| LexerProperties.LexExampleSumValues | src/tokenizer.rs:317-340 | `  sum(a1, b22)+c3` is `Sum`, `LeftParen`, `CellRef(0, 0)`, `Comma`, `CellRef(1, 21)`, `RightParen`, `Plus`, `CellRef(2, 2)` |
| Ast.Apply | src/ast.rs:62-70 | the four operators compute sum, difference, product and quotient; any other token is an error; division by zero is an error |
| Ast.Eval | src/ast.rs:48-91 | every error is one evaluation raises itself (division by zero, a bad operator or literal, a call) or one the lookup returned for a reference written in the formula. Its partners: `EvalLocal` (the value depends on the looked-up cells only), `LookupsInRefs`, `LookupsSucceed`, and, for parsed formulas, `ParsedFormulaErrors` and `ParseThenEvaluate` |
| Ast.Evaluate | src/ast.rs:94-100 | a formula evaluates to exactly one result, the value of `Eval` |
| Ast.LookupsInRefs | src/ast.rs:73-79 | evaluation looks up only references written in the formula |
| Ast.EvalLocal | src/ast.rs:48-91 | two lookups that agree on the looked-up cells give the same value and the same lookups |
| Ast.LookupsWithin | src/ast.rs:73-79 | a formula whose references are in bounds looks up only cells in bounds |
| Ast.LookupsSucceed | src/ast.rs:48-91 | a value comes out only when every lookup made on the way returned a value |
| Ast.LookupFree | src/ast.rs:48-91 | a formula that looks nothing up has the same value under every lookup |
| ParserSpec.Advance | src/parser.rs:156-164 | the current token becomes the previous one, one item is consumed, and a lexer error is returned with the current token unchanged |
| ParserSpec.AdvanceMatch | src/parser.rs:130-141 | advances exactly when the current token matches, and reports whether it did; a non-match changes nothing |
| ParserSpec.ConsumeOr | src/parser.rs:143-154 | a non-match is the given error and changes nothing; a match advances |
| ParserSpec.GetPrevious | src/parser.rs:22-28 | the previous token, or an error if there is none |
| ParserSpec.ParseAst | src/parser.rs:30-33 | the tree it builds is well formed for its grammar |
| ParserSpec.Parse | src/parser.rs:30-33 | a fresh parser's tree is well formed: arithmetic operators, unary minus, accepted literals, calls only with the call level |
| ParserSpec.ParseExpression | src/parser.rs:35-37 | never un-consumes input; builds a well-formed tree |
| ParserSpec.ParseTerm | src/parser.rs:39-52 | never un-consumes input; builds a well-formed tree |
| ParserSpec.ParseTermTail | src/parser.rs:42-51 | extending a well-formed tree with `+`/`-` operands keeps it well formed |
| ParserSpec.ParseFactor | src/parser.rs:54-66 | never un-consumes input; builds a well-formed tree |
| ParserSpec.ParseFactorTail | src/parser.rs:58-65 | extending a well-formed tree with `*`/`/` operands keeps it well formed |
| ParserSpec.ParseUnary | src/parser.rs:68-77 | never un-consumes input; builds a well-formed tree |
| ParserSpec.ParseCall | src/parser.rs:79-86 | never un-consumes input; builds a well-formed tree |
| ParserSpec.ParseCallTail | src/parser.rs:82-85 | applying argument lists to a well-formed callee keeps it well formed |
| ParserSpec.GenerateCall | src/parser.rs:88-104 | builds a call on the given callee, well formed when the callee is |
| ParserSpec.ParseArguments | src/parser.rs:92-97 | adds at least one argument after those already parsed, and keeps them all well formed |
| ParserSpec.ParsePrimary | src/parser.rs:106-128 | never un-consumes input; builds a well-formed tree |
| Parsing.Parser.constructor | src/parser.rs:14-20 | a new parser has no current or previous token and all items unread |
| Parsing.Parser.Advance | src/parser.rs:156-164 | the new state and result are those of `ParserSpec.Advance` |
| Parsing.Parser.AdvanceMatch | src/parser.rs:130-141 | the new state and result are those of `ParserSpec.AdvanceMatch` |
| Parsing.Parser.ConsumeOr | src/parser.rs:143-154 | the new state and result are those of `ParserSpec.ConsumeOr` |
| Parsing.Parser.GetPreviousToken | src/parser.rs:22-28 | the result is `GetPrevious` of the state, which is unchanged |
| Parsing.Parser.Ast | src/parser.rs:30-33 | the new state and result are those of `ParseAst` |
| Parsing.Parser.Expression | src/parser.rs:35-37 | the new state and result are those of `ParseExpression` |
| Parsing.Parser.Term | src/parser.rs:39-52 | the loop ends in the state and with the tree `ParseTerm` gives |
| Parsing.Parser.Factor | src/parser.rs:54-66 | the loop ends in the state and with the tree `ParseFactor` gives |
| Parsing.Parser.Unary | src/parser.rs:68-77 | the new state and result are those of `ParseUnary` |
| Parsing.Parser.Call | src/parser.rs:79-86 | the loop ends in the state and with the tree `ParseCall` gives |
| Parsing.Parser.GenerateCall | src/parser.rs:88-104 | the argument loop ends in the state and with the call `GenerateCall` gives |
| Parsing.Parser.Primary | src/parser.rs:106-128 | the new state and result are those of `ParsePrimary` |
| ParserProperties.ParseStarts | src/parser.rs:30-33 | parsing begins by pulling the first item, then parses one expression |
| ParserProperties.LiteralUnary | src/parser.rs:106-113 | a literal the primary accepts, not followed by `(`, is a one-token unary |
| ParserProperties.LiteralFactor | src/parser.rs:54-66 | such a literal not followed by `*` or `/` is a whole factor |
| ParserProperties.ExpressionOfFactor | src/parser.rs:39-52 | a factor not followed by `+` or `-` is the whole expression |
| ParserProperties.FactorOfUnary | src/parser.rs:54-66 | a unary not followed by `*` or `/` is the whole factor |
| ParserProperties.LiteralExpression | src/parser.rs:35-52 | a lone literal is the whole expression |
| ParserProperties.ChainStep | src/parser.rs:156-164 | two advances move along an operator/operand chain by one pair |
| ParserProperties.FactorTailChain | src/parser.rs:58-65 | a chain of `*`/`/` operands nests to the left and consumes the whole chain |
| ParserProperties.FactorTailStep | src/parser.rs:58-65 | at `*` or `/` the factor loop parses one unary after the operator; an error there is the result, otherwise the loop goes on with the binary node |
| ParserProperties.FactorTailStop | src/parser.rs:58-65 | at the end or at any token but `*`/`/` the factor loop returns its expression and leaves the parser unchanged |
| ParserProperties.TermTailChain | src/parser.rs:42-51 | a chain of `+`/`-` operands nests to the left |
| ParserProperties.TermTailStep | src/parser.rs:42-51 | at `+` or `-` the term loop parses one factor after the operator; an error there is the result, otherwise the loop goes on with the binary node |
| ParserProperties.TermTailStop | src/parser.rs:42-51 | at the end or at any token but `+`/`-` the term loop returns its expression and leaves the parser unchanged |
| ParserProperties.ParseAdditiveChain | src/parser.rs:39-52 | every `x op y op z ...` with additive operators parses left-associatively |
| ParserProperties.ParseMultiplicativeChain | src/parser.rs:54-66 | every `x op y op z ...` with multiplicative operators parses left-associatively |
| ParserProperties.ParseSimpleOperation | src/parser.rs:198-222 | `x op y`, for each operator and each accepted pair of literals, is `Binary(x, op, y)` under both grammars |
| ParserProperties.Precedence | src/parser.rs:39-66 | `*` and `/` bind tighter than `+` and `-`, whichever comes first |
| ParserProperties.AddThenMultiply | src/parser.rs:39-66 | `a + b * c` is `a + (b * c)` |
| ParserProperties.MultiplyThenAdd | src/parser.rs:39-66 | `a * b + c` is `(a * b) + c` |
| ParserProperties.UnaryLevels | src/parser.rs:68-77 | `-` takes a nested unary operand; anything else goes to the call level, or to the primary without it |
| ParserProperties.UnaryErrorAborts | src/parser.rs:39-66 | an error in the first unary is the error of the whole expression |
| ParserProperties.PrimaryErrorAborts | src/parser.rs:68-77 | an error in the primary is the error of the unary |
| ParserProperties.ParseNegations | src/parser.rs:68-77 | `- - x` nests its negations; `- x * y` negates `x` only |
| ParserProperties.DoubleNegation | src/parser.rs:68-77 | `- - x` is `-(-x)` |
| ParserProperties.NegatedProduct | src/parser.rs:54-77 | `- x * y` is `(-x) * y` |
| ParserProperties.LastArgument | src/parser.rs:92-97 | an argument not followed by `,` ends the list |
| ParserProperties.MoreArguments | src/parser.rs:92-97 | an argument followed by `,` continues the list after the comma |
| ParserProperties.SumCallLevel | src/parser.rs:79-104 | `sum (args)` at the unary level is one call of `sum` on those arguments |
| ParserProperties.ParseSumCall | src/parser.rs:106-113 | for a number, reference or range `x`, `sum(x)` is a call with the call level and `Invalid primary expression token` without it |
| ParserProperties.SumCallAccepted | src/parser.rs:79-113 | with the call level, `sum(x)` for a number, reference or range `x` is the call of `sum` on `[x]` |
| ParserProperties.SumCallRejected | src/ast.rs:175-196 | without the call level, any `sum(x)` is `Invalid primary expression token`, whatever `x` is |
| ParserProperties.MissingCallParen | src/parser.rs:98-101 | for a number, reference or range `x`, `sum(x` without `)` is `Expect ')' after arguments` |
| ParserProperties.InnerSum | src/parser.rs:224-260 | the inner `sum(a1:e2)` of the nested-sum example is one call |
| ParserProperties.OuterFirstArgument | src/parser.rs:224-260 | `a1,` is the outer call's first argument |
| ParserProperties.OuterSecondArgument | src/parser.rs:224-260 | the inner call is the outer call's second and last argument |
| ParserProperties.ParseSumOfSums | src/parser.rs:224-260 | `sum(a1, sum(a1:e2))` parses to the nested call of the example |
| ParserProperties.InvalidFirstToken | src/parser.rs:122-127 | a first token that no level accepts, or no token at all, is `Invalid primary expression token` |
| ParserProperties.UnclosedGrouping | src/parser.rs:114-121 | `(x` without `)` is `Expected ')' after expression` |
| ParserProperties.LexerErrorAborts | src/parser.rs:156-164 | a lexer error in the first or second item is the parse error |
| ParserProperties.TrailingInputIgnored | src/parser.rs:30-33 | tokens after a complete expression are left unread, so `x y` parses as `x` |
| ParserProperties.ParsedFormulaErrors | src/ast.rs:48-91 | a tree from the restricted parser fails only by division by zero or by passing on a looked-up cell's error |
| ParserProperties.ParseThenEvaluate | src/ast.rs:264-288 | `a op b` parses under the restricted grammar and evaluates to `op` applied to `a` and `b` |
| Cells.ParseFormula | src/cell.rs:91-95 | a formula parses exactly when the restricted parser accepts the lexed text; the result is an unevaluated, well-formed formula |
| Cells.ParseNumber | src/cell.rs:97-101 | a number cell exactly when the whole text is a decimal, with its value; otherwise `Could not format t as a valid number` |
| Cells.NewCell | src/cell.rs:42-57 | the source is kept; empty exactly for empty text; `=` is a formula, an error exactly when parsing fails; a digit is a number of the text's value; any other first character is `UnimplementedCellKind` |
| Cells.DisplayRoundTrip | src/cell.rs:85-89 | displaying a built cell gives back its text |
| Cells.FormulaIsRestricted | src/cell.rs:91-95 | a formula cell holds a well-formed tree with no call |
| Cells.NumberCell | src/cell.rs:97-101 | the digits of every natural number make a number cell of that value |
| Cells.FormulaExample | src/cell.rs:42-57 | `=1+2` is the unevaluated formula `1 + 2`, which evaluates to 3 |
| Cells.FormulaCannotCall | src/cell.rs:91-95 | `=sum...` is `Invalid primary expression token` |
| Grids.Grid.constructor | src/grid.rs:16-24 | the grid stores the shape and vector it is given |
| Grids.Grid.Get | src/grid.rs:26-31 | reads the slot at `cols * row + col` |
| Grids.Grid.Set | src/grid.rs:33-37 | writes exactly that slot and changes nothing else |
| Grids.IndexInBounds | src/grid.rs:26-31 | a pair inside the shape lands inside the vector |
| Grids.IndexInjective | src/grid.rs:26-31 | inside the column count, two pairs share a slot exactly when they are equal |
| Grids.IndexOnto | src/grid.rs:26-31 | every slot of a well-shaped vector is the pair (quotient, remainder) |
| Grids.ColumnAliases | src/grid.rs:28-30 | a column past the column count is not rejected; it reaches a slot of the next row |
| Grids.ReadAfterWrite | src/grid.rs:33-37 | after a write, the written pair reads the new value and every other pair reads its old value |
| TableSpec.Single | src/table.rs:71-74 | exactly one result is that result; any other number is `MultipleCellReturn` |
| TableSpec.Cached | src/table.rs:75-81 | storing a result keeps the cell's source and tree |
| TableSpec.EvolvesReflexive | src/table.rs:52-87 | leaving the grid alone is an evolution |
| TableSpec.EvolvesTransitive | src/table.rs:52-87 | two evolutions in a row are one |
| TableSpec.EvolvesWellReferenced | src/table.rs:75-81 | storing results keeps every formula's references inside the grid |
| TableSpec.SettledStable | src/table.rs:58-65 | a cell in the chain, or one that is not an unevaluated formula, keeps its value and stays settled however the grid evolves |
| TableSpec.SettledSameSlot | src/table.rs:58-65 | a settled cell's value depends on its own slot alone |
| TableSpec.EvalStable | src/table.rs:68-70 | a formula whose looked-up cells are settled keeps its value and lookups as the grid evolves |
| TableSpec.CachingEvolves | src/table.rs:75-81 | storing a result in a formula that had none is an evolution |
| TableSpec.ChainGrows | src/table.rs:57-59 | putting a cell of the grid that is not yet on the chain onto it leaves fewer cells to evaluate |
| TableSpec.ValueShrinkChain | src/table.rs:57-69 | a cell that has a value under some chain has the same value under any smaller chain: a value is reached without meeting a cell of the chain |
| TableSpec.PendingEvolves | src/table.rs:75-81 | storing results only removes formulas from the pending ones |
| TableSpec.SettledAnyChain | src/table.rs:57-65 | a settled cell has the same value under any chain that adds only pending formulas |
| TableSpec.SoundAgrees | src/table.rs:52-87 | in a grid soundly evolved from another, every cell has the value it had, under the chain and any pending formulas added to it |
| TableSpec.SoundReflexive | src/table.rs:52-87 | a grid that stored nothing new is sound |
| TableSpec.SoundCompose | src/table.rs:66-70 | two sound evolutions under the same chain, as for two operands evaluated one after the other, make a sound evolution |
| TableSpec.CachedValue | src/table.rs:66-81 | the value stored for a formula, evaluated with its cell on the chain once every cell it looked up is settled, is its `Outcome` under any chain that adds only pending formulas |
| TableSpec.CachingSound | src/table.rs:66-81 | storing that value keeps the evolution sound for the chain without the cell, so the value `evaluate_cell` returns is the one the grid it was called on determines |
| Tables.RowCells | src/table.rs:29-33 | one cell per field, each built by `NewCell` |
| Tables.FlattenShape | src/table.rs:22-48 | a uniform sheet gives `rows * cols` cells, and field `c` of row `r` sits at grid position `(r, c)` |
| Tables.SoundEval | src/table.rs:66-70 | after a sound evolution a formula evaluates as it did before it, so the right operand sees the cells as the left operand found them |
| Tables.Table.constructor | src/table.rs:44-46 | the table holds the grid it is given |
| Tables.Table.NewInterpret | src/table.rs:22-48 | no rows is `EmptyTable`; a row whose width differs from the first is `MismatchedColumns`; otherwise a new table of the flattened cells, in shape |
| Tables.Table.EvaluateCell | src/table.rs:52-87 | returns the `Outcome` of the cell in the grid it is called on, and the same value in the grid it leaves behind. A cell already in the chain, or one that is not an unevaluated formula, leaves the grid unchanged. Otherwise exactly the single result of evaluating the formula, with the cell added to the chain, is stored. The grid only evolves, the chain's cells are untouched, the cell is settled afterwards, and after a value every result stored on the way is `Sound` |
| Tables.Table.EvaluateExpr | src/table.rs:68-70 | returns `Evaluate` of the formula with the table's lookup on the grid it is called on, and equally on the resulting grid; after a value the stored results are `Sound`; the same frame guarantees |
| Tables.Table.EvalExpr | src/ast.rs:48-91 | walking a formula with the table's lookup returns `Eval` on the grid it is called on, and equally on the resulting grid; after a value the stored results are `Sound`; every cell it looked up is settled |
| Tables.Table.RunCell | src/table.rs:92-111 | afterwards the cell is not an unevaluated formula. A cell that was not one is untouched. An unevaluated formula stores the single result of evaluating it, with an empty chain, in the grid as it was before the call; one that does not name its own cell stores the same result computed on the grid left behind |
| Tables.Table.Run | src/table.rs:89-115 | the grid only evolves, its references stay in bounds, and afterwards no formula lacks a result |
| TableProperties.OutcomeOfFormula | src/table.rs:66-83 | an unevaluated formula outside the chain has the value of its tree, with the cell added to the chain |
| TableProperties.OutcomeOfValue | src/table.rs:62-65 | a build error, an empty cell, a number and a stored result each give their own value or error |
| TableProperties.SelfReference | src/table.rs:58-60 | a formula that references its own cell is `RecursiveCellExpr` of that cell |
| TableProperties.MutualReference | src/table.rs:58-60 | when `x` and `y` reference each other, `evaluate_cell(x, {})`, the value `EvaluateCell` returns for `x` with an empty chain, is `RecursiveCellExpr(x)` |
| TableProperties.RunMutualReference | src/table.rs:89-111 | under `run`, which evaluates the formula of `x` with an empty chain and does not put `x` on it, `x` stores `RecursiveCellExpr(y)`, the value `RunCell` is proved to store |
| TableProperties.StoredCycleError | src/table.rs:52-87 | on a two-cell cycle `x`, `y`, the grid in which both cells store the error found at `x` gives `y` that error, while the grid before gives `RecursiveCellExpr(y)`: a stored error depends on the chain it was found under |
| TableProperties.RepeatedReference | src/table.rs:68-70 | referencing the same cell twice is not a cycle: each lookup gets its own chain, so `y + y` is `d + d` |
| TableProperties.ReferenceToEmpty | src/table.rs:64 | a reference to an empty cell is `EmptyCellEvaluation` |
| TableProperties.ReferenceToBadCell | src/table.rs:62 | a reference to a cell that failed to build passes that cell's error on |
| TableProperties.NewNumberCell | src/cell.rs:50 | the digits of `n` are the number cell `n` |
| TableProperties.NewSumOfReferences | src/cell.rs:42-57 | `=a1+a2` is the formula `CellRef(0,0) + CellRef(0,1)` |
| TableProperties.NewReferencePlusThree | src/cell.rs:42-57 | `=b1+3` is the formula `CellRef(1,0) + 3` |
| TableProperties.TwoByTwoLayout | src/table.rs:22-48 | the cells of a two-by-two sheet are stored row by row |
| TableProperties.SheetCells | src/table.rs:22-48 | the sheet whose rows are `1`, `2` and `=a1+a2`, `=b1+3` builds two numbers and two unevaluated formulas |
| TableProperties.SheetFormulas | src/table.rs:52-87 | in any grid laid out like that sheet (the numbers 1 and 2, then the two formulas) the formula cells evaluate to 3 and 6 |
| TableProperties.SheetSum | src/table.rs:52-87 | in that layout, `=a1+a2` at grid row 1, column 0 is 3 under any chain of pending cells that avoids it and the two numbers |
| TableProperties.SheetPlus | src/table.rs:52-87 | in that layout, `=b1+3` at grid row 1, column 1 is 6: its reference reaches the `=a1+a2` cell, which is evaluated in turn |
| TableProperties.SheetValues | src/table.rs:52-87 | the same for the sheet's own cells; 6, not 5, because of the transposed lookup |

## Left out

- Reading the sheet file and `src/main.rs` are not modelled. `new_interpet` is modelled on a sheet that is already split into lines and `|`-separated fields. `str::lines` and `str::split` are not modelled.
- The `Display` implementation of the table is not modelled: it is formatting only. `Cell::evaluate` is not modelled either: it stores its result in a local copy, so it has no observable effect.
- `BigDecimal` is modelled as exact `real`.
  - `BigDecimal::from_str` is modelled only on `digits[.digits]`. The crate's parser is not part of this model. Within a formula this loses nothing, because the lexer only ever hands it digits with at most one `.`.
- Cells.ParseNumber: accepts only `digits[.digits]`. `BigDecimal::from_str` (src/cell.rs:97-101) also accepts an exponent part, as in `1e5`, `2E3` or `1.5e-3`, and the model reports such a text as `InvalidCell`. The crate's exact grammar for exponents (sign, range) and digit separators is outside the repository.
- Cells.NewCell: inherits that difference. A number cell written with an exponent, such as `1e5`, is a number cell in the source (src/cell.rs:50) and `InvalidCell` in the model.
- Ast.Apply: division by zero panics in the `BigDecimal` library. The model returns `RuntimeError("division by zero")` instead.
- `char::is_numeric`, `is_alphabetic` and `is_whitespace` are modelled on ASCII only. Other Unicode digits, letters and spaces are not modelled.
- `usize` overflow is not modelled. A very long column name or row number overflows in the source, while the model's integers are unbounded.
- Error messages that end in a `Debug` rendering of a token are modelled without that suffix. These are `invalid token in binary expression`, `invalid token literal`, `invalid token for unary expression` and `Invalid primary expression token`.
- The `unimplemented!` panic for a cell that starts with neither `=` nor a digit is modelled as the error `UnimplementedCellKind`.
  - That error is not in `src/error.rs`, and neither is `MultipleCellReturn`, which `src/table.rs` uses. Both are added to the model's error type.
- `Expr` has no call variant in `src/ast.rs`, but `src/parser.rs` builds calls. The model's `Expr` has a `Call` case, and evaluating it is a runtime error. The semantics of `sum` and of ranges are not modelled, because nothing in the core evaluates them.
- `Evaluate::evaluate` returns a vector of results in `src/eval.rs` and a single result in `src/ast.rs`. It is modelled as a one-element sequence, so `MultipleCellReturn` never arises from a formula.
- Tables.Table.EvaluateCell: requires coordinates inside the grid and a table whose every formula references cells inside the grid.
  - In the source, an out-of-range column silently reads a slot of another row (see `Grids.ColumnAliases`), and an index past the vector panics. Neither is modelled in the table.
  - `TableSpec.OutsideGrid` stands for that panic, and the invariant shows it is never reached.
- Tables.Table.EvaluateCell: when the call ends in an error, the contract says of the other cells only that they evolved (`Evolves`) and that the chain is untouched (`Frozen`). The errors stored on the way can depend on the chain they were found under, so they need not be what the starting grid gives those cells. `TableProperties.StoredCycleError` shows this on a two-cell cycle. The same holds for `EvaluateExpr` and `EvalExpr`.
- Tables.Table.Run: states that every formula ends with a result and that the grid only evolves. It does not give each cell's value in closed form, because values depend on evaluation order through the stored results.
- Grids.Grid.Get and Grids.Grid.Set: require the flat index to be inside the vector. The source panics there.
