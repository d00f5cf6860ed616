# creed-lang parser, modelled in Dafny

This project models the recursive-descent parser of creed-lang (`src/parser.rs`).
The parser turns a list of lexer tokens into a list of top-level statements:
`fn` declarations and `let`/`const` bindings of a literal. It reads the tokens
through a cursor with lookahead (`next`, `peek`, `peek_nth`, `window`,
`consume_elements`). It dispatches on each consumed token (`parse_token`),
recognises a binding by a five-slot window (`parse_assignment`), recognises a
function header by a window (`parse_function`) and collects a function body up
to its `EndBlock` (`parse_func_body`).

Files:

- `tokens.dfy` (`Tokens`): the `Token` datatype. Its variants are the ones the
  parser matches on.
- `ast.dfy` (`Ast`): the AST enums `ParserToken`, `ExpressionKind`,
  `AssignmentType` and `ComparisonKind`. It also holds `Failure` (every panic
  and every unwrap of `Err(())`), `Result`, and `Step`, which pairs an outcome
  with the cursor position.
- `cursor.dfy` (`Cursor`): the lookahead as functions of the token list and
  the cursor index.
- `grammar.dfy` (`Grammar`): every parsing routine as written, as a function
  of the token list and the cursor index. The lemmas there state what these
  routines accept.
- `parser.dfy` (`Parsing`): the `Parser` class, with a `tokens` list and a
  `pos` cursor that its methods advance in place. Each method is proved to
  return, and to leave `pos` at, what the matching `Grammar` function says.
- `corrected.dfy` (`Corrected`): the parser with the offsets its code
  evidently intends (see "## Findings"). It comes with a printer from
  statements back to tokens and a proof that parsing what was printed gives
  the statements back.
- `findings.dfy` (`Findings`): concrete token lists on which the parser as
  written and the corrected parser differ.

As written, the parser accepts very little. Three facts decide this, and each
is proved:

- `parse_function` never recognises a header.
- `parse_token` never moves the cursor.
- `parse` therefore fails on every non-empty token list.

The class and `Grammar` model the code as written. `Corrected` holds the
intended behaviour and the properties proved about it.

The language is meant to have a tokenizer, `if` and `return` statements,
and error values that name the failed production; the parser's code does
not have these yet (see "## Left out"). Where the code falls short of what
its offsets and comments evidently intend, `Grammar` and the class follow
the code and `Corrected` the intent. In particular, as written:

- Function headers are never accepted.
- A binding is looked for at the wrong offset.
- A body closed by the last token of the input is rejected.

## Model

| member | source | states |
|---|---|---|
| Cursor.PeekNthAt | src/parser.rs:71-77 | `peek_nth(idx)` (and `peek`, idx 0) yields a token exactly when `idx` places past the cursor are still in the input, and then the token at that place |
| Cursor.WindowAt | src/parser.rs:92-94 | `window(from, to)` has exactly `to - from` slots |
| Cursor.WindowSlots | src/parser.rs:92-94 | slot `k` of `window(from, to)` is what `peek_nth(from + k)` yields, None past the end |
| Cursor.WindowAfterConsume | src/parser.rs:79-83 | after consuming `n` tokens, `window(from, to)` shows what `window(from + n, to + n)` showed before |
| Parsing.Parser.constructor | src/parser.rs:96-100 | `Parser::new` holds the given tokens with the cursor on the first one |
| Parsing.Parser.Next | src/parser.rs:67-69 | `next` returns what `peek` showed and advances the cursor by one exactly when it returns a token |
| Parsing.Parser.Peek | src/parser.rs:71-73 | `peek` shows a token exactly when one is left, and then the token at the cursor |
| Parsing.Parser.PeekNth | src/parser.rs:75-77 | `peek_nth(idx)` shows a token exactly when `idx` places past the cursor are still in the input, and then the token there |
| Parsing.Parser.Window | src/parser.rs:92-94 | `window(from, to)` has `to - from` slots, slot `k` holding what `peek_nth(from + k)` shows |
| Parsing.Parser.ParseAssignment | src/parser.rs:182-212 | `parse_assignment` on the parser's state is Ok exactly when a binding shape starts at the cursor, and otherwise `AssignmentMismatch` |
| Parsing.Parser.ConsumeElements | src/parser.rs:79-83 | `consume_elements(n)` advances the cursor by the smaller of `n` and the tokens left, and changes nothing else |
| Parsing.Parser.Parse | src/parser.rs:102-108 | the `while let` loop returns and leaves the cursor where `Grammar.ParseAt` says: one statement per consumed leading token in input order, stopping at the first failure or at the end of input |
| Parsing.Parser.ParseToken | src/parser.rs:110-120 | the dispatch returns and leaves the cursor as `Grammar.ParseTokenAt` says |
| Parsing.Parser.BodyLoop | src/parser.rs:127-133 | the `while let` loop of `parse_func_body` returns and leaves the cursor where `Grammar.BodyLoopAt` says: one statement per consumed leading token in input order, stopping after the first `EndBlock`, at the first failure or at the end of input |
| Parsing.Parser.ParseFuncBody | src/parser.rs:124-141 | skipping five tokens, running the body loop and then the `peek_nth(0)` test compute `Grammar.ParseFuncBodyAt` |
| Parsing.Parser.ParseFunction | src/parser.rs:143-153 | the header match returns and leaves the cursor as `Grammar.ParseFunctionAt` says |
| Grammar.ParseAssignmentAt | src/parser.rs:182-212 | `parse_assignment` is Ok exactly when the five tokens from the cursor are `let`/`const`, a name, `=`, a string or number literal and `;`. Any other shape is `AssignmentMismatch`, including fewer than five tokens left or a name or boolean on the right. On Ok the binding is `Let` exactly when the keyword is `let`, carries the window's name, and carries the literal's text under the same kind. As a function of the state it never moves the cursor |
| Grammar.HeaderWindow | src/parser.rs:144-145 | on the token list: the header pattern matches `window(a, b)` with name `n` if and only if the window has four slots and the tokens name `n`, `(`, `)`, `{` stand at offset `a` from the cursor; so a three-slot window never matches |
| Grammar.ParseFunctionAt | src/parser.rs:143-152 | as written every call fails with "fn does not match" and leaves the cursor where it was, because `window(1, 4)` has three slots and the pattern four |
| Grammar.ParseTokenAt | src/parser.rs:110-120 | `parse_token` never moves the cursor. It succeeds exactly when the consumed token is `let`/`const` and an assignment shape starts at the cursor. On `let`/`const` it returns what `parse_assignment` returns, on `fn` it fails with "fn does not match", `If`/`ReturnFn` are unimplemented, and any other token is "unexpected token" |
| Grammar.ParseAt | src/parser.rs:102-108 | `parse` only moves the cursor forward, never past the end, and succeeds only with the input exhausted |
| Grammar.ParseStopsAtNonBinding | src/parser.rs:102-118 | a leading token other than `let`/`const` ends `parse` after that token: `fn` with "fn does not match", `If`/`ReturnFn` as unimplemented, anything else as "unexpected token" |
| Grammar.BodyLoopAt | src/parser.rs:127-133 | the body loop only moves the cursor forward and never past the end of input |
| Grammar.BodyLoopOkOnlyEmpty | src/parser.rs:127-133 | as written, the body loop succeeds exactly when its first token is an `EndBlock` or the input is exhausted, and then with an empty body |
| Grammar.ParseFuncBodyAt | src/parser.rs:124-141 | `parse_func_body` never leaves the cursor past the end of input |
| Grammar.FuncBodyOkIff | src/parser.rs:124-141 | `parse_func_body` fails exactly when its loop fails or no token is left after it. As written it succeeds exactly when, five tokens on, an `EndBlock` comes and another token follows it, yielding an empty body with the cursor after that `EndBlock` |
| Grammar.BodyClosedAtEndIsRejected | src/parser.rs:135-140 | a body whose closing `EndBlock` is the last token of the input is reported as unterminated |
| Grammar.ParseRejectsNonEmpty | src/parser.rs:102-119 | as written, `parse` succeeds exactly when no token is left |
| Corrected.AssignmentAt | src/parser.rs:182-212 | a binding, entered after its keyword, is Ok exactly when a name, `=`, a literal and `;` follow. It then consumes those four tokens, names the binding after the name, is `Let` exactly for `let` and carries the literal's text. Otherwise it is `AssignmentMismatch` with the cursor unmoved |
| Corrected.TokenAt | src/parser.rs:110-120 | the dispatch only moves the cursor forward and never past the end of input |
| Corrected.FunctionAt | src/parser.rs:143-152 | the function production only moves the cursor forward and never past the end of input |
| Corrected.FuncBodyAt | src/parser.rs:124-133 | the body production only moves the cursor forward and never past the end of input |
| Corrected.BodyLoopAt | src/parser.rs:127-133 | the corrected body loop only moves the cursor forward and never past the end of input |
| Corrected.ParseAt | src/parser.rs:102-108 | the corrected `parse` only moves the cursor forward, never past the end, and succeeds only with the input exhausted |
| Corrected.TokenDispatch | src/parser.rs:110-120 | the corrected dispatch sends `let`/`const` to `parse_assignment` and `fn` to `parse_function`. `parse_function` fails with "fn does not match" and the cursor unmoved when no header follows. `If`/`ReturnFn` are unimplemented and any other token is "unexpected token", both with the cursor unmoved |
| Corrected.BodyLoopOkIsClosed | src/parser.rs:127-140 | a successful body was closed by an `EndBlock`, the last token it consumed |
| Corrected.StatementsThenEndBlock | src/parser.rs:127-140 | statements followed by an `EndBlock` are exactly what the body loop returns, one per leading token in input order. The loop stops right after the `EndBlock`, whether or not tokens follow |
| Corrected.BodyLoopOkHasStatements | src/parser.rs:127-133 | conversely, a successful body loop consumed such a run of statements and then the `EndBlock` closing it |
| Corrected.HeaderAt | src/parser.rs:144-145 | the tokens name, `(`, `)`, `{` right after the cursor are recognised as a function header with that name |
| Corrected.AssignmentRoundTrip | src/parser.rs:182-212 | a printed binding parses back to itself, consuming exactly its five tokens |
| Corrected.FunctionRoundTrip | src/parser.rs:143-152 | a printed function parses back to itself, consuming exactly its tokens up to its closing `EndBlock` |
| Corrected.StatementRoundTrip | src/parser.rs:110-120 | every printed statement parses back to itself, consuming exactly its tokens |
| Corrected.PrintedStatements | src/parser.rs:110-120 | the printed form of statements is a run of those statements, each parsing back to itself, that ends exactly where their tokens end |
| Corrected.StatementsLoop | src/parser.rs:127-133 | on a run of statements the body loop returns them in input order and then goes on as it would from the end of the run |
| Corrected.StatementsParse | src/parser.rs:102-108 | on a run of statements `parse` returns them in input order and then goes on as it would from the end of the run |
| Corrected.FunctionParsed | src/parser.rs:143-152 | `fn`, a recognised header, a run of statements and an `EndBlock` parse to that function, with the cursor right after the `EndBlock` |
| Corrected.FunctionUnterminated | src/parser.rs:135-140 | `parse` of an input made of `fn`, a recognised header and a run of statements reaching the end of input fails as `UnterminatedBody` with the input exhausted |
| Corrected.TokenIsPrinted | src/parser.rs:110-152 | conversely, a statement the dispatch accepts is printable, and the tokens it consumed are exactly its printed form; in particular a function is accepted only after a header |
| Corrected.LoopIsPrinted | src/parser.rs:127-133 | a successful body loop consumed exactly the printed form of the statements it returned, followed by the closing `EndBlock` |
| Corrected.ParseIsPrinted | src/parser.rs:102-108 | a successful `parse` consumed the rest of the input, and that rest is exactly the printed form of the statements it returned |
| Corrected.ParseOkIffPrinted | src/parser.rs:102-108 | the corrected `parse` returns `ss` for a whole token list if and only if that list is `ss` printed |
| Corrected.ParseRoundTripAt | src/parser.rs:102-108 | on printed statements `parse` returns them and carries on with what follows |
| Corrected.PrintThenParse | src/parser.rs:102-108 | parsing the printed form of a program of functions and literal bindings gives the program back |
| Corrected.MissingEndBlockIsUnterminated | src/parser.rs:135-140 | removing a function's final `EndBlock` from the end of the input yields `UnterminatedBody` and no other outcome |
| Findings.MainFunctionExample | src/parser.rs:143-152 | `fn main() { let test = 5; }` fails with "fn does not match" as written, and parses to `main` holding the binding once corrected |
| Findings.TopLevelBindingExample | src/parser.rs:182-188 | `let x = 5;` fails as written, and parses to the binding once corrected |

## Left out

- `src/lexer.rs` as a whole. `lex()` is `todo!()`, and its token enum does not agree with the one the parser matches on. The parser takes a token list as input instead.
- `parse_if` and both `parse_expression` functions have no behaviour beyond empty arms and `todo!()`. So nothing parses comparisons, `if` or `return`.
- The `If` and `ReturnFn` arms of `parse_token` are empty blocks, which do not type-check as a `ParserToken`. They become the failure `Unimplemented`.
- `take_while` is never used.
- peekmore's iterator is a foreign library. It becomes a token list with an index.
- A panic aborts the Rust program. Here it is a `Failure` value that ends the parse, with the cursor wherever the failing routine left it.
- The AST variants `Expr`, `Block`, `Comparison`, `IfShorthand`, `IfCondition` and `AnonFunction` are declared but never built.
- Grammar.BodyLoopAt: its own contract only bounds the cursor. What it returns is stated by `Grammar.BodyLoopOkOnlyEmpty` and `Grammar.FuncBodyOkIff`.
- Corrected.TokenAt: its own contract only bounds the cursor. Its outcomes are stated by `Corrected.TokenDispatch`, its successes in both directions by `Corrected.StatementRoundTrip` and `Corrected.TokenIsPrinted`.
- Corrected.FunctionAt: its own contract only bounds the cursor. Its failure without a header is stated by `Corrected.TokenDispatch`, its successes in both directions by `Corrected.FunctionRoundTrip` and `Corrected.TokenIsPrinted`, and its unterminated body by `Corrected.MissingEndBlockIsUnterminated`.
- Grammar.ParseFuncBodyAt: its own contract only bounds the cursor. What it returns is stated by `Grammar.FuncBodyOkIff` and `Grammar.BodyClosedAtEndIsRejected`.
- Grammar.ParseAt: its own contract only bounds the cursor. When it succeeds is stated by `Grammar.ParseRejectsNonEmpty`, and how it fails on a leading non-binding token by `Grammar.ParseStopsAtNonBinding`.
- Corrected.ParseAt: its own contract only bounds the cursor. What it returns is stated by `Corrected.StatementsParse`, `Corrected.ParseIsPrinted` and `Corrected.ParseOkIffPrinted`.
- The pattern arm of `parse_function` that builds a `Function` from `parse_func_body` (src/parser.rs:146-149) is not written out in `Grammar.ParseFunctionAt` or `Parsing.Parser.ParseFunction`, because the three-slot window makes it unreachable. So neither calls the body parser, and `parse_func_body` is modelled on its own.
- Corrected.FuncBodyAt: its own contract only bounds the cursor. What it returns is stated by the body lemmas.
- Corrected.BodyLoopAt: its own contract only bounds the cursor. What it returns is stated by the body lemmas.
- Integer widths play no part: numbers stay text, as in `ExpressionKind::Number(String)`.

## Findings

| source | as written | input that shows it | evidently intended | confidence | as-written member | corrected member |
|---|---|---|---|---|---|---|
| src/parser.rs:143-152 | the four-slot header pattern is matched against `window(1, 4)`, which has three slots, so every `fn` panics with "fn does not match"; `parse_func_body` would also skip five tokens although only four header tokens follow the consumed `fn` | FnDeclaration, Identifier("main"), OpenParen, CloseParen, BeginBlock, EndBlock | read name, `(`, `)`, `{` at offsets 0 to 3 after the consumed `fn` and skip exactly those four tokens | high, not executed | Grammar.ParseFunctionAt | Corrected.FunctionRoundTrip |
| src/parser.rs:104-114 | `parse` consumes the `let`/`const` keyword, then `parse_assignment` (line 183) looks for that keyword at window offset 0, and a match consumes nothing, so every non-empty input fails | LetDeclaration, Identifier("x"), Equals, Number("5"), EndStatement | match name, `=`, literal, `;` after the consumed keyword and consume those four tokens | high, not executed | Grammar.ParseRejectsNonEmpty | Corrected.AssignmentRoundTrip |
| src/parser.rs:135-140 | the body counts as closed only if some token is left after the loop, so a body whose `EndBlock` is the last token of the input is an error | FnDeclaration, Identifier("main"), OpenParen, CloseParen, BeginBlock, EndBlock, with the five-token skip starting at FnDeclaration | a body is closed when the loop stopped at its `EndBlock`, and unterminated only when the input runs out inside it | high, not executed | Grammar.BodyClosedAtEndIsRejected | Corrected.StatementsThenEndBlock |
