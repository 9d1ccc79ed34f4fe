# A verified model of a boolean-language parser and interpreter

The repository holds two versions of one hand-written LL(1) recursive-descent parser. The
language has `print` statements, `x = expr` assignments, `or`, `and`, `not` and parentheses.

- `parser.py` is a pure recogniser. A cursor (`la`/`val`) is advanced by `match`. The productions
  `stmt_list`, `stmt`, `expr`, `termA`, `termA_tail`, `termB`, `termB_tail`, `factor` and
  `operator` encode precedence by structure: `or` binds weakest, then `and`, and `not` applies to
  one factor.
- `runner.py` is the same machine plus a symbol table `st`, which assignments write into. It also
  writes the values of `print` statements to the console.

The modules:

| module | what it holds |
|---|---|
| `Lexemes` | Character classes and ASCII case folding. Used by both lexicons. |
| `ParserTokens` | The tokens of parser.py. `Classify` picks, for one lexeme, the action of the first pattern in the lexicon's list order that matches it. |
| `Grammar` | The trees the productions of parser.py recognise and their rendering back to tokens. Also the boolean meaning of a tree: `EvalExpr`, and `Exec` for programs. The trees mirror the productions: an expression is a `termA` and an `or`-tail, a `termA` is a `termB` and an `and`-tail. |
| `Productions` | Every production of parser.py as a function of the token sequence and the cursor. It returns the tree and the cursor on a normal return, or the raised `ParseError` and the cursor where it was raised. |
| `Parser` | Class `MyParser` of parser.py: the token stream, the cursor `pos` and the lookahead pair `la`/`val`, which `Match` overwrites. Each production is a method that only moves the cursor, and each is proved to end exactly as its function in `Productions` says. |
| `Acceptance` | What parser.py accepts. Soundness: what a production consumed is the rendering of the tree it returns. Completeness: given the rendering of any tree, each production consumes exactly that rendering and returns that tree. Together, `stmt_list` accepts exactly the renderings of programs. |
| `ParserFacts` | Which error each production raises and where. Also the `not not` restriction, balanced parentheses, the precedence of `and` over `or` and of `not` over `and`, and unbalanced inputs. |
| `RunnerTokens` | The tokens and lexicon of runner.py: case-insensitive literals and single-character spaces. |
| `Runner` | The machine of runner.py as functions (`ExprR`, `StmtR`, `StmtListR`) and as class `MyParser`, which also holds `st` and the output sequence `out`. |
| `RunnerFacts` | The runner against `Grammar.Exec`, its statement layer, and the defects of runner.py as written. |
| `RunnerExamples` | Example runs: assignment then read, reassignment, an undefined read, precedence, and an unclosed parenthesis. |

Scanning is not modelled, so the parsers see a token sequence. A position is a token index, and
`la is None` is the lookahead at or past the last token (`EndOfInput`).

runner.py's statement layer is modelled as written: `stmt_list`, `stmt`, `match`, `operator` and
`boolean`.

- `stmt` reads the name from `val` before `match('VARIABLE')`, then matches `=`, then sets
  `st[name]` to the value of `expr`.
- Its two branches are the methods `Assignment` and `PrintStmt`.

runner.py's expression code cannot run as written (see "## Findings"). So the runner reads its
tokens as parser.py tokens (`Translate`), parses them with parser.py's productions and evaluates
the tree with `Grammar.EvalExpr` against `st`. The guard of `expr` is its corrected FIRST set,
`StartsExpr`.

The model follows the code in these details:

- The lexicons are tried in the code's own list order.
- parser.py's literals are the twelve exact spellings of `Bool_exp`, with no case folding.
- runner.py's `space` is a single character.
- parser.py's `termA_tail` also stops on `and` and `not` (parser.py:130), and its `termB_tail`
  on `or` and `not` (parser.py:151).

## Model

| member | source | states |
|---|---|---|
| ParserTokens.Classify | parser.py:22-44 | The first pattern in list order decides. A run of spaces, and only that, is ignored. A lexeme is an operator token exactly when it is `not`, `and` or `or`, a `print` token exactly when it is `print`, and a `Bool_exp` token exactly when it is one of the twelve spellings. It is an `id` exactly when it is an identifier that is none of those words. It matches nothing exactly when it is none of these and not `(`, `)` or `=`. An emitted token carries the lexeme, and a `plex.TEXT` kind carries its own text. |
| RunnerTokens.Classify | runner.py:18-43 | The same for runner.py's list, each clause an if-and-only-if over the lexeme. A token is `not`, `and`, `or`, `=`, `(`, `)` or `print` exactly when the lexeme is that text. The operator words come first, so they are never literals. A token is `TRUE` exactly when the case-folded lexeme is `true`, `t` or `1`, and `FALSE` exactly when it is `false`, `f` or `0`. A single space character, and only that, is ignored. A token is a `VARIABLE` exactly when the lexeme is an identifier that is no operator word, not `print` and no literal spelling. It matches nothing exactly when it is none of these. An emitted token carries the lexeme. |
| Lexemes.NoCaseMatches | runner.py:23-24 | What `plex.NoCase` matches: a lexeme folds onto a lower-case word exactly when it has the word's length and each of its characters is the word's, or the upper-case form of the word's letter. |
| Lexemes.LowerAllIdempotent | runner.py:23-24 | A folded lexeme has no upper-case letter left, so folding it again changes nothing. |
| RunnerTokens.LiteralSpellings | runner.py:23-24 | `t`, `TRUE`, `tRuE` and `1` lex as `TRUE`. `F`, `False` and `0` lex as `FALSE`. `tr` is a `VARIABLE`. |
| Productions.MatchF | parser.py:64-71 | `match(t)` returns exactly when `la == t`: it advances one token and yields that token's text. Otherwise it raises "found la instead of t" with the cursor unchanged. |
| Productions.StmtListF | parser.py:84-92 | The cursor never moves back. A normal return ends at the end of input. |
| Productions.StmtF | parser.py:95-111 | The cursor never moves back. A statement that returns has consumed at least one token. |
| Productions.ExprF | parser.py:115-121 | The cursor never moves back. An expression that returns has consumed at least one token. |
| Productions.ATailF | parser.py:124-133 | The cursor never moves back. A tail that took the `or` branch has consumed a token; this is what makes the recursion terminate. |
| Productions.TermAF | parser.py:136-142 | The cursor never moves back. A `termA` that returns has consumed at least one token. |
| Productions.BTailF | parser.py:145-154 | The cursor never moves back. A tail that took the `and` branch has consumed a token. |
| Productions.TermBF | parser.py:157-165 | The cursor never moves back. A `termB` that returns has consumed at least one token. |
| Productions.FactorF | parser.py:170-192 | The cursor never moves back. A `factor` that returns has consumed at least one token. |
| Parser.MyParser.constructor | parser.py:18-48 | The object starts at the first token, with `la`/`val` read from it. |
| Parser.MyParser.Match | parser.py:64-71 | With `la == t` the cursor advances by one and `la`/`val` are reread. Otherwise it raises `Mismatch(la, t)` and the cursor stays put. |
| Parser.MyParser.StmtList | parser.py:84-92 | Ends with the status and cursor of `StmtListF` from the starting cursor. |
| Parser.MyParser.Stmt | parser.py:95-111 | Ends with the status and cursor of `StmtF`. |
| Parser.MyParser.Expr | parser.py:115-121 | Ends with the status and cursor of `ExprF`. |
| Parser.MyParser.TermATail | parser.py:124-133 | Ends with the status and cursor of `ATailF`. |
| Parser.MyParser.TermA | parser.py:136-142 | Ends with the status and cursor of `TermAF`. |
| Parser.MyParser.TermBTail | parser.py:145-154 | Ends with the status and cursor of `BTailF`. |
| Parser.MyParser.TermB | parser.py:157-165 | Ends with the status and cursor of `TermBF`. |
| Parser.MyParser.Factor | parser.py:170-192 | Ends with the status and cursor of `FactorF`. |
| Parser.MyParser.Operator | parser.py:195-212 | On `or`, `and` or `not` it consumes exactly one token. On anything else it raises with the cursor unchanged. |
| Parser.Parse | parser.py:74-81 | A fresh object runs `stmt_list`. When it passes, the cursor is at the end. On a stream the lexicon can produce, it passes exactly when the stream is the rendering of some program. |
| Acceptance.FirstSetIsExact | parser.py:117 | A kind is in the guard of `expr` exactly when some expression's rendering starts with it. |
| Acceptance.ExprSound | parser.py:115-121 | When `expr` returns, the tokens it consumed are the rendering of the tree it returns. |
| Acceptance.ATailSound | parser.py:124-133 | When `termA_tail` returns, what it consumed is the rendering of its `or`-tail. |
| Acceptance.TermASound | parser.py:136-142 | When `termA` returns, what it consumed is the rendering of its tree. |
| Acceptance.BTailSound | parser.py:145-154 | When `termB_tail` returns, what it consumed is the rendering of its `and`-tail. |
| Acceptance.TermBSound | parser.py:157-165 | When `termB` returns, what it consumed is the rendering of an optional `not` and one factor. |
| Acceptance.FactorSound | parser.py:170-192 | When `factor` returns, what it consumed is `( expr )`, an `id` or a literal. |
| Acceptance.StmtSound | parser.py:95-111 | When `stmt` returns, what it consumed is `id = expr` or `print expr`. |
| Acceptance.StmtListSound | parser.py:84-92 | When `stmt_list` returns, the rest of the stream is the rendering of the statements it parsed. |
| Acceptance.ExprComplete | parser.py:115-121 | On the rendering of any expression followed by a lookahead both tails stop on, `expr` returns that expression just past its rendering. |
| Acceptance.ATailComplete | parser.py:124-133 | On the rendering of any `or`-tail followed by a lookahead both tails stop on, `termA_tail` returns that tail just past it. |
| Acceptance.TermAComplete | parser.py:136-142 | On the rendering of any `termA`, followed by a token `termB_tail` stops on, `termA` returns it. |
| Acceptance.BTailComplete | parser.py:145-154 | On the rendering of any `and`-tail followed by a lookahead `termB_tail` stops on, `termB_tail` returns that tail just past it. |
| Acceptance.TermBComplete | parser.py:157-165 | On the rendering of any `termB`, `termB` returns it just past its rendering. |
| Acceptance.FactorComplete | parser.py:170-192 | On the rendering of any factor, `factor` returns it just past its rendering. |
| Acceptance.StmtComplete | parser.py:95-111 | On the rendering of any statement followed by a lookahead both tails stop on, `stmt` returns that statement just past its rendering. |
| Acceptance.StmtListComplete | parser.py:84-92 | When the rest of the stream is the rendering of any program, `stmt_list` returns that program at the end of input. |
| Acceptance.ProgramRoundTrip | parser.py:74-92 | Parsing the rendering of any program returns that program and consumes every token. |
| Acceptance.AcceptsExactlyPrograms | parser.py:74-92 | On a stream the lexicon can produce, `stmt_list` returns exactly when the stream is the rendering of some program. The program it returns renders to that stream. |
| ParserFacts.TermBMovesOn | parser.py:157-192 | A `termB` whose lookahead is in the FIRST set ends past its first token, whether it returns or raises. |
| ParserFacts.TermAGuard | parser.py:138-142 | `termA` raises its own error at its start exactly when the lookahead is not `(`, `id`, `Bool_exp` or `not`; otherwise it moves on. |
| ParserFacts.ExprGuard | parser.py:117-121 | `expr` raises its own error at its start exactly when the lookahead is outside the same set. |
| ParserFacts.ATailStops | parser.py:124-133 | `termA_tail` returns without consuming exactly on its follow set. It raises its own error exactly on a lookahead that is neither `or` nor in that set. |
| ParserFacts.BTailStops | parser.py:145-154 | `termB_tail` returns without consuming exactly on its follow set. It raises its own error exactly on a lookahead that is neither `and` nor in that set. |
| ParserFacts.StmtListStops | parser.py:84-92 | `stmt_list` returns only at the end of input. It raises its own error exactly on a lookahead that is not `id`, `print` or the end. |
| ParserFacts.StmtGuard | parser.py:95-111 | `stmt` raises its own error exactly on a lookahead other than `id` and `print`. An `id` not followed by `=` raises the failed `match('=')` one token on. |
| ParserFacts.NotNotRejected | parser.py:157-165 | `not not` raises `factor`'s error at the second `not`, in `termB` and in `expr`. |
| ParserFacts.NotNotAnywhereRejected | parser.py:157-192 | No stream with two `not`s in a row is accepted by `stmt_list` started at or before them. |
| ParserFacts.NoNotNotInTrees | parser.py:157-165 | No program renders with two `not`s in a row. |
| ParserFacts.ExprBefore | parser.py:115-121 | An expression started at or before a `not not` that returns stops at or before the first of those two `not`s. |
| ParserFacts.AcceptedIsBalanced | parser.py:172-179 | Every stream `stmt_list` accepts has as many `(` as `)`, and no prefix closes more than it opened. |
| ParserFacts.ProgramBalanced | parser.py:170-192 | The rendering of every program is balanced. |
| ParserFacts.UnclosedParenthesis | parser.py:172-179 | `print (` followed by any expression raises "found None instead of )" at the end of input, both in `expr` and in `stmt_list`. |
| ParserFacts.UnopenedParenthesis | parser.py:84-92 | `print`, any expression and then `)` raises `stmt_list`'s error at the `)`. |
| ParserFacts.AndGroupsTighter | parser.py:124-154 | `x = f or g and h` parses as `f or (g and h)`, whatever the factors. |
| ParserFacts.NotGroupsTighter | parser.py:157-165 | `print not f and g` parses as `(not f) and g`, whatever the factors. |
| Grammar.ExprUnbound | runner.py:170-173 | An expression has a value exactly when every name it reads is bound. Otherwise the reported name is one it reads and is unbound. |
| Grammar.AssignmentEffect | runner.py:92-96 | An assignment completes exactly when its right-hand side's names are bound. It then binds its name to the value, keeps every other binding and leaves the output as it was. If it gets stuck, nothing changes. |
| Grammar.PrintEffect | runner.py:97-99 | A `print` completes exactly when its argument's names are bound. It then appends the value to the output and leaves the table as it was. |
| Grammar.ExecAppend | runner.py:81-88 | Running the concatenation of two programs is running the first and then, unless it got stuck, the second from the table and output the first left; a stuck first program stops the whole run with its own result. |
| Grammar.ExecKeepsOutput | runner.py:81-99 | Output is only appended to: the output of any run, stuck or not, extends the output it started with. |
| Runner.ToParserToken | runner.py:34-43 | A runner token reads as the parser.py token of the matching kind, with the text parser.py's lexicon gives that kind. A name keeps its text. A literal becomes `true` or `false`. |
| Runner.LiteralValue | runner.py:23-24 | The translation keeps a literal's truth value: a `TRUE` token reads as a literal that evaluates to true, a `FALSE` token as one that evaluates to false. |
| Runner.Translate | runner.py:34-43 | The translated stream has the same length, is token by token the translation, and is a stream parser.py's lexicon can produce. |
| Runner.ExprR | runner.py:104-113 | `expr` with the corrected guard never moves the cursor back. When it has a value it has moved on. On a lookahead no expression starts with, it raises its own error at its start. |
| Runner.StmtR | runner.py:91-101 | `stmt` never moves back, and one that finishes has moved on. |
| Runner.StmtListR | runner.py:81-88 | `stmt_list` finishes only at the end of input. |
| Runner.MyParser.constructor | runner.py:11-12 | The symbol table starts empty, the output empty, and the cursor at the first token. |
| Runner.MyParser.Match | runner.py:62-71 | With `la == t` it consumes exactly one token. Otherwise it raises `Mismatch(la, t)` with the cursor unchanged. The table and the output are unchanged either way. |
| Runner.MyParser.StmtList | runner.py:81-88 | Ends with the status, cursor, table and output of `StmtListR`. |
| Runner.MyParser.Stmt | runner.py:91-101 | Ends with the status, cursor, table and output of `StmtR`. On a lookahead other than `VARIABLE`/`print` it raises, with nothing changed. |
| Runner.MyParser.Assignment | runner.py:92-96 | The assignment branch ends as `StmtR` says. |
| Runner.MyParser.PrintStmt | runner.py:97-99 | The `print` branch ends as `StmtR` says. |
| Runner.MyParser.Expr | runner.py:104-113 | Ends with the cursor and value of `ExprR`, with the table and output unchanged. |
| Runner.MyParser.Boolean | runner.py:180-186 | On `TRUE` or `FALSE` it consumes exactly one token. Otherwise it raises with the cursor unchanged. |
| Runner.MyParser.Operator | runner.py:189-197 | On `or`, `and` or `not` it consumes exactly one token. Otherwise it consumes nothing. It never raises. |
| Runner.Parse | runner.py:73-79 | A fresh object with an empty table runs `stmt_list`. It returns the status, cursor, table and output `StmtListR` gives. |
| RunnerFacts.GuardIsFirstSet | runner.py:105 | The corrected guard of `expr` is parser.py's FIRST set read on runner tokens. |
| RunnerFacts.ExprMatchesEval | runner.py:104-113 | The runner's expression ends where parser.py's `expr` ends on the translated tokens. It has a value exactly when that parse returns and the tree has a value in the table, and the value is the tree's. |
| RunnerFacts.StmtMatchesExec | runner.py:91-101 | When parser.py's `stmt` returns, the runner does what `Exec` does with the parsed statement. When it raises, the runner halts where it raised, with the table and output unchanged. |
| RunnerFacts.AssignmentMatchesExec | runner.py:92-96 | From a `VARIABLE`, the runner's statement does what `Exec` does with the statement parser.py parses there. When that parse raises, the runner halts where it raised, with the table and output unchanged. |
| RunnerFacts.AssignmentMismatch | runner.py:94-95 | A `VARIABLE` not followed by `=` halts with "found la instead of =" one token on. |
| RunnerFacts.PrintMatchesExec | runner.py:97-99 | The same from `print`. |
| RunnerFacts.PrintFails | runner.py:97-99 | A `print` whose argument raises in parser.py halts where parser.py stopped. The error is parser.py's error, or `expr`'s own error when no expression starts there. |
| RunnerFacts.RunMatchesExec | runner.py:81-88 | When parser.py accepts the translated tokens, the runner ends as `Exec` runs the parsed program. It finishes at the end with Exec's table and output, or halts on the same unbound name with the same table and output. When parser.py rejects them, the runner halts. |
| RunnerFacts.RunsPrograms | runner.py:73-88 | A run from an empty table finishes exactly on the renderings of programs that `Exec` runs to the end, and then it has Exec's table and output. |
| RunnerFacts.AssignmentBindsOneName | runner.py:92-96 | An assignment that runs binds the name captured before its token was consumed to the value, overwriting an earlier binding. Every other binding and the output stay as they were. |
| RunnerFacts.PrintKeepsTable | runner.py:97-99 | A `print` that runs leaves the table as it was and appends its value to the output. |
| RunnerFacts.HaltedStmtChangesNothing | runner.py:91-101 | A statement that halts leaves the table and output as they were. `stmt` raises its own error exactly on a lookahead other than `VARIABLE` and `print`. |
| RunnerFacts.StmtListRStops | runner.py:81-88 | `stmt_list` finishes only at the end of input. It raises its own error exactly on a lookahead that is not `VARIABLE`, `print` or the end. |
| RunnerFacts.GuardAsWritten | runner.py:105 | The guard as written holds on every lookahead. |
| RunnerFacts.GuardAsWrittenAdmitsParen | runner.py:105-113 | The guard as written lets `)` and the end of input through; the corrected guard rejects both. |
| RunnerFacts.FollowSetsAsWrittenMissEnd | runner.py:125-159 | Neither follow set as written holds the end of input, for any lookahead, while both of parser.py's tails stop on it. In `print true`, the lookahead after the literal is the end of input, which is neither `and` nor `or` nor in either follow set as written. |
| RunnerFacts.ReadIn | runner.py:172-173 | The read evaluates the identifier `name` first: it raises `NameError` exactly when `name` is not among the visible names. Otherwise it finds a value exactly when the lexeme is bound, and that value is the table's. |
| RunnerFacts.ReadAsWritten | runner.py:164-173 | `name` is neither `factor`'s local `self`, nor a module-level name of runner.py (`plex`, `ParseError`, `MyParser`, `parser`, `fp`), nor a builtin, so the read as written raises `NameError` whatever the table holds. |
| RunnerFacts.ReadAsWrittenFailsOnBound | runner.py:170-173 | As written, reading `x` fails even with `x` bound to true. With `name` in scope the same read finds true, which is the value the corrected read `Grammar.EvalFactor` gives. |
| RunnerExamples.LitFactor | runner.py:174-175 | A literal token reads as a factor that renders to its translation and has the literal's truth value in every table. |
| RunnerExamples.PrintLiteralRuns | runner.py:97-99 | `print u` on a literal finishes at the end and prints the literal's truth value. |
| RunnerExamples.AssignThenRead | runner.py:92-99 | `x = u print x` finishes with `x` bound to the literal's value and prints that value. |
| RunnerExamples.Reassignment | runner.py:92-96 | `x = u x = v print x` prints the value of `v`: the second assignment overwrites the first. |
| RunnerExamples.UndefinedRead | runner.py:170-173 | `print y` with nothing assigned halts on `y` and prints nothing. |
| RunnerExamples.AndBeforeOr | runner.py:104-128 | `print u or v and w` prints `u or (v and w)`. |
| RunnerExamples.NotBeforeAnd | runner.py:130-162 | `print not u and v` prints `(not u) and v`. |
| RunnerExamples.UnbalancedRun | runner.py:164-168 | `print (u and v` halts at the end of input, where `)` was expected, having printed nothing. The error is parser.py's `Mismatch(EndOfInput, RParen)` in parser.py's token kinds, because the runner's expressions go through parser.py's productions. |

## Left out

- The plex scanner (parser.py:46-61, runner.py:46-60) is a foreign library. Longest-match
  splitting, reading the file and `position()` are out of the model.
  - The parsers take a token sequence.
  - `Classify` takes one lexeme already cut out.
  - That plex breaks ties between patterns matching the same lexeme by list order is an
    assumption.
  - Lexical errors appear only as `Classify` returning `NoMatch`.
- The top-level driver is I/O and is not modelled:
  - opening `data.txt`;
  - catching the exceptions;
  - the error messages with line and column (parser.py:216-228, runner.py:199-215).

  An error carries a token index instead, and `ParseError` carries the raising production or
  the failed `match` instead of the message text.
- The debug prints of tokens are output noise and are not modelled: parser.py:99, 102, 107, 174,
  178, 182, 187, 199, 203 and 208, and runner.py:67.
- The console output of `print(self.expr())` (runner.py:99) is the sequence `out`. It is not
  formatted as text.
- runner.py's expression value code (runner.py:106-111, 118-124, 132-142, 148-158, 165-175)
  cannot run as written. Its expression syntax as written (`termA` calls `operator` and then
  `factor` and `factor_tail`) is not modelled either. The runner's expressions are parsed with
  parser.py's productions and evaluated with `Grammar.EvalExpr`.
- Runner.MyParser.Expr: its contract is stated against `ExprR`, which has the corrected guard,
  the productions of parser.py and the corrected variable read. It does not model runner.py's
  `expr` as written.
- Runner.ExprR: an unbound name is reported with the cursor at the end of its expression. A
  syntax error later in the same expression is reported instead of the unbound name. Both follow
  because the expression is parsed whole before it is evaluated.
- No recursion-depth or stack limit is modelled. parser.py recurses once per statement in
  `stmt_list` and several frames per parenthesis level, so a long enough program or deep enough
  nesting raises Python's `RecursionError`, which the driver does not catch (parser.py:221-228,
  runner.py:208-215). `Parser.Parse`, `Acceptance.AcceptsExactlyPrograms` and
  `RunnerFacts.RunsPrograms` hold for programs of every size.
- Runner.MyParser.Boolean: `factor` does not call it in the model, because expressions go
  through parser.py's productions.

## Findings

| source | as written | input that shows it | evidently intended | confidence | as-written member | corrected member |
|---|---|---|---|---|---|---|
| runner.py:105, 131 | The guards of `expr` and `termA` end in `or 'not'`, a non-empty string, so they hold on every lookahead and the `raise` at runner.py:113 and 144 is unreachable. | lookahead `)` (`print )`), or the end of input (`print`) | the FIRST set `(`, `VARIABLE`, `TRUE`, `FALSE`, `not` | not executed | RunnerFacts.GuardAsWrittenAdmitsParen | RunnerFacts.GuardIsFirstSet |
| runner.py:125, 159 | The follow sets of `termA_tail` and `factor_tail` leave out `None`, so a program whose last expression is made only of literals and operators raises at the end of input. (A last expression that reads a variable raises `NameError` first, at runner.py:172, and a parenthesised one raises in the second `self.expr()`, at runner.py:169.) | `print true` | the end of input in both follow sets, as in parser.py:130, 151 | not executed | RunnerFacts.FollowSetsAsWrittenMissEnd | RunnerExamples.PrintLiteralRuns |
| runner.py:172 | `name` is bound nowhere in `factor`, so every variable read raises `NameError`, even of a name just assigned. | `x = true print x` | read `st` at the variable's lexeme, and report an undefined variable when it is unbound | not executed | RunnerFacts.ReadAsWrittenFailsOnBound | RunnerExamples.AssignThenRead |
