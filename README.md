# plox in Dafny

A verified model of plox, a tree-walking interpreter for the Lox language
written in Python. The model covers the whole pipeline from source text to
printed output:

- **Scanner** (`scanner.dfy`, module `Scanning`). The class `Scanner` works
  like `src/scanner.py`: a `start`/`current` cursor pair and a line counter
  move forward one character at a time, and tokens are appended in place.
  Its methods are proved against `ScanStep`/`ScanFrom`, a specification that
  says what each lexeme becomes. The proofs cover the cursor invariant, exact
  line counting, each token's lexeme being its source slice, tokens in source
  order, and exactly one end-of-file token, always last.
- **Tokens, values and trees** (`token.dfy`, `ast.dfy`; modules `Tokens` and
  `Ast`). The token record, Python's `==` on runtime values, and the
  expression and statement variants. Visitor dispatch becomes `match`.
- **Parser** (`parser.dfy`, module `Parsing`, class `Parser`). A cursor over a
  token list that ends with the end-of-file token, with the original's
  recursive-descent methods and loops. Each method is proved to do exactly
  what a reference function of `parse_spec.dfy` (module `ParseSpec`) says:
  on success the tree and the cursor after it, with no report; on failure
  the one report the function names (token and message) and the cursor at
  that token. `_declaration` then leaves the cursor where `_synchronize`
  stops, and `parse` aborts after the first failing declaration.
- **Parser theory** (`parse_theory.dfy`, module `ParseTheory`). The
  reference functions are compared with a grammar (`grammar.dfy`, module
  `Grammar`): a tree's *yield* spells it back as symbols, and predicates
  give the shape of each precedence level (binary levels grouped to the
  left). Soundness and completeness give exact characterisations: the
  expression parser returns a tree and stops at `n` iff the tree has the
  equality-level shape, the tokens up to `n` spell it, and the token at `n`
  cannot continue it; the same holds for declarations and whole programs.
  Since the parser is a function, the grammar is unambiguous: two trees
  with the same yield are equal.
- **Environment** (`environment.dfy`, module `Environments`). The class
  `Environment` wraps a flat dictionary with `define`, `assign` and `get`.
- **Interpreter**:
  - `faults.dfy`, module `Faults`: the runtime errors and their messages.
  - `semantics.dfy`, module `Semantics`: the evaluation rules as functions, and `Eval`/`Exec`/`ExecAll`, which say what evaluation and execution do to the bindings and the output.
  - `interpreter.dfy`, module `Interpreting`: the class `Interpreter`. Its methods follow the original's recursion and statement loops, and are proved to agree with those functions. The proofs include that `_execute_block` restores the previous environment on every exit.
- **AST printer** (`ast_printer.dfy`, module `AstPrinting`). The printer's
  recursion and `_parenthesize`'s loop, proved to produce the text `Show`
  specifies. The original tests' expected strings are proved as lemmas.

Numbers are Python floats, modelled by the real numbers they denote. `str` of a
float is a parameter `render: real -> string`. Each error reporter and
`print` are modelled as sequences the model appends to: `errors`, `reported`
and `output`.

## Model

| member | source | states |
|---|---|---|
| Tokens.PyEqualsIsEquivalence | src/interpreter.py:179-185 | Python `==` on runtime values is reflexive, symmetric and transitive |
| Tokens.PyEqualsVersusStructural | src/interpreter.py:185 | Python `==` is structural equality except between a bool and a float, which compare as numbers, so `True == 1.0` although they are different values |
| Tokens.TokenEqualsIsEquivalence | src/token.py:23-31 | token `==` is reflexive, symmetric and transitive, because Python `==` on the literals is |
| Tokens.TokenEqualityExamples | tests/test_token.py:31-59 | two `+` tokens on line 1 are `==` and not `!=`; `+` and `-` tokens are `!=` and not `==`; a token is `!=` and not `==` to an object of another class |
| Tokens.TokenEqualsIsStructural | src/token.py:23-31 | a token equals itself; equal tokens agree on type, lexeme and line; unless one literal is a bool and the other a float, two tokens are equal iff all four fields are equal |
| Scanning.KeywordOrIdentifier | src/scanner.py:211-214 | an identifier-shaped lexeme gets a keyword's type iff it is in the keyword table (that type), otherwise IDENTIFIER, never EOF |
| Scanning.DecimalValueExamples | src/scanner.py:202-204 | the numerals "10", "25" and "45.67" denote 10, 25 and 45.67 |
| Scanning.IndexFromIsFirst | src/scanner.py:177-180 | the scan for a closing character stops at its first occurrence, or at the end when there is none |
| Scanning.DigitsEndIsLongestRun | src/scanner.py:193-194 | the digit loop consumes the longest run of digits |
| Scanning.AlphaNumericEndIsLongestRun | src/scanner.py:208-209 | the identifier loop consumes the longest run of letters, digits and underscores |
| Scanning.NumberLexemeShape | src/scanner.py:191-200 | a number lexeme is digits with at most one `.`, which sits between two digits; it ends with a digit and no digit follows it |
| Scanning.IdentifierLexemeShape | src/scanner.py:206-209 | an identifier lexeme is a maximal run of letters, digits and underscores |
| Scanning.ScanStep | src/scanner.py:58-125 | each lexeme consumes at least one character and never produces an EOF token |
| Scanning.StringStepShape | src/scanner.py:175-189 | a string runs to the next `"`, its literal is the lexeme without the quotes; with no closing quote the rest is consumed, no token is added and "Unterminated string." is reported |
| Scanning.CommentStepShape | src/scanner.py:102-106 | a `//` comment adds no token, reports nothing, and stops before the next line break or at the end |
| Scanning.OperatorStepShape | src/scanner.py:82-101 | `!`, `=`, `<`, `>` followed by `=` give the two-character token and consume two characters, otherwise the one-character token |
| Scanning.SkippedCharacterSteps | src/scanner.py:109-125 | space, `\r`, `\t` and line break add no token and report nothing; an unknown character reports "Unexpected character." and scanning continues after it |
| Scanning.NewlinesBeforeCountsBreaks | src/scanner.py:115-116 | the line number the scanner keeps is 1 plus the number of line breaks consumed so far |
| Scanning.EmptySourceScan | src/scanner.py:48-56 | the empty source has no lexemes, so it yields no token before EOF and no report |
| Scanning.NumberScanExample | src/scanner.py:191-204 | "10" scans as one NUMBER token with lexeme "10", value 10, line 1 |
| Scanning.OperatorScanExample | src/scanner.py:82-86 | "!=" scans as one BANG_EQUAL token |
| Scanning.UnexpectedScanExample | src/scanner.py:124-125 | "@" adds no token and reports "Unexpected character." on line 1 |
| Scanning.Scanner.constructor | src/scanner.py:40-46 | no tokens, no reports, both cursors at 0, line 1 |
| Scanning.Scanner.ScanTokens | src/scanner.py:48-56 | the result is the tokens of `ScanFrom` followed by one EOF token with empty lexeme, no literal and line 1 + number of line breaks; only the last token is EOF; every other token is spelled by its source slice, in order and without overlap; the reports are those of `ScanFrom` |
| Scanning.Scanner.ScanLexemes | src/scanner.py:50-52 | the loop scans lexeme after lexeme to the end, appending exactly the tokens and reports `ScanFrom` gives, keeping the cursor invariant and exact line count |
| Scanning.Scanner.ScanToken | src/scanner.py:58-125 | one lexeme is consumed exactly as `ScanStep` says: its token (spelled by `source[start..current]`, on the current line) and its report are appended |
| Scanning.Scanner.ScanOperator | src/scanner.py:82-101 | the operator lexeme is scanned as `ScanStep` says |
| Scanning.Scanner.ScanSlash | src/scanner.py:102-108 | a `/` is a SLASH token unless a second `/` starts a comment |
| Scanning.Scanner.ScanLiteral | src/scanner.py:117-125 | a string, number, identifier or unknown character is scanned as `ScanStep` says |
| Scanning.Scanner.SkipComment | src/scanner.py:105-106 | the cursor moves to the next line break or the end |
| Scanning.Scanner.AddToken | src/scanner.py:127-133 | appends exactly one token: the given type and literal, lexeme `source[start..current]`, the current line |
| Scanning.Scanner.Advance | src/scanner.py:135-139 | returns the current character and moves the cursor by one |
| Scanning.Scanner.Match | src/scanner.py:145-153 | consumes one character iff one remains and it is the expected one |
| Scanning.Scanner.ScanString | src/scanner.py:175-189 | the string lexeme is scanned as `StringStep` says |
| Scanning.Scanner.ConsumeStringBody | src/scanner.py:177-180 | stops at the next `"` or at the end, counting the line breaks it passes |
| Scanning.Scanner.ScanNumber | src/scanner.py:191-204 | the number lexeme is scanned as `NumberStep` says |
| Scanning.Scanner.ConsumeDigits | src/scanner.py:193-194 | stops at the end of the run of digits |
| Scanning.Scanner.ConsumeFraction | src/scanner.py:196-200 | consumes a `.` and the digits after it only when a digit follows the `.`, ending where `NumberEnd` says the number ends |
| Scanning.Scanner.ScanIdentifier | src/scanner.py:206-216 | the identifier lexeme is scanned as `WordStep` says, typed by the keyword table |
| Grammar.TokenSym | src/parser.py:122-142 | NUMBER, STRING, true, false and nil tokens stand for the literal `_primary` builds from them; an IDENTIFIER stands for itself and `_primary` makes it a variable; `(`, `)`, `;`, `=`, var and print stand for their type; no other token is a primary |
| Grammar.LevelsNest | src/parser.py:65-120 | each precedence level includes the next tighter one: primary ⊆ unary ⊆ factor ⊆ term ⊆ comparison ⊆ equality |
| Grammar.TermIsLeftAssociative | src/parser.py:94-102 | `a - b - c` has the shape `(a - b) - c`; the right-nested tree is not a term, though both spell the same tokens |
| Grammar.FactorBindsTighter | src/parser.py:94-112 | `a + b * c` has the shape `a + (b * c)`; `(a + b) * c` without parentheses is not a term |
| Grammar.YieldNonEmpty | src/parser.py:114-142 | every tree spells at least one token; exactly the literals and variables spell exactly one |
| Grammar.SingleLiteralYield | src/parser.py:124-132 | a tree that spells one literal token is that literal |
| ParseSpec.TextIsInjective | src/parser.py:41-142 | the five parse error messages have pairwise different texts, so a report's text names its message |
| ParseSpec.Operators | src/parser.py:73-108 | the types each binary level passes to `_match` are exactly that level's operators |
| ParseSpec.ParseFrom | src/parser.py:25-38 | a finished run ends on an EOF token at or after the start; a stopped one fails on a token at or after the start |
| ParseTheory.LoopSound | src/parser.py:69-112 | a level's `while _match(...)` loop extends the tree it starts from by exactly the tokens it consumes, keeps the level's shape, and stops at a token that is not one of the level's operators |
| ParseTheory.LevelSound | src/parser.py:69-112 | a tree `_equality`, `_comparison`, `_term` or `_factor` returns has the level's shape, is spelled by the tokens consumed, and is followed by a token that cannot continue it |
| ParseTheory.ExpressionSound | src/parser.py:65-67 | the tree `_expression` returns has the equality-level shape, is spelled by the tokens consumed, and is followed by a token that is not a binary operator |
| ParseTheory.UnarySound | src/parser.py:114-120 | the tree `_unary` returns is a chain of `!`/`-` around a primary, spelled by the tokens consumed |
| ParseTheory.PrimarySound | src/parser.py:122-142 | the tree `_primary` returns is a literal, a variable or a grouping, spelled by the tokens consumed |
| ParseTheory.GroupSound | src/parser.py:137-140 | the parenthesised alternative returns a grouping spelled by `(`, the inner tokens and `)` |
| ParseTheory.InitializerSound | src/parser.py:42-45 | the optional initializer is absent exactly when no `=` follows the name, else `=` and an expression spelled by the tokens consumed |
| ParseTheory.VarDeclarationSound | src/parser.py:40-48 | a parsed var declaration is spelled by `var`, the name, the optional initializer and `;` |
| ParseTheory.PrintStatementSound | src/parser.py:55-58 | a parsed print statement is spelled by `print`, the expression and `;` |
| ParseTheory.ExpressionStatementSound | src/parser.py:60-63 | a parsed expression statement is spelled by the expression and `;` |
| ParseTheory.DeclarationSound | src/parser.py:31-53 | a parsed declaration is spelled by the tokens consumed; it is a var statement iff it starts with `var`, a print statement iff it starts with `print` |
| ParseTheory.ParseFromSound | src/parser.py:25-29 | the statements of a finished run are declarations whose yields, concatenated, spell every token before EOF |
| ParseTheory.LevelComplete | src/parser.py:69-112 | every tree of a level's shape, spelled by the tokens from the cursor and followed by a token that cannot continue it, is what that level's method returns |
| ParseTheory.UnaryComplete | src/parser.py:114-120 | every unary-shaped tree spelled by the tokens from the cursor is what `_unary` returns |
| ParseTheory.PrimaryComplete | src/parser.py:122-142 | every primary spelled by the tokens from the cursor is what `_primary` returns |
| ParseTheory.ExpressionComplete | src/parser.py:65-67 | every equality-shaped tree spelled by the tokens from the cursor, followed by a token that is not a binary operator, is what `_expression` returns |
| ParseTheory.InitializerComplete | src/parser.py:42-45 | every initializer spelled by the tokens from the cursor is what the `=` branch returns |
| ParseTheory.DeclarationComplete | src/parser.py:31-63 | every var, print or expression statement spelled by the tokens from the cursor is what `_declaration` returns |
| ParseTheory.ParseFromComplete | src/parser.py:25-29 | every list of declarations whose yields spell the tokens up to EOF is what `parse` returns |
| ParseTheory.ExpressionAtIff | src/parser.py:65-142 | `_expression` returns tree `e` and stops at `n` iff `e` has the equality-level shape, the tokens up to `n` spell it, and the token at `n` is not a binary operator |
| ParseTheory.DeclarationAtIff | src/parser.py:31-63 | `_declaration` (up to its error handling) returns statement `s` and stops at `n` iff the tokens up to `n` spell `s` |
| ParseTheory.ParseFromIff | src/parser.py:25-38 | `parse` finishes with statements `ss` iff they are declarations whose yields spell every token before the EOF token |
| ParseTheory.ExpressionTreeIsUnique | src/parser.py:65-142 | a stretch of tokens closed by a token that cannot continue it spells at most one equality-level tree |
| ParseTheory.DeclarationIsUnique | src/parser.py:31-63 | a stretch of tokens spells at most one declaration |
| ParseTheory.ProgramIsUnique | src/parser.py:25-29 | the tokens before EOF spell at most one list of declarations |
| ParseTheory.YieldRespells | src/parser.py:114-142 | every symbol of an equality-level tree stands for a token that spells it back |
| ParseTheory.YieldDeterminesTree | src/parser.py:65-142 | the expression grammar is unambiguous: two equality-level trees with the same yield are equal |
| ParseTheory.SingleTokenExpression | src/parser.py:122-132 | a literal token followed by EOF parses as that literal, consuming the one token |
| ParseTheory.ParseNumberExample | tests/test_parser.py:16-25 | NUMBER "42" (42.0) then EOF parses as the literal 42.0 |
| ParseTheory.ParseStringExample | tests/test_parser.py:27-38 | STRING "\"hello\"" ("hello") then EOF parses as the literal "hello" |
| ParseTheory.ParseTrueExample | tests/test_parser.py:41-49 | TRUE then EOF parses as the literal true |
| ParseTheory.ParseFalseExample | tests/test_parser.py:52-63 | FALSE then EOF parses as the literal false |
| Parsing.NextSyncPoint | src/parser.py:163-188 | the point where recovery stops lies at or after the start, on a token |
| Parsing.NextSyncPointIsFirst | src/parser.py:163-188 | recovery stops at the first token that is EOF, follows a `;`, or is class, fun, var, for, if, while, print or return, and at no earlier one |
| Parsing.SyncTarget | src/parser.py:163-188 | recovery from a failure at a token stops at or after it, on a token |
| Parsing.SyncTargetIsFirst | src/parser.py:163-188 | recovery stops at a stopping point; unless the failing token is EOF it stops after it, at the first stopping point there |
| Parsing.Parser.constructor | src/parser.py:15-23 | stores the tokens, cursor 0, no reports |
| Parsing.Parser.Parse | src/parser.py:25-38 | the statements, cursor and reports are those `ParseFrom` gives: every declaration up to EOF with no report; or, at the first failing declaration, exactly its report and the cursor where `_synchronize` stops, after which the run aborts |
| Parsing.Parser.Declaration | src/parser.py:31-38 | does what `DeclarationAt` says; after a failure, one report (token, message) is added and the cursor is where `_synchronize` stops from the failing token |
| Parsing.Parser.VarDeclaration | src/parser.py:40-48 | does what `VarDeclarationAt` says: the statement and the cursor after `;` with no report, or one report (token, message) and the cursor at that token |
| Parsing.Parser.Initializer | src/parser.py:42-45 | does what `InitializerAt` says: no initializer without moving when `=` does not follow, otherwise `=` and an expression |
| Parsing.Parser.Statement | src/parser.py:50-53 | does what `StatementAt` says: a print statement when the token is `print`, an expression statement otherwise |
| Parsing.Parser.PrintStatement | src/parser.py:55-58 | does what `PrintStatementAt` says, including "Expect ';' after value." at the token that is not `;` |
| Parsing.Parser.ExpressionStatement | src/parser.py:60-63 | does what `ExpressionStatementAt` says, including "Expect ';' after expression." at the token that is not `;` |
| Parsing.Parser.Expression | src/parser.py:65-67 | does what `ExpressionAt` says |
| Parsing.Parser.Equality | src/parser.py:69-77 | does what `LevelAt` says for the equality level |
| Parsing.Parser.EqualityRound | src/parser.py:73-76 | one round of the loop continues it exactly as `LoopAt` says, or ends it with `LoopAt`'s result |
| Parsing.Parser.Comparison | src/parser.py:79-92 | does what `LevelAt` says for the comparison level |
| Parsing.Parser.ComparisonRound | src/parser.py:83-91 | one round of the loop continues it exactly as `LoopAt` says, or ends it with `LoopAt`'s result |
| Parsing.Parser.Term | src/parser.py:94-102 | does what `LevelAt` says for the term level |
| Parsing.Parser.TermRound | src/parser.py:98-101 | one round of the loop continues it exactly as `LoopAt` says, or ends it with `LoopAt`'s result |
| Parsing.Parser.Factor | src/parser.py:104-112 | does what `LevelAt` says for the factor level |
| Parsing.Parser.FactorRound | src/parser.py:108-111 | one round of the loop continues it exactly as `LoopAt` says, or ends it with `LoopAt`'s result |
| Parsing.Parser.Unary | src/parser.py:114-120 | does what `UnaryAt` says |
| Parsing.Parser.Primary | src/parser.py:122-142 | does what `PrimaryAt` says, including "Expect expression." at a token no alternative accepts, without consuming it |
| Parsing.Parser.Atom | src/parser.py:124-135 | the single-token alternatives: the tree `PrimaryOf` gives, consuming one token exactly when there is one |
| Parsing.Parser.Group | src/parser.py:137-140 | does what `GroupAt` says, including "Expect ')' after expression." at the token that is not `)` |
| Parsing.Parser.Match | src/parser.py:144-150 | consumes one token iff the current token is not EOF and its type is among those given; otherwise nothing changes |
| Parsing.Parser.Consume | src/parser.py:152-156 | returns and consumes the current token when it has the type, otherwise reports (current token, message) and fails without moving |
| Parsing.Parser.Error | src/parser.py:158-161 | appends exactly the report (token, message) |
| Parsing.Parser.Synchronize | src/parser.py:163-188 | moves the cursor to `SyncTarget` of where it starts: it stays on EOF, otherwise it stops at the first stopping point after the current token |
| Parsing.Parser.Check | src/parser.py:190-194 | true iff the current token is not EOF and has the given type |
| Parsing.Parser.Advance | src/parser.py:196-200 | moves one token forward unless at EOF, and returns the previous token; the cursor stays on a token |
| Faults.Text | src/environment.py:17-23 | the undefined-variable message carries the variable's name, character for character, between its quotes |
| Faults.TextIsInjective | src/interpreter.py:187-199 | two runtime messages have the same text iff they are the same message, so a report's text names its message |
| Faults.Undefined | src/environment.py:16-23 | the error for an unbound name carries the name's token and reads "Undefined variable '<lexeme>'." |
| Environments.GetAfterDefine | src/environment.py:9-21 | after `define(n, v)`, `get` of `n` returns `v`, whatever was bound before |
| Environments.DefineKeepsOthers | src/environment.py:9-10 | `define` changes no other name's binding |
| Environments.AssignBound | src/environment.py:12-15 | `assign` to a bound name succeeds, keeps the set of names, makes `get` return the new value, and changes no other binding |
| Environments.AssignUnbound | src/environment.py:16-17 | `assign` to an unbound name fails with the same error as `get` |
| Environments.Environment.constructor | src/environment.py:6-7 | no bindings |
| Environments.Environment.Define | src/environment.py:9-10 | binds the name to the value, replacing any binding it had |
| Environments.Environment.Assign | src/environment.py:12-17 | succeeds iff the name was bound, and then rebinds it; otherwise the bindings are unchanged and the error is the undefined-variable error |
| Environments.Environment.Get | src/environment.py:19-23 | the bound value iff the name is bound, otherwise the undefined-variable error; nothing changes |
| Semantics.FalsyValues | src/interpreter.py:171-177 | exactly nil and false are falsy |
| Semantics.IsEqualIsPythonEquality | src/interpreter.py:179-185 | `_is_equal` is Python `==` on these values, hence an equivalence relation, and it holds between `true` and `1.0` |
| Semantics.UnaryRules | src/interpreter.py:120-132 | `!` negates truthiness and never fails; `-` negates a float, raises "Operand must be a number." for a non-number, and fails the float assertion on a bool |
| Semantics.EqualityOperators | src/interpreter.py:85-88 | `==` and `!=` never fail, `==` is `_is_equal`, and `!=` is its negation |
| Semantics.PlusRule | src/interpreter.py:94-102 | `+` adds two numbers and concatenates two strings; it fails, with "Operands must be two numbers or two strings.", exactly on every other pair |
| Semantics.NumericOperatorsNeedNumbers | src/interpreter.py:61-112 | `-`, `/`, `*` and the comparisons raise "Operands must be numbers." unless both operands are numbers, fail the float assertion on a bool, and succeed on two floats except division by zero |
| Semantics.Comparisons | src/interpreter.py:65-84 | each comparison on two floats gives the comparison of the numbers |
| Semantics.StringifyNumber | src/interpreter.py:138-149 | a float prints as its text without a trailing ".0", otherwise as its text |
| Semantics.StringifyExamples | src/interpreter.py:138-149 | 3.0 prints as "3", 2.5 as "2.5", nil as "nil", false as "False", a string as itself |
| Semantics.EvalKeepsNames | src/interpreter.py:54-57 | evaluation never adds or removes a binding: assignment only rebinds bound names |
| Semantics.AssignFreeEvalKeepsBindings | src/interpreter.py:38-39 | an expression without assignment leaves the bindings unchanged |
| Semantics.LeftOperandFirst | src/interpreter.py:61-62 | the left operand is evaluated first and its assignment is visible to the right one: `(a = 2) + a` is 4 |
| Semantics.OperatorErrorsFollowOperands | src/interpreter.py:61-64 | the operator rule is applied only after both operands evaluated, to their values |
| Semantics.FailingLeftOperandStops | src/interpreter.py:61-62 | an error in the left operand stops the binary expression before the right operand is evaluated |
| Semantics.VarStatementDefines | src/interpreter.py:31-36 | a var statement defines nil without an initializer, else the initializer's value; on success it adds exactly that name and prints nothing |
| Semantics.IfRunsOneBranch | src/interpreter.py:48-52 | after the condition, the then branch runs iff it is truthy, else the else branch when present, else nothing happens |
| Semantics.ExecAllConcat | src/interpreter.py:161-162 | running two statement lists in turn is running their concatenation; the second does not start if the first stopped |
| Semantics.ExecKeepsOutput | src/interpreter.py:44-46 | executing a statement only appends to the printed output |
| Semantics.ExecAllKeepsOutput | src/interpreter.py:26-27 | running statements only appends to the printed output |
| Semantics.StopsAtFirstFault | src/interpreter.py:22-29 | a run that stops stops at a statement all of whose predecessors completed, and its outcome is that statement's |
| Semantics.FirstFault | src/interpreter.py:25-29 | the index of the statement that stops a failing run: the ones before it complete, it fails |
| Interpreting.Interpreter.constructor | src/interpreter.py:19-20 | a fresh, empty environment; nothing printed or reported |
| Interpreting.Interpreter.Evaluate | src/interpreter.py:38-136 | the result and the new bindings are those `Eval` gives from the old bindings |
| Interpreting.Interpreter.Execute | src/interpreter.py:31-52 | the outcome, the new bindings and the output are those `Exec` gives |
| Interpreting.Interpreter.ExecuteBlock | src/interpreter.py:157-165 | the environment field is restored to the previous one on every exit; the given environment's bindings, the output and the outcome are those of `ExecAll` |
| Interpreting.Interpreter.Interpret | src/interpreter.py:22-29 | runs `ExecAll`; a runtime error is reported exactly once and nothing escapes; any other exception escapes unreported; a completed run reports nothing |
| AstPrinting.ShowDefinedIffPrintable | src/ast_printer.py:5-23 | printing succeeds exactly on trees built from binary, grouping, literal and unary nodes |
| AstPrinting.ParenthesesMatchGroups | src/ast_printer.py:11-31 | when no literal or operator contains a parenthesis, the printed text has one `(` and one `)` per binary, grouping and unary node |
| AstPrinting.ParenTextSingle | src/ast_printer.py:25-31 | `_parenthesize` of one part is "(" + name + " " + part + ")" |
| AstPrinting.ParenTextPair | src/ast_printer.py:25-31 | `_parenthesize` of two parts is "(" + name + " " + first + " " + second + ")" |
| AstPrinting.PrinterExamples | tests/test_ast_printer.py:7-35 | with floats printed by `render`: `1 + 2` prints as "(+ " + render(1) + " " + render(2) + ")", a grouped 42 as "(group " + render(42) + ")", `-500` as "(- " + render(500) + ")", and a string literal "123" as 123 |
| AstPrinting.NestedPrinterExample | tests/test_ast_printer.py:38-46 | `-123 * (45.67)` prints as "(* (- 123) (group 45.67))" |
| AstPrinting.Print | src/ast_printer.py:8-23 | the printed text is `Show`'s, or no text for a node the printer has no visit method for |
| AstPrinting.Parenthesize | src/ast_printer.py:25-31 | "(" and the name, then a space and each printed sub-expression in order, then ")"; no text if a sub-expression cannot be printed |

## Left out

- Floating point: numbers are exact reals. `float(text)` in the scanner is the exact decimal value (`DecimalValue`), with no rounding to a double. `str` of a float is the parameter `render`. Overflow to infinity and NaN are not modelled.
- Character classes are ASCII. `str.isdigit` and `str.isalpha` also accept other Unicode digits and letters.
- I/O: `print` appends a line to `output`. The parser's and scanner's error reporters append to `errors`. The interpreter's error reporter appends to `reported`. The drivers `src/plox.py`, `src/lox.py` and `src/main.py` (file reading, prompt, exit codes) and `src/constants.py` are not part of this model.
- Visitor dispatch (`accept`, `src/visitor.py`, the `Visitor` classes) is replaced by `match`. In Python, `Expr.Visitor` declares `visit_logical_expr` as an abstract method and `Interpreter` does not define it, so `Interpreter()` raises `TypeError` and no interpreter object can exist. The model lets an interpreter exist anyway. Evaluating a logical expression is then a state the source never reaches; the model's own choice for it is the host error `NoLogicalVisitor`. No short-circuit semantics is invented.
- Block statements: `visit_block_stmt` calls `Environment(self._environment)`, but `Environment.__init__` takes no argument. Executing a block therefore fails with a Python `TypeError` that `interpret` does not catch (`EnvironmentTakesNoArgument`). `_execute_block` itself is modelled as written, with the environment as a parameter. There are no nested scopes and no outward lookup.
- Python exceptions other than the runtime error are kept apart as `HostError` and escape from `Interpret`:
  - `assert isinstance(.., float)` failing on a bool operand;
  - float division by zero.
- The token-type field is one field, `tokenType`. `src/token.py` stores `token_type`, while the parser and interpreter read `.type`.
- `src/stmt.py` defines only `Expression` and `Print`. The var, block and if statements the parser and interpreter use are added with the fields that code reads.
- After a syntax error, `_declaration` recovers with `_synchronize` and then executes `assert False`. `parse` therefore ends in `Aborted` instead of resuming.
- Runtime values are nil, bool, float and string. Other Python objects cannot arise from the parser.
- Tests: the expected values of these tests appear as example lemmas, and no other test is modelled:
  - `tests/test_scanner.py`: `test_scan_empty_source` (`EmptySourceScan`) and `test_scan_number` (`NumberScanExample`). The variable-assignment, string, comparison and bracket scans are not stated as examples; the step lemmas (`OperatorStepShape`, `StringStepShape`, `SkippedCharacterSteps`) state what each of their lexemes becomes.
  - `tests/test_parser.py`: the four `_expression` cases (`ParseNumberExample`, `ParseStringExample`, `ParseTrueExample`, `ParseFalseExample`); parser creation is the constructor's contract.
  - `tests/test_token.py`: the three equality cases (`TokenEqualityExamples`). `__repr__` and `__str__` are not modelled; the tests call the constructor with a keyword `type` that `Token.__init__` does not accept.
  - `tests/test_ast_printer.py`: all five cases (`PrinterExamples`, `NestedPrinterExample`).
- AstPrinting.PrinterExamples: states the printed text with each float part written `render(x)`, since `str` of a float is a parameter here and is not constrained; the tests build literals from Python ints (`1`, `2`, `42`, `500`, `123`), which the model's values cannot hold, so the first three become floats and the literal `123` becomes the string "123", which prints the same.
- Token lines: a token records the line on which its lexeme ends. `_add_token` reads `_line` after the whole lexeme has been consumed, so a string spanning several lines carries its last line.
