/**
 * A reference definition of the parser of src/parser.py: one function per
 * parsing method, on a token list and an index instead of an object with a
 * cursor. `XAt(ts, k)` is what the method `X` does when the cursor is at
 * `k`: either `Ok(v, n)`, the value it returns and the index the cursor ends
 * at, or `Err(at, m)`, the index of the token it reports with message `m`
 * before raising. The class `Parsing.Parser` is proved to compute exactly
 * these functions.
 *
 * The postconditions say that each function consumes at least one token on
 * success and never passes the end-of-file token. Module `ParseTheory`
 * proves that what the functions accept is exactly what the grammar of
 * module `Grammar` spells.
 */
module ParseSpec {
  import opened Wrappers
  import opened Tokens
  import opened Ast
  import opened Grammar

  /** The messages the parser reports; `Text` gives each one's exact wording. */
  datatype ParseMessage =
    | ExpectExpression
    | ExpectRightParen
    | ExpectVariableName
    | ExpectSemicolonAfterValue
    | ExpectSemicolonAfterExpression

  function Text(m: ParseMessage): string
  {
    match m
    case ExpectExpression => "Expect expression."
    case ExpectRightParen => "Expect ')' after expression."
    case ExpectVariableName => "Expect variable name."
    case ExpectSemicolonAfterValue => "Expect ';' after value."
    case ExpectSemicolonAfterExpression => "Expect ';' after expression."
  }

  /** Different messages read differently, so a report's text determines its message. */
  lemma TextIsInjective(m: ParseMessage, n: ParseMessage)
    ensures Text(m) == Text(n) <==> m == n
  {
  }

  /** The messages an expression can fail with. */
  const ExpressionMessages: set<ParseMessage> := {ExpectExpression, ExpectRightParen}

  /** The token list ends with the end-of-file token and the cursor is on a token. */
  predicate ValidCursor(ts: seq<Token>, cursor: nat)
  {
    |ts| > 0 && ts[|ts| - 1].tokenType == Eof && cursor < |ts|
  }

  /** `_check` on a token: it has the given type and is not the end-of-file token. */
  predicate Accepts(t: Token, tokenType: TokenType)
  {
    t.tokenType != Eof && t.tokenType == tokenType
  }

  /** What a parsing function gives: a value and the index after it, or the index and message of a report. */
  datatype Attempt<T> = Ok(value: T, next: nat) | Err(at: nat, message: ParseMessage)

  /** The four binary precedence levels, loosest first. */
  datatype Level = EqualityLevel | ComparisonLevel | TermLevel | FactorLevel

  /** The operator types each level's loop passes to `_match`. */
  function Operators(level: Level): (ops: seq<TokenType>)
    ensures forall t :: t in ops <==> IsOperatorOf(level, t)
  {
    match level
    case EqualityLevel => [BangEqual, EqualEqual]
    case ComparisonLevel => [Greater, GreaterEqual, Less, LessEqual]
    case TermLevel => [Minus, Plus]
    case FactorLevel => [Slash, Star]
  }

  predicate IsOperatorOf(level: Level, t: TokenType)
  {
    match level
    case EqualityLevel => IsEqualityOperator(t)
    case ComparisonLevel => IsComparisonOperator(t)
    case TermLevel => IsTermOperator(t)
    case FactorLevel => IsFactorOperator(t)
  }

  /** The next tighter level. */
  function Tighter(level: Level): Level
    requires level != FactorLevel
  {
    match level
    case EqualityLevel => ComparisonLevel
    case ComparisonLevel => TermLevel
    case TermLevel => FactorLevel
  }

  function Rank(level: Level): nat
  {
    match level
    case EqualityLevel => 5
    case ComparisonLevel => 4
    case TermLevel => 3
    case FactorLevel => 2
  }

  /**
   * The `while self._match(...)` loop of a binary level, entered with the
   * tree `left` built so far and the cursor at `j`: while the current token
   * is an operator of the level, parse an operand after it and group to the
   * left.
   */
  function LoopAt(ts: seq<Token>, level: Level, left: Expr, j: nat): (r: Attempt<Expr>)
    requires ValidCursor(ts, j)
    ensures r.Ok? ==> j <= r.next < |ts|
    ensures r.Err? ==> j < r.at < |ts| && r.message in ExpressionMessages
    decreases |ts| - j, 0
  {
    if IsOperatorOf(level, ts[j].tokenType) then
      match OperandAt(ts, level, j + 1)
      case Err(at, message) => Err(at, message)
      case Ok(right, n) => LoopAt(ts, level, BinaryExpr(left, ts[j], right), n)
    else Ok(left, j)
  }

  /** One round of a level's loop: at an operator, the operand, then the rest of the loop. */
  lemma LoopUnfold(ts: seq<Token>, level: Level, left: Expr, j: nat)
    requires ValidCursor(ts, j) && IsOperatorOf(level, ts[j].tokenType)
    ensures OperandAt(ts, level, j + 1).Err? ==> LoopAt(ts, level, left, j) == Err(OperandAt(ts, level, j + 1).at, OperandAt(ts, level, j + 1).message)
    ensures OperandAt(ts, level, j + 1).Ok? ==> LoopAt(ts, level, left, j) == LoopAt(ts, level, BinaryExpr(left, ts[j], OperandAt(ts, level, j + 1).value), OperandAt(ts, level, j + 1).next)
  {
  }

  /** A level's loop stops, with what it has, at a token that is not one of the level's operators. */
  lemma LoopStop(ts: seq<Token>, level: Level, left: Expr, j: nat)
    requires ValidCursor(ts, j) && !IsOperatorOf(level, ts[j].tokenType)
    ensures LoopAt(ts, level, left, j) == Ok(left, j)
  {
  }

  /** The operand of a level: the next tighter level's method, `_unary` below `_factor`. */
  function OperandAt(ts: seq<Token>, level: Level, k: nat): (r: Attempt<Expr>)
    requires ValidCursor(ts, k)
    ensures r.Ok? ==> k < r.next < |ts|
    ensures r.Err? ==> k <= r.at < |ts| && r.message in ExpressionMessages
    decreases |ts| - k, 2 * Rank(level)
  {
    if level == FactorLevel then UnaryAt(ts, k) else LevelAt(ts, Tighter(level), k)
  }

  /** `_equality`, `_comparison`, `_term` and `_factor`: an operand, then the level's loop. */
  function LevelAt(ts: seq<Token>, level: Level, k: nat): (r: Attempt<Expr>)
    requires ValidCursor(ts, k)
    ensures r.Ok? ==> k < r.next < |ts|
    ensures r.Err? ==> k <= r.at < |ts| && r.message in ExpressionMessages
    decreases |ts| - k, 2 * Rank(level) + 1
  {
    match OperandAt(ts, level, k)
    case Err(at, message) => Err(at, message)
    case Ok(left, n) => LoopAt(ts, level, left, n)
  }

  /** `_expression`: the equality level. */
  function ExpressionAt(ts: seq<Token>, k: nat): (r: Attempt<Expr>)
    requires ValidCursor(ts, k)
    ensures r.Ok? ==> k < r.next < |ts|
    ensures r.Err? ==> k <= r.at < |ts| && r.message in ExpressionMessages
    decreases |ts| - k, 12
  {
    LevelAt(ts, EqualityLevel, k)
  }

  /** `_unary`: `!` or `-` and a unary expression after it, otherwise a primary. */
  function UnaryAt(ts: seq<Token>, k: nat): (r: Attempt<Expr>)
    requires ValidCursor(ts, k)
    ensures r.Ok? ==> k < r.next < |ts|
    ensures r.Err? ==> k <= r.at < |ts| && r.message in ExpressionMessages
    decreases |ts| - k, 3
  {
    if ts[k].tokenType in [Bang, Minus] then
      match UnaryAt(ts, k + 1)
      case Err(at, message) => Err(at, message)
      case Ok(right, n) => Ok(UnaryExpr(ts[k], right), n)
    else PrimaryAt(ts, k)
  }

  /**
   * `_primary`: a single-token primary (`PrimaryOf`), a parenthesised
   * expression after `(`, and otherwise "Expect expression." at the current
   * token.
   */
  function PrimaryAt(ts: seq<Token>, k: nat): (r: Attempt<Expr>)
    requires ValidCursor(ts, k)
    ensures r.Ok? ==> k < r.next < |ts|
    ensures r.Err? ==> k <= r.at < |ts| && r.message in ExpressionMessages
    decreases |ts| - k, 2
  {
    match PrimaryOf(ts[k])
    case Some(e) => Ok(e, k + 1)
    case None => if ts[k].tokenType == LeftParen then GroupAt(ts, k) else Err(k, ExpectExpression)
  }

  /** The grouping alternative of `_primary`, from the `(` at `p`: an expression, then `)`. */
  function GroupAt(ts: seq<Token>, p: nat): (r: Attempt<Expr>)
    requires ValidCursor(ts, p) && ts[p].tokenType == LeftParen
    ensures r.Ok? ==> p < r.next < |ts|
    ensures r.Err? ==> p < r.at < |ts| && r.message in ExpressionMessages
    decreases |ts| - p, 1
  {
    match ExpressionAt(ts, p + 1)
    case Err(at, message) => Err(at, message)
    case Ok(inner, n) =>
      if Accepts(ts[n], RightParen) then Ok(GroupingExpr(inner), n + 1) else Err(n, ExpectRightParen)
  }

  /** The optional `= initializer` of `_var_declaration`: nothing unless the current token is `=`. */
  function InitializerAt(ts: seq<Token>, k: nat): (r: Attempt<Option<Expr>>)
    requires ValidCursor(ts, k)
    ensures r.Ok? ==> k <= r.next < |ts| && (r.value.None? <==> r.next == k)
    ensures r.Err? ==> k < r.at < |ts| && r.message in ExpressionMessages
  {
    if ts[k].tokenType == Equal then
      match ExpressionAt(ts, k + 1)
      case Err(at, message) => Err(at, message)
      case Ok(e, n) => Ok(Some(e), n)
    else Ok(None, k)
  }

  /** `_var_declaration`, from the `var` at `v`: IDENTIFIER, an optional initializer, `;`. */
  function VarDeclarationAt(ts: seq<Token>, v: nat): (r: Attempt<Stmt>)
    requires ValidCursor(ts, v) && ts[v].tokenType == Var
    ensures r.Ok? ==> v < r.next < |ts|
    ensures r.Err? ==> v < r.at < |ts|
  {
    if !Accepts(ts[v + 1], Identifier) then Err(v + 1, ExpectVariableName)
    else
      match InitializerAt(ts, v + 2)
      case Err(at, message) => Err(at, message)
      case Ok(init, n) =>
        if Accepts(ts[n], Semicolon) then Ok(VarStmt(ts[v + 1], init), n + 1) else Err(n, ExpectSemicolonAfterValue)
  }

  /** `_print_statement`, from the `print` at `p`: an expression, then `;`. */
  function PrintStatementAt(ts: seq<Token>, p: nat): (r: Attempt<Stmt>)
    requires ValidCursor(ts, p) && ts[p].tokenType == Print
    ensures r.Ok? ==> p < r.next < |ts|
    ensures r.Err? ==> p < r.at < |ts|
  {
    match ExpressionAt(ts, p + 1)
    case Err(at, message) => Err(at, message)
    case Ok(value, n) =>
      if Accepts(ts[n], Semicolon) then Ok(PrintStmt(value), n + 1) else Err(n, ExpectSemicolonAfterValue)
  }

  /** `_expression_statement`: an expression, then `;`. */
  function ExpressionStatementAt(ts: seq<Token>, k: nat): (r: Attempt<Stmt>)
    requires ValidCursor(ts, k)
    ensures r.Ok? ==> k < r.next < |ts|
    ensures r.Err? ==> k <= r.at < |ts|
  {
    match ExpressionAt(ts, k)
    case Err(at, message) => Err(at, message)
    case Ok(value, n) =>
      if Accepts(ts[n], Semicolon) then Ok(ExpressionStmt(value), n + 1) else Err(n, ExpectSemicolonAfterExpression)
  }

  /** `_statement`: a print statement after `print`, otherwise an expression statement. */
  function StatementAt(ts: seq<Token>, k: nat): (r: Attempt<Stmt>)
    requires ValidCursor(ts, k)
    ensures r.Ok? ==> k < r.next < |ts|
    ensures r.Err? ==> k <= r.at < |ts|
  {
    if ts[k].tokenType == Print then PrintStatementAt(ts, k) else ExpressionStatementAt(ts, k)
  }

  /** `_declaration` up to its error handling: a var declaration after `var`, otherwise a statement. */
  function DeclarationAt(ts: seq<Token>, k: nat): (r: Attempt<Stmt>)
    requires ValidCursor(ts, k)
    ensures r.Ok? ==> k < r.next < |ts|
    ensures r.Err? ==> k <= r.at < |ts|
  {
    if ts[k].tokenType == Var then VarDeclarationAt(ts, k) else StatementAt(ts, k)
  }

  /**
   * The outcome of `parse`: every declaration up to the end-of-file token at
   * `end` parsed, or the first one that failed reported at `at`.
   */
  datatype Run = Finished(statements: seq<Stmt>, end: nat) | Stopped(at: nat, message: ParseMessage)

  /** A run preceded by declarations that already parsed. */
  function Resume(done: seq<Stmt>, rest: Run): Run
  {
    match rest
    case Finished(statements, end) => Finished(done + statements, end)
    case Stopped(_, _) => rest
  }

  /**
   * `parse` from index `k`: declarations one after another until the
   * end-of-file token; the first that fails stops the run.
   */
  function ParseFrom(ts: seq<Token>, k: nat): (r: Run)
    requires ValidCursor(ts, k)
    ensures r.Finished? ==> k <= r.end < |ts| && ts[r.end].tokenType == Eof
    ensures r.Stopped? ==> k <= r.at < |ts|
    decreases |ts| - k
  {
    if ts[k].tokenType == Eof then Finished([], k)
    else
      match DeclarationAt(ts, k)
      case Err(at, message) => Stopped(at, message)
      case Ok(s, n) => Resume([s], ParseFrom(ts, n))
  }

  /** Declarations that parsed before a run can be moved into it one at a time. */
  lemma ResumeTwice(done: seq<Stmt>, s: Stmt, rest: Run)
    ensures Resume(done, Resume([s], rest)) == Resume(done + [s], rest)
  {
    if rest.Finished? {
      AppendIsAssociative(done, [s], rest.statements);
    }
  }
}
