/**
 * The recursive-descent parser of src/parser.py: a cursor over a token list
 * that ends with the end-of-file token.
 *
 * Each parsing method returns a `Result`: `Failure` stands for the
 * `ParseError` the original raises after calling its error reporter, and the
 * reporter's calls are recorded in `errors`. Every method is proved to do
 * exactly what the matching function of module `ParseSpec` says: the same
 * tree, the same final cursor, and the same report.
 */
module Parsing {
  import opened Wrappers
  import opened Tokens
  import opened Ast
  import opened Grammar
  import opened ParseSpec

  /** A call made to the parser's error reporter: the offending token and the message. */
  datatype ParseReport = ParseReport(token: Token, message: ParseMessage)

  /** The `ParseError` exception; it carries nothing, the report has already been made. */
  datatype ParseError = ParseError

  /**
   * The outcome of `parse`: the statements, or the `AssertionError` that the
   * `assert False` after error recovery in `_declaration` raises.
   */
  datatype ParseOutcome = Parsed(statements: seq<Stmt>) | Aborted

  /**
   * A method's result, final cursor and reports are those of the attempt `a`:
   * on success the value, the index after it and no report; on failure a
   * `ParseError`, the cursor on the failing token and one report of it.
   */
  ghost predicate Answers<T>(a: Attempt<T>, ts: seq<Token>, r: Result<T, ParseError>, cursor: nat,
                             errors0: seq<ParseReport>, errors: seq<ParseReport>)
  {
    match a
    case Ok(value, next) => r == Success(value) && cursor == next && errors == errors0
    case Err(at, message) => r.Failure? && cursor == at && at < |ts| && errors == errors0 + [ParseReport(ts[at], message)]
  }

  /**
   * Like `Answers`, but after a failure the cursor is where `_synchronize`
   * stops when it starts from the failing token.
   */
  ghost predicate Recovered<T>(a: Attempt<T>, ts: seq<Token>, r: Result<T, ParseError>, cursor: nat,
                               errors0: seq<ParseReport>, errors: seq<ParseReport>)
  {
    match a
    case Ok(value, next) => r == Success(value) && cursor == next && errors == errors0
    case Err(at, message) =>
      && r.Failure? && ValidCursor(ts, at) && cursor == SyncTarget(ts, at)
      && errors == errors0 + [ParseReport(ts[at], message)]
  }

  /** A failure answered at `failedAt`, followed by recovery from there, is a recovered failure. */
  lemma Recover<T>(a: Attempt<T>, ts: seq<Token>, r: Result<T, ParseError>, failedAt: nat, cursor: nat,
                   errors0: seq<ParseReport>, errors: seq<ParseReport>)
    requires Answers(a, ts, r, failedAt, errors0, errors) && r.Failure?
    requires ValidCursor(ts, failedAt) && cursor == SyncTarget(ts, failedAt)
    ensures Recovered(a, ts, r, cursor, errors0, errors)
  {
  }

  /** The keywords `_synchronize` stops in front of. */
  predicate IsStatementStart(t: TokenType)
  {
    t == Class || t == Fun || t == Var || t == For || t == If || t == While || t == Print || t == Return
  }

  /** `_synchronize` stops at index `k`: at the end, right after a `;`, or before a statement keyword. */
  predicate SyncPoint(ts: seq<Token>, k: nat)
    requires k < |ts|
  {
    ts[k].tokenType == Eof || (k > 0 && ts[k - 1].tokenType == Semicolon) || IsStatementStart(ts[k].tokenType)
  }

  /**
   * The first index at or after `k` where `_synchronize` stops; the last
   * token is the end-of-file token, so there always is one.
   */
  function NextSyncPoint(ts: seq<Token>, k: nat): (r: nat)
    requires k < |ts| && ts[|ts| - 1].tokenType == Eof
    ensures k <= r < |ts|
    decreases |ts| - k
  {
    if SyncPoint(ts, k) then k else NextSyncPoint(ts, k + 1)
  }

  /** Past an index that is not a stopping point, the next one is the same. */
  lemma NextSyncPointStep(ts: seq<Token>, k: nat)
    requires k < |ts| && ts[|ts| - 1].tokenType == Eof && !SyncPoint(ts, k)
    ensures k + 1 < |ts| && NextSyncPoint(ts, k + 1) == NextSyncPoint(ts, k)
  {
  }

  /** `NextSyncPoint` is a stopping point, and no index before it (from `k` on) is one. */
  lemma {:induction false} NextSyncPointIsFirst(ts: seq<Token>, k: nat)
    requires k < |ts| && ts[|ts| - 1].tokenType == Eof
    ensures SyncPoint(ts, NextSyncPoint(ts, k))
    ensures forall j :: k <= j < NextSyncPoint(ts, k) ==> !SyncPoint(ts, j)
    decreases |ts| - k
  {
    if !SyncPoint(ts, k) {
      var r := NextSyncPoint(ts, k + 1);
      NextSyncPointIsFirst(ts, k + 1);
      forall j | k <= j < r
        ensures !SyncPoint(ts, j)
      {
        if j == k {
          assert !SyncPoint(ts, k);
        }
      }
    }
  }

  /**
   * Where the cursor ends after a declaration failed at `at`: `_synchronize`
   * does not move at the end-of-file token, and otherwise skips that token
   * and stops at the next stopping point.
   */
  function SyncTarget(ts: seq<Token>, at: nat): (r: nat)
    requires ValidCursor(ts, at)
    ensures at <= r < |ts|
  {
    if ts[at].tokenType == Eof then at else NextSyncPoint(ts, at + 1)
  }

  /**
   * Recovery from a failure at `at` stops at a stopping point, and at the
   * first one after `at` unless `at` holds the end-of-file token.
   */
  lemma SyncTargetIsFirst(ts: seq<Token>, at: nat)
    requires ValidCursor(ts, at)
    ensures SyncPoint(ts, SyncTarget(ts, at))
    ensures ts[at].tokenType != Eof ==> at < SyncTarget(ts, at) && forall j :: at < j < SyncTarget(ts, at) ==> !SyncPoint(ts, j)
  {
    if ts[at].tokenType != Eof {
      NextSyncPointIsFirst(ts, at + 1);
    }
  }

  /** Between a failure at `at` and its recovery point, the recovery point is the only stopping point. */
  lemma {:induction false} SyncStep(ts: seq<Token>, at: nat, k: nat)
    requires ValidCursor(ts, at) && ts[at].tokenType != Eof && at < k <= SyncTarget(ts, at)
    ensures SyncPoint(ts, k) <==> k == SyncTarget(ts, at)
  {
    SyncTargetIsFirst(ts, at);
  }

  class Parser {
    const tokens: seq<Token>
    var current: nat
    /** The calls made to the error reporter, in order. */
    var errors: seq<ParseReport>

    constructor (tokens: seq<Token>)
      requires |tokens| > 0 && tokens[|tokens| - 1].tokenType == Eof
      ensures this.tokens == tokens && current == 0 && errors == []
      ensures ValidCursor(tokens, current)
    {
      this.tokens := tokens;
      current := 0;
      errors := [];
    }

    /**
     * `parse`: parses declarations until the end-of-file token, exactly as
     * `ParseFrom` says: the statements and the cursor at the end with nothing
     * reported, or the abort after the first failing declaration with its one
     * report and the cursor where recovery stopped.
     */
    method Parse() returns (outcome: ParseOutcome)
      requires ValidCursor(tokens, current)
      modifies this`current, this`errors
      ensures ValidCursor(tokens, current) && old(current) <= current
      ensures match ParseFrom(tokens, old(current))
        case Finished(statements, end) => outcome == Parsed(statements) && current == end && errors == old(errors)
        case Stopped(at, message) =>
          outcome == Aborted && current == SyncTarget(tokens, at) && errors == old(errors) + [ParseReport(tokens[at], message)]
    {
      var statements: seq<Stmt> := [];
      while !IsAtEnd()
        invariant ValidCursor(tokens, current) && old(current) <= current
        invariant errors == old(errors)
        invariant Resume(statements, ParseFrom(tokens, current)) == ParseFrom(tokens, old(current))
        decreases |tokens| - current
      {
        var declaration := Declaration();
        if declaration.Failure? {
          return Aborted;
        }
        ResumeTwice(statements, declaration.value, ParseFrom(tokens, current));
        statements := statements + [declaration.value];
      }
      assert statements + [] == statements;
      return Parsed(statements);
    }

    /**
     * `_declaration`: a var declaration after `var`, otherwise a statement, as
     * `DeclarationAt` says. On a parse error it recovers with `_synchronize`
     * and then fails: the original's `assert False` leaves no way to resume.
     */
    method Declaration() returns (r: Result<Stmt, ParseError>)
      requires ValidCursor(tokens, current)
      modifies this`current, this`errors
      ensures ValidCursor(tokens, current) && old(current) <= current
      ensures Recovered(DeclarationAt(tokens, old(current)), tokens, r, current, old(errors), errors)
    {
      ghost var start := current;
      ghost var expected := DeclarationAt(tokens, start);
      var isVar := Match([Var]);
      if isVar {
        r := VarDeclaration(start);
      } else {
        r := Statement();
      }
      if r.Failure? {
        ghost var failedAt := current;
        Synchronize();
        Recover(expected, tokens, r, failedAt, current, old(errors), errors);
        r := Failure(ParseError);
      }
    }

    /** `_var_declaration`, called just after the `var` at `start`, as `VarDeclarationAt` says. */
    method VarDeclaration(ghost start: nat) returns (r: Result<Stmt, ParseError>)
      requires ValidCursor(tokens, current) && current == start + 1 && tokens[start].tokenType == Var
      modifies this`current, this`errors
      ensures ValidCursor(tokens, current) && old(current) <= current
      ensures Answers(VarDeclarationAt(tokens, start), tokens, r, current, old(errors), errors)
    {
      var name := Consume(Identifier, ExpectVariableName);
      if name.Failure? {
        return Failure(ParseError);
      }
      var initializer := Initializer();
      if initializer.Failure? {
        return Failure(ParseError);
      }
      var semicolon := Consume(Semicolon, ExpectSemicolonAfterValue);
      if semicolon.Failure? {
        return Failure(ParseError);
      }
      return Success(VarStmt(name.value, initializer.value));
    }

    /** The optional initializer of `_var_declaration`, as `InitializerAt` says. */
    method Initializer() returns (r: Result<Option<Expr>, ParseError>)
      requires ValidCursor(tokens, current)
      modifies this`current, this`errors
      ensures ValidCursor(tokens, current) && old(current) <= current
      ensures Answers(InitializerAt(tokens, old(current)), tokens, r, current, old(errors), errors)
    {
      var hasInitializer := Match([Equal]);
      if !hasInitializer {
        return Success(None);
      }
      var value := Expression();
      if value.Failure? {
        return Failure(value.error);
      }
      return Success(Some(value.value));
    }

    /** `_statement`: a print statement after `print`, otherwise an expression statement, as `StatementAt` says. */
    method Statement() returns (r: Result<Stmt, ParseError>)
      requires ValidCursor(tokens, current)
      modifies this`current, this`errors
      ensures ValidCursor(tokens, current) && old(current) <= current
      ensures Answers(StatementAt(tokens, old(current)), tokens, r, current, old(errors), errors)
    {
      ghost var start := current;
      var isPrint := Match([Print]);
      if isPrint {
        r := PrintStatement(start);
      } else {
        r := ExpressionStatement();
      }
    }

    /** `_print_statement`, called just after the `print` at `start`, as `PrintStatementAt` says. */
    method PrintStatement(ghost start: nat) returns (r: Result<Stmt, ParseError>)
      requires ValidCursor(tokens, current) && current == start + 1 && tokens[start].tokenType == Print
      modifies this`current, this`errors
      ensures ValidCursor(tokens, current) && old(current) <= current
      ensures Answers(PrintStatementAt(tokens, start), tokens, r, current, old(errors), errors)
    {
      var value := Expression();
      if value.Failure? {
        return Failure(ParseError);
      }
      var semicolon := Consume(Semicolon, ExpectSemicolonAfterValue);
      if semicolon.Failure? {
        return Failure(ParseError);
      }
      return Success(PrintStmt(value.value));
    }

    /** `_expression_statement`, as `ExpressionStatementAt` says. */
    method ExpressionStatement() returns (r: Result<Stmt, ParseError>)
      requires ValidCursor(tokens, current)
      modifies this`current, this`errors
      ensures ValidCursor(tokens, current) && old(current) <= current
      ensures Answers(ExpressionStatementAt(tokens, old(current)), tokens, r, current, old(errors), errors)
    {
      var value := Expression();
      if value.Failure? {
        return Failure(ParseError);
      }
      var semicolon := Consume(Semicolon, ExpectSemicolonAfterExpression);
      if semicolon.Failure? {
        return Failure(ParseError);
      }
      return Success(ExpressionStmt(value.value));
    }

    /** `_expression`: the top level, equality, as `ExpressionAt` says. */
    method Expression() returns (r: Result<Expr, ParseError>)
      requires ValidCursor(tokens, current)
      modifies this`current, this`errors
      decreases |tokens| - current, 7
      ensures ValidCursor(tokens, current) && old(current) <= current
      ensures Answers(ExpressionAt(tokens, old(current)), tokens, r, current, old(errors), errors)
    {
      r := Equality();
    }

    /** `_equality`: comparisons joined by `!=` and `==`, grouped to the left, as `LevelAt` says for `EqualityLevel`. */
    method Equality() returns (r: Result<Expr, ParseError>)
      requires ValidCursor(tokens, current)
      modifies this`current, this`errors
      decreases |tokens| - current, 6
      ensures ValidCursor(tokens, current) && old(current) <= current
      ensures Answers(LevelAt(tokens, EqualityLevel, old(current)), tokens, r, current, old(errors), errors)
    {
      r := Comparison();
      var more := false;
      if r.Success? {
        more := Match([BangEqual, EqualEqual]);
      }
      while more
        invariant ValidCursor(tokens, current) && old(current) <= current
        invariant more ==> && r.Success? && errors == old(errors) && old(current) < current
                           && IsOperatorOf(EqualityLevel, tokens[current - 1].tokenType)
                           && LoopAt(tokens, EqualityLevel, r.value, current - 1) == LevelAt(tokens, EqualityLevel, old(current))
        invariant !more ==> Answers(LevelAt(tokens, EqualityLevel, old(current)), tokens, r, current, old(errors), errors)
        decreases |tokens| - current + (if more then 1 else 0)
      {
        r, more := EqualityRound(r.value);
      }
    }

    /**
     * One round of the loop in `_equality`, entered right after an operator was
     * matched: the right operand, the tree grouped to the left, and the test
     * for another operator. It continues the loop `LoopAt` describes.
     */
    method EqualityRound(left: Expr) returns (r: Result<Expr, ParseError>, more: bool)
      requires ValidCursor(tokens, current) && current > 0 && IsOperatorOf(EqualityLevel, tokens[current - 1].tokenType)
      modifies this`current, this`errors
      decreases |tokens| - current, 6
      ensures ValidCursor(tokens, current) && old(current) <= current
      ensures more ==> && r.Success? && errors == old(errors) && old(current) < current
                       && IsOperatorOf(EqualityLevel, tokens[current - 1].tokenType)
                       && LoopAt(tokens, EqualityLevel, r.value, current - 1) == LoopAt(tokens, EqualityLevel, left, old(current) - 1)
      ensures !more ==> Answers(LoopAt(tokens, EqualityLevel, left, old(current) - 1), tokens, r, current, old(errors), errors)
    {
      var operator := Previous();
      ghost var j := current - 1;
      LoopUnfold(tokens, EqualityLevel, left, j);
      ghost var operand := LevelAt(tokens, ComparisonLevel, current);
      assert operand == OperandAt(tokens, EqualityLevel, j + 1);
      var right := Comparison();
      if right.Failure? {
        return Failure(right.error), false;
      }
      assert operand == Ok(right.value, current);
      r := Success(BinaryExpr(left, operator, right.value));
      assert LoopAt(tokens, EqualityLevel, left, j) == LoopAt(tokens, EqualityLevel, r.value, current);
      more := Match([BangEqual, EqualEqual]);
      if !more {
        LoopStop(tokens, EqualityLevel, r.value, current);
      }
    }

    /** `_comparison`: terms joined by `>`, `>=`, `<` and `<=`, grouped to the left, as `LevelAt` says for `ComparisonLevel`. */
    method Comparison() returns (r: Result<Expr, ParseError>)
      requires ValidCursor(tokens, current)
      modifies this`current, this`errors
      decreases |tokens| - current, 5
      ensures ValidCursor(tokens, current) && old(current) <= current
      ensures Answers(LevelAt(tokens, ComparisonLevel, old(current)), tokens, r, current, old(errors), errors)
    {
      r := Term();
      var more := false;
      if r.Success? {
        more := Match([Greater, GreaterEqual, Less, LessEqual]);
      }
      while more
        invariant ValidCursor(tokens, current) && old(current) <= current
        invariant more ==> && r.Success? && errors == old(errors) && old(current) < current
                           && IsOperatorOf(ComparisonLevel, tokens[current - 1].tokenType)
                           && LoopAt(tokens, ComparisonLevel, r.value, current - 1) == LevelAt(tokens, ComparisonLevel, old(current))
        invariant !more ==> Answers(LevelAt(tokens, ComparisonLevel, old(current)), tokens, r, current, old(errors), errors)
        decreases |tokens| - current + (if more then 1 else 0)
      {
        r, more := ComparisonRound(r.value);
      }
    }

    /**
     * One round of the loop in `_comparison`, entered right after an operator was
     * matched: the right operand, the tree grouped to the left, and the test
     * for another operator. It continues the loop `LoopAt` describes.
     */
    method ComparisonRound(left: Expr) returns (r: Result<Expr, ParseError>, more: bool)
      requires ValidCursor(tokens, current) && current > 0 && IsOperatorOf(ComparisonLevel, tokens[current - 1].tokenType)
      modifies this`current, this`errors
      decreases |tokens| - current, 5
      ensures ValidCursor(tokens, current) && old(current) <= current
      ensures more ==> && r.Success? && errors == old(errors) && old(current) < current
                       && IsOperatorOf(ComparisonLevel, tokens[current - 1].tokenType)
                       && LoopAt(tokens, ComparisonLevel, r.value, current - 1) == LoopAt(tokens, ComparisonLevel, left, old(current) - 1)
      ensures !more ==> Answers(LoopAt(tokens, ComparisonLevel, left, old(current) - 1), tokens, r, current, old(errors), errors)
    {
      var operator := Previous();
      ghost var j := current - 1;
      LoopUnfold(tokens, ComparisonLevel, left, j);
      ghost var operand := LevelAt(tokens, TermLevel, current);
      assert operand == OperandAt(tokens, ComparisonLevel, j + 1);
      var right := Term();
      if right.Failure? {
        return Failure(right.error), false;
      }
      assert operand == Ok(right.value, current);
      r := Success(BinaryExpr(left, operator, right.value));
      assert LoopAt(tokens, ComparisonLevel, left, j) == LoopAt(tokens, ComparisonLevel, r.value, current);
      more := Match([Greater, GreaterEqual, Less, LessEqual]);
      if !more {
        LoopStop(tokens, ComparisonLevel, r.value, current);
      }
    }

    /** `_term`: factors joined by `-` and `+`, grouped to the left, as `LevelAt` says for `TermLevel`. */
    method Term() returns (r: Result<Expr, ParseError>)
      requires ValidCursor(tokens, current)
      modifies this`current, this`errors
      decreases |tokens| - current, 4
      ensures ValidCursor(tokens, current) && old(current) <= current
      ensures Answers(LevelAt(tokens, TermLevel, old(current)), tokens, r, current, old(errors), errors)
    {
      r := Factor();
      var more := false;
      if r.Success? {
        more := Match([Minus, Plus]);
      }
      while more
        invariant ValidCursor(tokens, current) && old(current) <= current
        invariant more ==> && r.Success? && errors == old(errors) && old(current) < current
                           && IsOperatorOf(TermLevel, tokens[current - 1].tokenType)
                           && LoopAt(tokens, TermLevel, r.value, current - 1) == LevelAt(tokens, TermLevel, old(current))
        invariant !more ==> Answers(LevelAt(tokens, TermLevel, old(current)), tokens, r, current, old(errors), errors)
        decreases |tokens| - current + (if more then 1 else 0)
      {
        r, more := TermRound(r.value);
      }
    }

    /**
     * One round of the loop in `_term`, entered right after an operator was
     * matched: the right operand, the tree grouped to the left, and the test
     * for another operator. It continues the loop `LoopAt` describes.
     */
    method TermRound(left: Expr) returns (r: Result<Expr, ParseError>, more: bool)
      requires ValidCursor(tokens, current) && current > 0 && IsOperatorOf(TermLevel, tokens[current - 1].tokenType)
      modifies this`current, this`errors
      decreases |tokens| - current, 4
      ensures ValidCursor(tokens, current) && old(current) <= current
      ensures more ==> && r.Success? && errors == old(errors) && old(current) < current
                       && IsOperatorOf(TermLevel, tokens[current - 1].tokenType)
                       && LoopAt(tokens, TermLevel, r.value, current - 1) == LoopAt(tokens, TermLevel, left, old(current) - 1)
      ensures !more ==> Answers(LoopAt(tokens, TermLevel, left, old(current) - 1), tokens, r, current, old(errors), errors)
    {
      var operator := Previous();
      ghost var j := current - 1;
      LoopUnfold(tokens, TermLevel, left, j);
      ghost var operand := LevelAt(tokens, FactorLevel, current);
      assert operand == OperandAt(tokens, TermLevel, j + 1);
      var right := Factor();
      if right.Failure? {
        return Failure(right.error), false;
      }
      assert operand == Ok(right.value, current);
      r := Success(BinaryExpr(left, operator, right.value));
      assert LoopAt(tokens, TermLevel, left, j) == LoopAt(tokens, TermLevel, r.value, current);
      more := Match([Minus, Plus]);
      if !more {
        LoopStop(tokens, TermLevel, r.value, current);
      }
    }

    /** `_factor`: unary expressions joined by `/` and `*`, grouped to the left, as `LevelAt` says for `FactorLevel`. */
    method Factor() returns (r: Result<Expr, ParseError>)
      requires ValidCursor(tokens, current)
      modifies this`current, this`errors
      decreases |tokens| - current, 3
      ensures ValidCursor(tokens, current) && old(current) <= current
      ensures Answers(LevelAt(tokens, FactorLevel, old(current)), tokens, r, current, old(errors), errors)
    {
      r := Unary();
      var more := false;
      if r.Success? {
        more := Match([Slash, Star]);
      }
      while more
        invariant ValidCursor(tokens, current) && old(current) <= current
        invariant more ==> && r.Success? && errors == old(errors) && old(current) < current
                           && IsOperatorOf(FactorLevel, tokens[current - 1].tokenType)
                           && LoopAt(tokens, FactorLevel, r.value, current - 1) == LevelAt(tokens, FactorLevel, old(current))
        invariant !more ==> Answers(LevelAt(tokens, FactorLevel, old(current)), tokens, r, current, old(errors), errors)
        decreases |tokens| - current + (if more then 1 else 0)
      {
        r, more := FactorRound(r.value);
      }
    }

    /**
     * One round of the loop in `_factor`, entered right after an operator was
     * matched: the right operand, the tree grouped to the left, and the test
     * for another operator. It continues the loop `LoopAt` describes.
     */
    method FactorRound(left: Expr) returns (r: Result<Expr, ParseError>, more: bool)
      requires ValidCursor(tokens, current) && current > 0 && IsOperatorOf(FactorLevel, tokens[current - 1].tokenType)
      modifies this`current, this`errors
      decreases |tokens| - current, 3
      ensures ValidCursor(tokens, current) && old(current) <= current
      ensures more ==> && r.Success? && errors == old(errors) && old(current) < current
                       && IsOperatorOf(FactorLevel, tokens[current - 1].tokenType)
                       && LoopAt(tokens, FactorLevel, r.value, current - 1) == LoopAt(tokens, FactorLevel, left, old(current) - 1)
      ensures !more ==> Answers(LoopAt(tokens, FactorLevel, left, old(current) - 1), tokens, r, current, old(errors), errors)
    {
      var operator := Previous();
      ghost var j := current - 1;
      LoopUnfold(tokens, FactorLevel, left, j);
      ghost var operand := UnaryAt(tokens, current);
      assert operand == OperandAt(tokens, FactorLevel, j + 1);
      var right := Unary();
      if right.Failure? {
        return Failure(right.error), false;
      }
      assert operand == Ok(right.value, current);
      r := Success(BinaryExpr(left, operator, right.value));
      assert LoopAt(tokens, FactorLevel, left, j) == LoopAt(tokens, FactorLevel, r.value, current);
      more := Match([Slash, Star]);
      if !more {
        LoopStop(tokens, FactorLevel, r.value, current);
      }
    }

    /** `_unary`: `!` or `-` applied to a unary expression, otherwise a primary, as `UnaryAt` says. */
    method Unary() returns (r: Result<Expr, ParseError>)
      requires ValidCursor(tokens, current)
      modifies this`current, this`errors
      decreases |tokens| - current, 2
      ensures ValidCursor(tokens, current) && old(current) <= current
      ensures Answers(UnaryAt(tokens, old(current)), tokens, r, current, old(errors), errors)
    {
      var isUnary := Match([Bang, Minus]);
      if isUnary {
        var operator := Previous();
        var right := Unary();
        if right.Failure? {
          return right;
        }
        return Success(UnaryExpr(operator, right.value));
      }
      r := Primary();
    }

    /**
     * `_primary`: a single-token alternative (see `PrimaryOf`), otherwise
     * `(` expression `)` as a grouping; anything else is reported as
     * "Expect expression." at the current token, which is not consumed.
     */
    method Primary() returns (r: Result<Expr, ParseError>)
      requires ValidCursor(tokens, current)
      modifies this`current, this`errors
      decreases |tokens| - current, 1
      ensures ValidCursor(tokens, current) && old(current) <= current
      ensures Answers(PrimaryAt(tokens, old(current)), tokens, r, current, old(errors), errors)
    {
      ghost var start := current;
      var atom := Atom();
      if atom.Some? {
        return Success(atom.value);
      }
      var isGroup := Match([LeftParen]);
      if isGroup {
        r := Group(start);
      } else {
        var e := Error(Peek(), ExpectExpression);
        r := Failure(e);
      }
    }

    /** The single-token alternatives of `_primary`, tried in the original's order. */
    method Atom() returns (e: Option<Expr>)
      requires ValidCursor(tokens, current)
      modifies this`current
      ensures ValidCursor(tokens, current)
      ensures e == PrimaryOf(tokens[old(current)])
      ensures current == old(current) + (if e.Some? then 1 else 0)
    {
      var matched := Match([False]);
      if matched {
        return Some(LiteralExpr(BoolVal(false)));
      }
      matched := Match([True]);
      if matched {
        return Some(LiteralExpr(BoolVal(true)));
      }
      matched := Match([Nil]);
      if matched {
        return Some(LiteralExpr(NilVal));
      }
      matched := Match([Number, String]);
      if matched {
        return Some(LiteralExpr(Previous().literal));
      }
      matched := Match([Identifier]);
      if matched {
        return Some(VariableExpr(Previous()));
      }
      return None;
    }

    /** The grouping alternative of `_primary`, after the `(` at `start`, as `GroupAt` says. */
    method Group(ghost start: nat) returns (r: Result<Expr, ParseError>)
      requires ValidCursor(tokens, current) && current == start + 1 && tokens[start].tokenType == LeftParen
      modifies this`current, this`errors
      decreases |tokens| - start, 0
      ensures ValidCursor(tokens, current) && old(current) <= current
      ensures Answers(GroupAt(tokens, start), tokens, r, current, old(errors), errors)
    {
      var inner := Expression();
      if inner.Failure? {
        return Failure(inner.error);
      }
      var close := Consume(RightParen, ExpectRightParen);
      if close.Failure? {
        return Failure(ParseError);
      }
      return Success(GroupingExpr(inner.value));
    }

    /** `_match`: consumes the current token exactly when its type is one of `types` (never the end-of-file token). */
    method Match(types: seq<TokenType>) returns (matched: bool)
      requires ValidCursor(tokens, current)
      modifies this`current
      ensures ValidCursor(tokens, current)
      ensures matched <==> old(tokens[current]).tokenType != Eof && old(tokens[current]).tokenType in types
      ensures current == old(current) + (if matched then 1 else 0)
    {
      for i := 0 to |types|
        invariant current == old(current)
        invariant forall j :: 0 <= j < i ==> !Check(types[j])
      {
        if Check(types[i]) {
          var _ := Advance();
          return true;
        }
      }
      return false;
    }

    /**
     * `_consume`: returns the current token and moves past it when it has the
     * expected type; otherwise reports it with `message` and fails in place.
     */
    method Consume(tokenType: TokenType, message: ParseMessage) returns (r: Result<Token, ParseError>)
      requires ValidCursor(tokens, current)
      modifies this`current, this`errors
      ensures ValidCursor(tokens, current)
      ensures Accepts(tokens[old(current)], tokenType) ==> r == Success(tokens[old(current)]) && current == old(current) + 1 && errors == old(errors)
      ensures !Accepts(tokens[old(current)], tokenType) ==>
        r.Failure? && current == old(current) && errors == old(errors) + [ParseReport(tokens[current], message)]
    {
      if Check(tokenType) {
        var t := Advance();
        return Success(t);
      }
      var e := Error(tokens[current], message);
      return Failure(e);
    }

    /** `_error`: reports the token and the message, and returns the error to raise. */
    method Error(token: Token, message: ParseMessage) returns (e: ParseError)
      modifies this`errors
      ensures errors == old(errors) + [ParseReport(token, message)]
    {
      errors := errors + [ParseReport(token, message)];
      return ParseError;
    }

    /**
     * `_synchronize`: skips one token, then stops at the first index that
     * follows a `;`, holds a statement keyword, or holds the end-of-file
     * token; at the end-of-file token it does not move (see `SyncTarget`).
     */
    method Synchronize()
      requires ValidCursor(tokens, current)
      modifies this`current
      ensures ValidCursor(tokens, current)
      ensures current == SyncTarget(tokens, old(current))
    {
      ghost var start := current;
      ghost var target := SyncTarget(tokens, start);
      var _ := Advance();
      if IsAtEnd() {
        return;
      }
      SyncStep(tokens, start, current);
      while !IsAtEnd()
        invariant ValidCursor(tokens, current) && start < current <= target
        invariant SyncPoint(tokens, current) <==> current == target
        decreases |tokens| - current
      {
        if Previous().tokenType == Semicolon || IsStatementStart(Peek().tokenType) {
          return;
        }
        var _ := Advance();
        SyncStep(tokens, start, current);
      }
    }

    /** `_check`: the current token has the given type and is not the end-of-file token. */
    function Check(tokenType: TokenType): (r: bool)
      requires ValidCursor(tokens, current)
      reads this`current
      ensures r <==> tokens[current].tokenType != Eof && tokens[current].tokenType == tokenType
    {
      if IsAtEnd() then false else Peek().tokenType == tokenType
    }

    /** `_advance`: moves past the current token unless it is the end-of-file token, and returns the previous token. */
    method Advance() returns (t: Token)
      requires ValidCursor(tokens, current)
      modifies this`current
      ensures ValidCursor(tokens, current)
      ensures current == old(current) + (if old(tokens[current]).tokenType == Eof then 0 else 1)
      ensures t == Previous()
    {
      if !IsAtEnd() {
        current := current + 1;
      }
      return Previous();
    }

    /** `_is_at_end`. */
    function IsAtEnd(): bool
      requires ValidCursor(tokens, current)
      reads this`current
    {
      Peek().tokenType == Eof
    }

    /** `_peek`. */
    function Peek(): Token
      requires ValidCursor(tokens, current)
      reads this`current
    {
      tokens[current]
    }

    /** `_previous`: the token before the cursor; at index 0, Python's `[-1]` gives the last token. */
    function Previous(): Token
      requires ValidCursor(tokens, current)
      reads this`current
    {
      if current == 0 then tokens[|tokens| - 1] else tokens[current - 1]
    }
  }
}
