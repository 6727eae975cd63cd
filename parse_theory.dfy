/**
 * What the reference parser of module `ParseSpec` accepts, compared with the
 * grammar of module `Grammar`.
 *
 * - Soundness: a tree an expression function returns has the shape of its
 *   precedence level, is spelled by the tokens consumed, and is followed by
 *   a token that cannot continue it; a statement is spelled by its tokens.
 * - Completeness: every such tree (or statement, or list of statements) is
 *   what the function returns.
 * - Together: `ExpressionAt`, `DeclarationAt` and `ParseFrom` accept exactly
 *   what the grammar spells, and since the trees of a given yield are unique
 *   the parse is unambiguous.
 */
module ParseTheory {
  import opened Wrappers
  import opened Tokens
  import opened Ast
  import opened Grammar
  import opened ParseSpec

  /** The tree shape of a level. */
  predicate AtLevel(level: Level, e: Expr)
  {
    match level
    case EqualityLevel => IsEquality(e)
    case ComparisonLevel => IsComparison(e)
    case TermLevel => IsTerm(e)
    case FactorLevel => IsFactor(e)
  }

  /** The shape of a level's operands: the next tighter level, unary below factor. */
  predicate Operand(level: Level, e: Expr)
  {
    if level == FactorLevel then IsUnary(e) else AtLevel(Tighter(level), e)
  }

  /**
   * A token ends an expression of the level: it is not an operator of the
   * level or of a tighter one, so no loop at or below the level goes on.
   */
  predicate Closes(level: Level, t: TokenType)
  {
    match level
    case EqualityLevel => !IsBinaryOperator(t)
    case ComparisonLevel => !IsComparisonOperator(t) && !IsTermOperator(t) && !IsFactorOperator(t)
    case TermLevel => !IsTermOperator(t) && !IsFactorOperator(t)
    case FactorLevel => !IsFactorOperator(t)
  }

  /** A token ends an operand of the level. */
  predicate ClosesBelow(level: Level, t: TokenType)
  {
    level == FactorLevel || Closes(Tighter(level), t)
  }

  /** A token ends a level's expression iff it is no operator of the level and ends its operands. */
  lemma ClosesSplit(level: Level, t: TokenType)
    ensures Closes(level, t) <==> !IsOperatorOf(level, t) && ClosesBelow(level, t)
  {
  }

  /** An operator of a level is no operator of a tighter level. */
  lemma OperatorClosesBelow(level: Level, t: TokenType)
    requires IsOperatorOf(level, t)
    ensures ClosesBelow(level, t)
  {
  }

  /**
   * A tree of a level is either a binary tree with an operator of the level,
   * a tree of the level on its left and an operand on its right, or an
   * operand.
   */
  lemma AtLevelCases(level: Level, e: Expr)
    ensures AtLevel(level, e) <==>
      if e.BinaryExpr? && IsOperatorOf(level, e.operator.tokenType) then AtLevel(level, e.left) && Operand(level, e.right)
      else Operand(level, e)
  {
  }

  /** An operand of a level is a tree of the level. */
  lemma OperandIsAtLevel(level: Level, e: Expr)
    requires Operand(level, e)
    ensures AtLevel(level, e)
  {
    LevelsNest(e);
  }

  // Soundness

  /** One round of a level's loop extends the tree and its yield by the operator and the operand. */
  lemma {:induction false} LoopStep(ts: seq<Token>, level: Level, left: Expr, j: nat, right: Expr, n: nat)
    requires j < n <= |ts| && IsOperatorOf(level, ts[j].tokenType)
    requires Operand(level, right) && Yield(right) == SymsBetween(ts, j + 1, n)
    ensures Yield(BinaryExpr(left, ts[j], right)) == Yield(left) + SymsBetween(ts, j, n)
    ensures AtLevel(level, left) ==> AtLevel(level, BinaryExpr(left, ts[j], right))
  {
    assert TokenSym(ts[j]) == Tok(ts[j]);
    SymsFirst(ts, j, n);
    AppendIsAssociative(Yield(left), [Tok(ts[j])], Yield(right));
    AtLevelCases(level, BinaryExpr(left, ts[j], right));
  }

  /**
   * The loop of a level appends to the tree it was given exactly the tokens
   * it consumes, keeps the tree at its level, and stops at a token that is
   * no operator of the level.
   */
  lemma {:induction false} LoopSound(ts: seq<Token>, level: Level, left: Expr, j: nat)
    requires ValidCursor(ts, j)
    ensures var r := LoopAt(ts, level, left, j);
      r.Ok? ==>
        && Yield(r.value) == Yield(left) + SymsBetween(ts, j, r.next)
        && (AtLevel(level, left) ==> AtLevel(level, r.value))
        && !IsOperatorOf(level, ts[r.next].tokenType)
        && (r.next == j || ClosesBelow(level, ts[r.next].tokenType))
    decreases |ts| - j, 0
  {
    if IsOperatorOf(level, ts[j].tokenType) {
      var o := OperandAt(ts, level, j + 1);
      OperandSound(ts, level, j + 1);
      if o.Ok? {
        LoopStep(ts, level, left, j, o.value, o.next);
        var tree := BinaryExpr(left, ts[j], o.value);
        LoopSound(ts, level, tree, o.next);
        var r := LoopAt(ts, level, tree, o.next);
        assert LoopAt(ts, level, left, j) == r;
        if r.Ok? {
          JoinYields(ts, j, o.next, r.next, Yield(left), Yield(tree), Yield(r.value));
        }
      }
    }
  }

  /** A yield extended by the symbols of two consecutive slices is extended by the symbols of both. */
  lemma {:induction false} JoinYields(ts: seq<Token>, j: nat, m: nat, n: nat, a: seq<Sym>, b: seq<Sym>, c: seq<Sym>)
    requires j <= m <= n <= |ts|
    requires b == a + SymsBetween(ts, j, m) && c == b + SymsBetween(ts, m, n)
    ensures c == a + SymsBetween(ts, j, n)
  {
    SymsSplit(ts, j, m, n);
    AppendIsAssociative(a, SymsBetween(ts, j, m), SymsBetween(ts, m, n));
  }

  /** An operand is spelled by the tokens consumed and followed by a token that ends it. */
  lemma {:induction false} OperandSound(ts: seq<Token>, level: Level, k: nat)
    requires ValidCursor(ts, k)
    ensures var r := OperandAt(ts, level, k);
      r.Ok? ==> Operand(level, r.value) && Yield(r.value) == SymsBetween(ts, k, r.next) && ClosesBelow(level, ts[r.next].tokenType)
    decreases |ts| - k, 2 * Rank(level)
  {
    if level == FactorLevel {
      UnarySound(ts, k);
    } else {
      LevelSound(ts, Tighter(level), k);
    }
  }

  /**
   * What a level accepts has the level's shape, is spelled by the tokens
   * consumed, and is followed by a token that ends it.
   */
  lemma {:induction false} LevelSound(ts: seq<Token>, level: Level, k: nat)
    requires ValidCursor(ts, k)
    ensures var r := LevelAt(ts, level, k);
      r.Ok? ==> AtLevel(level, r.value) && Yield(r.value) == SymsBetween(ts, k, r.next) && Closes(level, ts[r.next].tokenType)
    decreases |ts| - k, 2 * Rank(level) + 1
  {
    var o := OperandAt(ts, level, k);
    OperandSound(ts, level, k);
    if o.Ok? {
      OperandIsAtLevel(level, o.value);
      LoopSound(ts, level, o.value, o.next);
      var r := LoopAt(ts, level, o.value, o.next);
      if r.Ok? {
        SymsSplit(ts, k, o.next, r.next);
        ClosesSplit(level, ts[r.next].tokenType);
      }
    }
  }

  /** `_expression` accepts an equality-level tree spelled by the tokens consumed, followed by a non-operator. */
  lemma {:induction false} ExpressionSound(ts: seq<Token>, k: nat)
    requires ValidCursor(ts, k)
    ensures var r := ExpressionAt(ts, k);
      r.Ok? ==> IsEquality(r.value) && Yield(r.value) == SymsBetween(ts, k, r.next) && !IsBinaryOperator(ts[r.next].tokenType)
    decreases |ts| - k, 12
  {
    LevelSound(ts, EqualityLevel, k);
  }

  /** `_unary` accepts a unary-level tree spelled by the tokens consumed. */
  lemma {:induction false} UnarySound(ts: seq<Token>, k: nat)
    requires ValidCursor(ts, k)
    ensures var r := UnaryAt(ts, k); r.Ok? ==> IsUnary(r.value) && Yield(r.value) == SymsBetween(ts, k, r.next)
    decreases |ts| - k, 3
  {
    if ts[k].tokenType in [Bang, Minus] {
      UnarySound(ts, k + 1);
      var u := UnaryAt(ts, k + 1);
      if u.Ok? {
        assert TokenSym(ts[k]) == Tok(ts[k]);
        SymsFirst(ts, k, u.next);
      }
    } else {
      PrimarySound(ts, k);
    }
  }

  /** `_primary` accepts a primary spelled by the tokens consumed. */
  lemma {:induction false} PrimarySound(ts: seq<Token>, k: nat)
    requires ValidCursor(ts, k)
    ensures var r := PrimaryAt(ts, k); r.Ok? ==> IsPrimary(r.value) && Yield(r.value) == SymsBetween(ts, k, r.next)
    decreases |ts| - k, 2
  {
    if PrimaryOf(ts[k]).Some? {
      assert SymsBetween(ts, k, k + 1) == [TokenSym(ts[k])];
    } else if ts[k].tokenType == LeftParen {
      GroupSound(ts, k);
    }
  }

  /** A parenthesised expression is a grouping spelled by the tokens from `(` to `)`. */
  lemma {:induction false} GroupSound(ts: seq<Token>, p: nat)
    requires ValidCursor(ts, p) && ts[p].tokenType == LeftParen
    ensures var r := GroupAt(ts, p); r.Ok? ==> r.value.GroupingExpr? && IsPrimary(r.value) && Yield(r.value) == SymsBetween(ts, p, r.next)
    decreases |ts| - p, 1
  {
    var inner := ExpressionAt(ts, p + 1);
    if inner.Ok? && Accepts(ts[inner.next], RightParen) {
      ExpressionSound(ts, p + 1);
      GroupedSound(ts, p, inner.value, inner.next);
    } else {
      assert GroupAt(ts, p).Err?;
    }
  }

  /** The grouping built around an inner expression spelled by `ts[p+1..c]` and closed by `)` at `c`. */
  lemma {:induction false} GroupedSound(ts: seq<Token>, p: nat, inner: Expr, c: nat)
    requires ValidCursor(ts, p) && ts[p].tokenType == LeftParen
    requires ExpressionAt(ts, p + 1) == Ok(inner, c) && Accepts(ts[c], RightParen)
    requires IsEquality(inner) && Yield(inner) == SymsBetween(ts, p + 1, c)
    ensures GroupAt(ts, p) == Ok(GroupingExpr(inner), c + 1)
    ensures IsPrimary(GroupingExpr(inner)) && Yield(GroupingExpr(inner)) == SymsBetween(ts, p, c + 1)
  {
    GroupYield(ts, p, p + 1, c, c + 1, inner);
  }

  /** An accepted initializer is `=` and an expression, or nothing when `=` does not follow. */
  lemma {:induction false} InitializerSound(ts: seq<Token>, k: nat)
    requires ValidCursor(ts, k)
    ensures var r := InitializerAt(ts, k); r.Ok? ==> InitializerSpelled(ts, k, r.next, r.value)
  {
    if ts[k].tokenType == Equal {
      var value := ExpressionAt(ts, k + 1);
      if value.Ok? {
        assert InitializerAt(ts, k) == Ok(Some(value.value), value.next);
        ExpressionSound(ts, k + 1);
      } else {
        assert InitializerAt(ts, k).Err?;
      }
    } else {
      assert InitializerAt(ts, k) == Ok(None, k);
    }
  }

  /** An accepted var declaration is spelled by its tokens. */
  lemma {:induction false} VarDeclarationSound(ts: seq<Token>, v: nat)
    requires ValidCursor(ts, v) && ts[v].tokenType == Var
    ensures var r := VarDeclarationAt(ts, v); r.Ok? ==> r.value.VarStmt? && StmtSpelled(ts, v, r.next, r.value)
  {
    if Accepts(ts[v + 1], Identifier) {
      var init := InitializerAt(ts, v + 2);
      if init.Ok? && Accepts(ts[init.next], Semicolon) {
        var s := VarStmt(ts[v + 1], init.value);
        assert VarDeclarationAt(ts, v) == Ok(s, init.next + 1);
        InitializerSound(ts, v + 2);
        VarStmtYield(ts, v, v + 2, init.next, init.next + 1, ts[v + 1], init.value);
      } else {
        assert VarDeclarationAt(ts, v).Err?;
      }
    } else {
      assert VarDeclarationAt(ts, v).Err?;
    }
  }

  /** An accepted print statement is spelled by its tokens. */
  lemma {:induction false} PrintStatementSound(ts: seq<Token>, p: nat)
    requires ValidCursor(ts, p) && ts[p].tokenType == Print
    ensures var r := PrintStatementAt(ts, p); r.Ok? ==> r.value.PrintStmt? && StmtSpelled(ts, p, r.next, r.value)
  {
    var value := ExpressionAt(ts, p + 1);
    if value.Ok? && Accepts(ts[value.next], Semicolon) {
      assert PrintStatementAt(ts, p) == Ok(PrintStmt(value.value), value.next + 1);
      ExpressionSound(ts, p + 1);
      PrintStmtYield(ts, p, p + 1, value.next, value.next + 1, value.value);
    } else {
      assert PrintStatementAt(ts, p).Err?;
    }
  }

  /** An accepted expression statement is spelled by its tokens. */
  lemma {:induction false} ExpressionStatementSound(ts: seq<Token>, k: nat)
    requires ValidCursor(ts, k)
    ensures var r := ExpressionStatementAt(ts, k); r.Ok? ==> r.value.ExpressionStmt? && StmtSpelled(ts, k, r.next, r.value)
  {
    var value := ExpressionAt(ts, k);
    if value.Ok? && Accepts(ts[value.next], Semicolon) {
      assert ExpressionStatementAt(ts, k) == Ok(ExpressionStmt(value.value), value.next + 1);
      ExpressionSound(ts, k);
      ExpressionStmtYield(ts, k, value.next, value.next + 1, value.value);
    } else {
      assert ExpressionStatementAt(ts, k).Err?;
    }
  }

  /**
   * An accepted declaration is spelled by its tokens; it is a var
   * declaration exactly when it starts with `var`, and a print statement
   * exactly when it starts with `print`.
   */
  lemma {:induction false} DeclarationSound(ts: seq<Token>, k: nat)
    requires ValidCursor(ts, k)
    ensures var r := DeclarationAt(ts, k);
      r.Ok? ==>
        && StmtSpelled(ts, k, r.next, r.value)
        && (r.value.VarStmt? <==> ts[k].tokenType == Var)
        && (r.value.PrintStmt? <==> ts[k].tokenType == Print)
  {
    if ts[k].tokenType == Var {
      assert DeclarationAt(ts, k) == VarDeclarationAt(ts, k);
      VarDeclarationSound(ts, k);
    } else if ts[k].tokenType == Print {
      assert DeclarationAt(ts, k) == PrintStatementAt(ts, k);
      PrintStatementSound(ts, k);
    } else {
      assert DeclarationAt(ts, k) == ExpressionStatementAt(ts, k);
      ExpressionStatementSound(ts, k);
    }
  }

  /** The yield of a statement list that starts with `s`. */
  lemma StmtsYieldCons(s: Stmt, ss: seq<Stmt>)
    requires IsDeclaration(s) && forall i :: 0 <= i < |ss| ==> IsDeclaration(ss[i])
    ensures forall i :: 0 <= i < |[s] + ss| ==> IsDeclaration(([s] + ss)[i])
    ensures StmtsYield([s] + ss) == StmtYield(s) + StmtsYield(ss)
  {
    assert ([s] + ss)[1..] == ss;
  }

  /** A finished run is a list of declarations that spells every token before the end-of-file token. */
  lemma {:induction false} ParseFromSound(ts: seq<Token>, k: nat)
    requires ValidCursor(ts, k)
    ensures var r := ParseFrom(ts, k);
      r.Finished? ==>
        && (forall i :: 0 <= i < |r.statements| ==> IsDeclaration(r.statements[i]))
        && StmtsYield(r.statements) == SymsBetween(ts, k, r.end)
    decreases |ts| - k
  {
    if ts[k].tokenType != Eof {
      var d := DeclarationAt(ts, k);
      if d.Ok? {
        DeclarationSound(ts, k);
        ParseFromSound(ts, d.next);
        var rest := ParseFrom(ts, d.next);
        if rest.Finished? {
          SymsSplit(ts, k, d.next, rest.end);
          StmtsYieldCons(d.value, rest.statements);
        }
      }
    }
  }

  // Completeness

  /** Two ways of cutting one sequence at the same length agree. */
  lemma SameSplit<T>(a: seq<T>, b: seq<T>, x: seq<T>, y: seq<T>)
    requires a + b == x + y && |a| == |x|
    ensures a == x && b == y
  {
    assert a == (a + b)[..|a|];
    assert x == (x + y)[..|x|];
    assert b == (a + b)[|a|..];
    assert y == (x + y)[|x|..];
  }

  /** Symbols `a + b` spelled by a slice are spelled by its two parts, cut after `|a|` tokens. */
  lemma {:induction false} SplitAt(ts: seq<Token>, k: nat, n: nat, a: seq<Sym>, b: seq<Sym>) returns (m: nat)
    requires k <= n <= |ts| && a + b == SymsBetween(ts, k, n)
    ensures m == k + |a| && m <= n && SymsBetween(ts, k, m) == a && SymsBetween(ts, m, n) == b
  {
    m := k + |a|;
    SymsSplit(ts, k, m, n);
    SameSplit(a, b, SymsBetween(ts, k, m), SymsBetween(ts, m, n));
  }

  /** Symbols `a + [s] + b` spelled by a slice: `s` is the symbol of the token after the first `|a|`. */
  lemma {:induction false} SplitSyms(ts: seq<Token>, k: nat, n: nat, a: seq<Sym>, s: Sym, b: seq<Sym>) returns (m: nat)
    requires k <= n <= |ts| && a + [s] + b == SymsBetween(ts, k, n)
    ensures m == k + |a| && m < n
    ensures SymsBetween(ts, k, m) == a && TokenSym(ts[m]) == s && SymsBetween(ts, m + 1, n) == b
  {
    AppendIsAssociative(a, [s], b);
    m := SplitAt(ts, k, n, a, [s] + b);
    SymsFirst(ts, m, n);
    SameSplit([s], b, [TokenSym(ts[m])], SymsBetween(ts, m + 1, n));
  }

  /** Symbols `[s] + rest` spelled by a slice: `s` is the symbol of its first token. */
  lemma {:induction false} FirstSymOf(ts: seq<Token>, k: nat, n: nat, s: Sym, rest: seq<Sym>)
    requires k <= n <= |ts| && [s] + rest == SymsBetween(ts, k, n)
    ensures k < n && TokenSym(ts[k]) == s && SymsBetween(ts, k + 1, n) == rest
  {
    SymsFirst(ts, k, n);
    SameSplit([s], rest, [TokenSym(ts[k])], SymsBetween(ts, k + 1, n));
  }

  /** Symbols `rest + [s]` spelled by a slice: `s` is the symbol of its last token. */
  lemma {:induction false} LastSymOf(ts: seq<Token>, k: nat, n: nat, rest: seq<Sym>, s: Sym)
    requires k <= n <= |ts| && rest + [s] == SymsBetween(ts, k, n)
    ensures k < n && TokenSym(ts[n - 1]) == s && SymsBetween(ts, k, n - 1) == rest
  {
    SameSplit(rest, [s], SymsBetween(ts, k, n - 1), [TokenSym(ts[n - 1])]);
  }

  /** Symbols `[x] + mid + [y]` spelled by a slice: its first token is `x` and its last `y`. */
  lemma {:induction false} BracketedSyms(ts: seq<Token>, k: nat, n: nat, x: Sym, mid: seq<Sym>, y: Sym)
    requires k <= n <= |ts| && [x] + mid + [y] == SymsBetween(ts, k, n)
    ensures k + 1 < n && TokenSym(ts[k]) == x && TokenSym(ts[n - 1]) == y && SymsBetween(ts, k + 1, n - 1) == mid
  {
    LastSymOf(ts, k, n, [x] + mid, y);
    FirstSymOf(ts, k, n - 1, x, mid);
  }

  /**
   * Every tree of a level spelled by `ts[k..n]` and followed by a token
   * that ends it is what the level's method returns.
   */
  lemma {:induction false} LevelComplete(ts: seq<Token>, level: Level, k: nat, n: nat, e: Expr)
    requires ValidCursor(ts, k) && k <= n < |ts|
    requires AtLevel(level, e) && Yield(e) == SymsBetween(ts, k, n) && Closes(level, ts[n].tokenType)
    ensures LevelAt(ts, level, k) == Ok(e, n)
    decreases e, 3 * Rank(level) + 2
  {
    ClosesSplit(level, ts[n].tokenType);
    LevelReaches(ts, level, k, n, e);
  }

  /**
   * A tree of a level spelled by `ts[k..n]`, followed by a token that ends
   * its operands, is what the level has built when its loop reaches `n`.
   */
  lemma {:induction false} LevelReaches(ts: seq<Token>, level: Level, k: nat, n: nat, e: Expr)
    requires ValidCursor(ts, k) && k <= n < |ts|
    requires AtLevel(level, e) && Yield(e) == SymsBetween(ts, k, n) && ClosesBelow(level, ts[n].tokenType)
    ensures LevelAt(ts, level, k) == LoopAt(ts, level, e, n)
    decreases e, 3 * Rank(level) + 1
  {
    AtLevelCases(level, e);
    if e.BinaryExpr? && IsOperatorOf(level, e.operator.tokenType) {
      var m := BinaryParts(ts, k, n, e);
      OperatorClosesBelow(level, ts[m].tokenType);
      LevelReaches(ts, level, k, m, e.left);
      OperandComplete(ts, level, m + 1, n, e.right);
      LoopRound(ts, level, e.left, m, e.right, n);
      assert BinaryExpr(e.left, ts[m], e.right) == e;
    } else {
      OperandComplete(ts, level, k, n, e);
      assert LevelAt(ts, level, k) == LoopAt(ts, level, e, n);
    }
  }

  /** The parts of a binary tree spelled by `ts[k..n]`: the left operand up to `m`, the operator at `m`, the right operand. */
  lemma {:induction false} BinaryParts(ts: seq<Token>, k: nat, n: nat, e: Expr) returns (m: nat)
    requires k <= n <= |ts| && e.BinaryExpr? && Yield(e) == SymsBetween(ts, k, n)
    ensures k <= m < n && ts[m] == e.operator
    ensures Yield(e.left) == SymsBetween(ts, k, m) && Yield(e.right) == SymsBetween(ts, m + 1, n)
  {
    m := SplitSyms(ts, k, n, Yield(e.left), Tok(e.operator), Yield(e.right));
  }

  /** When an operator of the level is followed by an operand, the loop takes one round. */
  lemma {:induction false} LoopRound(ts: seq<Token>, level: Level, left: Expr, m: nat, right: Expr, n: nat)
    requires ValidCursor(ts, m) && IsOperatorOf(level, ts[m].tokenType) && ValidCursor(ts, m + 1)
    requires OperandAt(ts, level, m + 1) == Ok(right, n)
    ensures LoopAt(ts, level, left, m) == LoopAt(ts, level, BinaryExpr(left, ts[m], right), n)
  {
    assert IsOperatorOf(level, ts[m].tokenType);
  }

  /** Every operand of a level spelled by `ts[k..n]` and followed by a token that ends it is found. */
  lemma {:induction false} OperandComplete(ts: seq<Token>, level: Level, k: nat, n: nat, e: Expr)
    requires ValidCursor(ts, k) && k <= n < |ts|
    requires Operand(level, e) && Yield(e) == SymsBetween(ts, k, n) && ClosesBelow(level, ts[n].tokenType)
    ensures OperandAt(ts, level, k) == Ok(e, n)
    decreases e, 3 * Rank(level)
  {
    if level == FactorLevel {
      UnaryComplete(ts, k, n, e);
    } else {
      LevelComplete(ts, Tighter(level), k, n, e);
    }
  }

  /** Every unary-level tree spelled by `ts[k..n]` is what `_unary` returns. */
  lemma {:induction false} UnaryComplete(ts: seq<Token>, k: nat, n: nat, e: Expr)
    requires ValidCursor(ts, k) && k <= n < |ts|
    requires IsUnary(e) && Yield(e) == SymsBetween(ts, k, n)
    ensures UnaryAt(ts, k) == Ok(e, n)
    decreases e, 2
  {
    if e.UnaryExpr? {
      FirstSymOf(ts, k, n, Tok(e.operator), Yield(e.right));
      assert ts[k] == e.operator;
      UnaryComplete(ts, k + 1, n, e.right);
    } else {
      PrimaryComplete(ts, k, n, e);
    }
  }

  /** Every primary spelled by `ts[k..n]` is what `_primary` returns; it does not start with `!` or `-`. */
  lemma {:induction false} PrimaryComplete(ts: seq<Token>, k: nat, n: nat, e: Expr)
    requires ValidCursor(ts, k) && k <= n < |ts|
    requires IsPrimary(e) && Yield(e) == SymsBetween(ts, k, n)
    ensures PrimaryAt(ts, k) == Ok(e, n) && !IsUnaryOperator(ts[k].tokenType)
    decreases e, 1
  {
    match e
    case LiteralExpr(v) =>
      FirstSymOf(ts, k, n, Lit(v), []);
    case VariableExpr(name) =>
      FirstSymOf(ts, k, n, Tok(name), []);
      assert ts[k] == name;
    case GroupingExpr(inner) =>
      GroupComplete(ts, k, n, e);
  }

  /** Every parenthesised expression spelled by `ts[k..n]` is what `_primary` returns. */
  lemma {:induction false} GroupComplete(ts: seq<Token>, k: nat, n: nat, e: Expr)
    requires ValidCursor(ts, k) && k <= n < |ts|
    requires e.GroupingExpr? && IsPrimary(e) && Yield(e) == SymsBetween(ts, k, n)
    ensures ts[k].tokenType == LeftParen && PrimaryAt(ts, k) == Ok(e, n)
    decreases e, 0
  {
    var inner := e.expression;
    var c := GroupParts(ts, k, n, inner);
    LevelComplete(ts, EqualityLevel, k + 1, c, inner);
    GroupedSound(ts, k, inner, c);
    assert PrimaryAt(ts, k) == GroupAt(ts, k);
  }

  /** The parts of `( inner )` spelled by `ts[k..n]`: `(`, the inner expression up to `c`, and `)`. */
  lemma {:induction false} GroupParts(ts: seq<Token>, k: nat, n: nat, inner: Expr) returns (c: nat)
    requires k <= n <= |ts| && Yield(GroupingExpr(inner)) == SymsBetween(ts, k, n)
    ensures k + 1 <= c && c + 1 == n && Yield(inner) == SymsBetween(ts, k + 1, c)
    ensures ts[k].tokenType == LeftParen && ts[c].tokenType == RightParen
  {
    c := n - 1;
    BracketedSyms(ts, k, n, Punct(LeftParen), Yield(inner), Punct(RightParen));
  }

  /**
   * Every equality-level tree spelled by `ts[k..n]` and followed by a token
   * that is no binary operator is what `_expression` returns.
   */
  lemma {:induction false} ExpressionComplete(ts: seq<Token>, k: nat, n: nat, e: Expr)
    requires ValidCursor(ts, k) && k <= n < |ts|
    requires IsEquality(e) && Yield(e) == SymsBetween(ts, k, n) && !IsBinaryOperator(ts[n].tokenType)
    ensures ExpressionAt(ts, k) == Ok(e, n)
  {
    LevelComplete(ts, EqualityLevel, k, n, e);
  }

  /**
   * `_expression` accepts exactly the equality-level trees spelled by the
   * tokens from the cursor on and followed by a token that is no binary
   * operator; in particular it fails exactly when there is none.
   */
  lemma ExpressionAtIff(ts: seq<Token>, k: nat, e: Expr, n: nat)
    requires ValidCursor(ts, k)
    ensures ExpressionAt(ts, k) == Ok(e, n) <==>
      k <= n < |ts| && IsEquality(e) && Yield(e) == SymsBetween(ts, k, n) && !IsBinaryOperator(ts[n].tokenType)
  {
    ExpressionSound(ts, k);
    if k <= n < |ts| && IsEquality(e) && Yield(e) == SymsBetween(ts, k, n) && !IsBinaryOperator(ts[n].tokenType) {
      ExpressionComplete(ts, k, n, e);
    }
  }

  /** What an equality-level tree can start with: a literal, a name, `!`, `-` or `(`. */
  lemma {:induction false} EqualityCases(e: Expr)
    requires IsEquality(e)
    ensures e.BinaryExpr? ==> IsBinaryOperator(e.operator.tokenType) && IsEquality(e.left) && IsEquality(e.right)
    ensures e.UnaryExpr? ==> IsUnaryOperator(e.operator.tokenType) && IsEquality(e.right)
    ensures e.GroupingExpr? ==> IsEquality(e.expression)
    ensures e.VariableExpr? ==> e.name.tokenType == Identifier
    ensures !e.AssignExpr? && !e.LogicalExpr?
  {
    if e.BinaryExpr? || e.UnaryExpr? {
      LevelsNest(e.right);
    }
    if e.BinaryExpr? {
      LevelsNest(e.left);
    }
    if !(e.BinaryExpr? && IsEqualityOperator(e.operator.tokenType)) {
      assert IsComparison(e);
      if !(e.BinaryExpr? && IsComparisonOperator(e.operator.tokenType)) {
        assert IsTerm(e);
        if !(e.BinaryExpr? && IsTermOperator(e.operator.tokenType)) {
          assert IsFactor(e);
          if !(e.BinaryExpr? && IsFactorOperator(e.operator.tokenType)) {
            assert IsUnary(e);
            if !e.UnaryExpr? {
              assert IsPrimary(e);
            }
          }
        }
      }
    }
  }

  /** The first symbol of an equality-level tree. */
  lemma {:induction false} FirstSym(e: Expr)
    requires IsEquality(e)
    ensures |Yield(e)| > 0
    ensures Yield(e)[0].Lit? || Yield(e)[0] == Punct(LeftParen)
         || (Yield(e)[0].Tok? && Yield(e)[0].token.tokenType in {Identifier, Bang, Minus})
  {
    EqualityCases(e);
    YieldNonEmpty(e);
    if e.BinaryExpr? {
      FirstSym(e.left);
      assert Yield(e)[0] == Yield(e.left)[0];
    }
  }

  /** The token that starts an equality-level tree is not `var`, `print` or the end-of-file token. */
  lemma {:induction false} ExpressionStart(ts: seq<Token>, k: nat, n: nat, e: Expr)
    requires k <= n <= |ts| && IsEquality(e) && Yield(e) == SymsBetween(ts, k, n)
    ensures k < n && ts[k].tokenType !in {Var, Print, Eof}
  {
    FirstSym(e);
    SymsFirst(ts, k, n);
  }

  /** The symbols of an optional `= initializer`. */
  function InitSyms(init: Option<Expr>): seq<Sym>
  {
    if init.Some? then [Punct(Equal)] + Yield(init.value) else []
  }

  /** The parts of a var declaration spelled by `ts[k..n]`: `var`, the name, the initializer up to `c`, and `;`. */
  lemma {:induction false} VarParts(ts: seq<Token>, k: nat, n: nat, name: Token, init: Option<Expr>) returns (c: nat)
    requires StmtSpelled(ts, k, n, VarStmt(name, init))
    ensures k + 2 <= c && c + 1 == n
    ensures ts[k].tokenType == Var && ts[k + 1] == name && ts[c].tokenType == Semicolon
    ensures SymsBetween(ts, k + 2, c) == InitSyms(init)
  {
    var initSyms := InitSyms(init);
    assert StmtYield(VarStmt(name, init)) == [Punct(Var), Tok(name)] + initSyms + [Punct(Semicolon)];
    assert [Punct(Var), Tok(name)] + initSyms == [Punct(Var)] + ([Tok(name)] + initSyms);
    c := n - 1;
    BracketedSyms(ts, k, n, Punct(Var), [Tok(name)] + initSyms, Punct(Semicolon));
    FirstSymOf(ts, k + 1, c, Tok(name), initSyms);
  }

  /** An initializer spelled by `ts[a..c]` and followed by `;` is what the initializer step returns. */
  lemma {:induction false} InitializerComplete(ts: seq<Token>, a: nat, c: nat, init: Option<Expr>)
    requires ValidCursor(ts, a) && a <= c < |ts| && ts[c].tokenType == Semicolon
    requires (init.Some? ==> IsEquality(init.value)) && SymsBetween(ts, a, c) == InitSyms(init)
    ensures InitializerAt(ts, a) == Ok(init, c)
  {
    if init.Some? {
      FirstSymOf(ts, a, c, Punct(Equal), Yield(init.value));
      ExpressionComplete(ts, a + 1, c, init.value);
      assert InitializerAt(ts, a) == Ok(init, c);
    } else {
      assert InitializerAt(ts, a) == Ok(None, a);
    }
  }

  /** Every var declaration spelled by `ts[k..n]` is what `_declaration` returns. */
  lemma {:induction false} VarDeclarationComplete(ts: seq<Token>, k: nat, n: nat, name: Token, init: Option<Expr>)
    requires ValidCursor(ts, k) && n < |ts| && StmtSpelled(ts, k, n, VarStmt(name, init))
    ensures DeclarationAt(ts, k) == Ok(VarStmt(name, init), n)
  {
    var c := VarParts(ts, k, n, name, init);
    InitializerComplete(ts, k + 2, c, init);
    assert VarDeclarationAt(ts, k) == Ok(VarStmt(name, init), n);
  }

  /** The parts of a print statement spelled by `ts[k..n]`: `print`, the value up to `c`, and `;`. */
  lemma {:induction false} PrintParts(ts: seq<Token>, k: nat, n: nat, value: Expr) returns (c: nat)
    requires StmtSpelled(ts, k, n, PrintStmt(value))
    ensures k + 1 <= c && c + 1 == n
    ensures ts[k].tokenType == Print && ts[c].tokenType == Semicolon && SymsBetween(ts, k + 1, c) == Yield(value)
  {
    c := n - 1;
    BracketedSyms(ts, k, n, Punct(Print), Yield(value), Punct(Semicolon));
  }

  /** Every print statement spelled by `ts[k..n]` is what `_declaration` returns. */
  lemma {:induction false} PrintStatementComplete(ts: seq<Token>, k: nat, n: nat, value: Expr)
    requires ValidCursor(ts, k) && n < |ts| && StmtSpelled(ts, k, n, PrintStmt(value))
    ensures DeclarationAt(ts, k) == Ok(PrintStmt(value), n)
  {
    var c := PrintParts(ts, k, n, value);
    ExpressionComplete(ts, k + 1, c, value);
    assert PrintStatementAt(ts, k) == Ok(PrintStmt(value), n);
  }

  /** Every expression statement spelled by `ts[k..n]` is what `_declaration` returns. */
  lemma {:induction false} ExpressionStatementComplete(ts: seq<Token>, k: nat, n: nat, value: Expr)
    requires ValidCursor(ts, k) && n < |ts| && StmtSpelled(ts, k, n, ExpressionStmt(value))
    ensures DeclarationAt(ts, k) == Ok(ExpressionStmt(value), n)
  {
    var c := n - 1;
    LastSymOf(ts, k, n, Yield(value), Punct(Semicolon));
    ExpressionStart(ts, k, c, value);
    ExpressionComplete(ts, k, c, value);
  }

  /** Every declaration spelled by `ts[k..n]` is what `_declaration` returns. */
  lemma DeclarationComplete(ts: seq<Token>, k: nat, n: nat, s: Stmt)
    requires ValidCursor(ts, k) && n < |ts| && StmtSpelled(ts, k, n, s)
    ensures DeclarationAt(ts, k) == Ok(s, n)
  {
    match s
    case VarStmt(name, init) => VarDeclarationComplete(ts, k, n, name, init);
    case PrintStmt(value) => PrintStatementComplete(ts, k, n, value);
    case ExpressionStmt(value) => ExpressionStatementComplete(ts, k, n, value);
  }

  /** `_declaration`, up to its error handling, accepts exactly the declarations spelled by the tokens it consumes. */
  lemma DeclarationAtIff(ts: seq<Token>, k: nat, s: Stmt, n: nat)
    requires ValidCursor(ts, k)
    ensures DeclarationAt(ts, k) == Ok(s, n) <==> k <= n < |ts| && StmtSpelled(ts, k, n, s)
  {
    DeclarationSound(ts, k);
    if k <= n < |ts| && StmtSpelled(ts, k, n, s) {
      DeclarationComplete(ts, k, n, s);
    }
  }

  /** A declaration does not start with the end-of-file token. */
  lemma {:induction false} DeclarationStart(ts: seq<Token>, k: nat, n: nat, s: Stmt)
    requires StmtSpelled(ts, k, n, s)
    ensures k < n && ts[k].tokenType != Eof
  {
    match s
    case VarStmt(_, _) =>
      assert StmtYield(s)[0] == Punct(Var);
      SymsFirst(ts, k, n);
    case PrintStmt(_) =>
      assert StmtYield(s)[0] == Punct(Print);
      SymsFirst(ts, k, n);
    case ExpressionStmt(e) =>
      LastSymOf(ts, k, n, Yield(e), Punct(Semicolon));
      var c := n - 1;
      ExpressionStart(ts, k, c, e);
  }

  /**
   * Every list of declarations that spells the tokens up to the end-of-file
   * token is what `parse` returns.
   */
  lemma {:induction false} ParseFromComplete(ts: seq<Token>, k: nat, end: nat, ss: seq<Stmt>)
    requires ValidCursor(ts, k) && k <= end < |ts| && ts[end].tokenType == Eof
    requires forall i :: 0 <= i < |ss| ==> IsDeclaration(ss[i])
    requires StmtsYield(ss) == SymsBetween(ts, k, end)
    ensures ParseFrom(ts, k) == Finished(ss, end)
    decreases |ss|
  {
    if ss == [] {
      assert |SymsBetween(ts, k, end)| == 0;
      assert ParseFrom(ts, k) == Finished([], k);
    } else {
      var s := ss[0];
      var n := SplitAt(ts, k, end, StmtYield(s), StmtsYield(ss[1..]));
      DeclarationStart(ts, k, n, s);
      DeclarationComplete(ts, k, n, s);
      ParseFromComplete(ts, n, end, ss[1..]);
      assert ParseFrom(ts, k) == Resume([s], ParseFrom(ts, n));
      assert [s] + ss[1..] == ss;
    }
  }

  /**
   * `parse` finishes with the statements `ss` exactly when they are
   * declarations that spell every token before the end-of-file token.
   */
  lemma ParseFromIff(ts: seq<Token>, k: nat, ss: seq<Stmt>, end: nat)
    requires ValidCursor(ts, k)
    ensures ParseFrom(ts, k) == Finished(ss, end) <==>
      && k <= end < |ts| && ts[end].tokenType == Eof
      && (forall i :: 0 <= i < |ss| ==> IsDeclaration(ss[i]))
      && StmtsYield(ss) == SymsBetween(ts, k, end)
  {
    ParseFromSound(ts, k);
    if && k <= end < |ts| && ts[end].tokenType == Eof
       && (forall i :: 0 <= i < |ss| ==> IsDeclaration(ss[i]))
       && StmtsYield(ss) == SymsBetween(ts, k, end)
    {
      ParseFromComplete(ts, k, end, ss);
    }
  }

  /*
   * Uniqueness. Since each reference function returns one answer, the
   * characterisations above leave room for one tree only.
   */

  /** A stretch of tokens, closed by a token that cannot continue it, spells at most one equality-level tree. */
  lemma ExpressionTreeIsUnique(ts: seq<Token>, k: nat, n: nat, e1: Expr, e2: Expr)
    requires ValidCursor(ts, k) && k <= n < |ts| && !IsBinaryOperator(ts[n].tokenType)
    requires IsEquality(e1) && Yield(e1) == SymsBetween(ts, k, n)
    requires IsEquality(e2) && Yield(e2) == SymsBetween(ts, k, n)
    ensures e1 == e2
  {
    ExpressionAtIff(ts, k, e1, n);
    ExpressionAtIff(ts, k, e2, n);
  }

  /** A stretch of tokens spells at most one declaration. */
  lemma DeclarationIsUnique(ts: seq<Token>, k: nat, n: nat, s1: Stmt, s2: Stmt)
    requires ValidCursor(ts, k) && n < |ts| && StmtSpelled(ts, k, n, s1) && StmtSpelled(ts, k, n, s2)
    ensures s1 == s2
  {
    DeclarationAtIff(ts, k, s1, n);
    DeclarationAtIff(ts, k, s2, n);
  }

  /** The tokens up to the end-of-file token spell at most one list of declarations. */
  lemma ProgramIsUnique(ts: seq<Token>, k: nat, end: nat, ss1: seq<Stmt>, ss2: seq<Stmt>)
    requires ValidCursor(ts, k) && k <= end < |ts| && ts[end].tokenType == Eof
    requires forall i :: 0 <= i < |ss1| ==> IsDeclaration(ss1[i])
    requires forall i :: 0 <= i < |ss2| ==> IsDeclaration(ss2[i])
    requires StmtsYield(ss1) == SymsBetween(ts, k, end) && StmtsYield(ss2) == SymsBetween(ts, k, end)
    ensures ss1 == ss2
  {
    ParseFromIff(ts, k, ss1, end);
    ParseFromIff(ts, k, ss2, end);
  }

  /** A token the symbol `s` stands for (the line and, for literals, the lexeme are immaterial). */
  function SymToken(s: Sym): Token
  {
    match s
    case Tok(t) => t
    case Lit(v) =>
      (match v
       case NilVal => Token(Nil, "nil", NilVal, 0)
       case BoolVal(b) => Token(if b then True else False, if b then "true" else "false", NilVal, 0)
       case NumVal(_) => Token(Number, "", v, 0)
       case StrVal(_) => Token(String, "", v, 0))
    case Punct(tokenType) => Token(tokenType, "", NilVal, 0)
  }

  /** `s` is the symbol of the token it stands for. */
  predicate Respells(s: Sym)
  {
    TokenSym(SymToken(s)) == s
  }

  /** Every symbol of an equality-level tree stands for a token that spells it back. */
  lemma {:induction false} YieldRespells(e: Expr)
    requires IsEquality(e)
    ensures forall s :: s in Yield(e) ==> Respells(s)
  {
    EqualityCases(e);
    match e
    case BinaryExpr(left, operator, right) =>
      YieldRespells(left);
      YieldRespells(right);
      assert Respells(Tok(operator));
    case UnaryExpr(operator, right) =>
      YieldRespells(right);
      assert Respells(Tok(operator));
    case GroupingExpr(inner) =>
      YieldRespells(inner);
    case LiteralExpr(v) =>
    case VariableExpr(name) =>
  }

  /** Tokens that stand for symbols which respell are spelled by those symbols. */
  lemma {:induction false} SpelledBy(ts: seq<Token>, syms: seq<Sym>, b: nat)
    requires b <= |syms| <= |ts|
    requires forall i :: 0 <= i < |syms| ==> ts[i] == SymToken(syms[i])
    requires forall s :: s in syms ==> Respells(s)
    ensures SymsBetween(ts, 0, b) == syms[..b]
  {
    if b > 0 {
      SpelledBy(ts, syms, b - 1);
      assert syms[b - 1] in syms;
      assert syms[..b] == syms[..b - 1] + [syms[b - 1]];
    }
  }

  /**
   * The expression grammar is unambiguous: two equality-level trees with the
   * same symbols are the same tree.
   */
  lemma {:induction false} YieldDeterminesTree(e1: Expr, e2: Expr)
    requires IsEquality(e1) && IsEquality(e2) && Yield(e1) == Yield(e2)
    ensures e1 == e2
  {
    var syms := Yield(e1);
    YieldRespells(e1);
    var ts := seq(|syms|, i requires 0 <= i < |syms| => SymToken(syms[i])) + [Token(Eof, "", NilVal, 0)];
    SpelledBy(ts, syms, |syms|);
    assert syms[..|syms|] == syms;
    ExpressionTreeIsUnique(ts, 0, |syms|, e1, e2);
  }

  /*
   * The cases of `tests/test_parser.py`: `_expression` on one literal token
   * followed by the end-of-file token.
   */

  /** A single literal token followed by the end of input parses as that literal. */
  lemma {:induction false} SingleTokenExpression(t: Token, v: Value)
    requires TokenSym(t) == Lit(v)
    ensures ExpressionAt([t, Token(Eof, "", NilVal, t.line)], 0) == Ok(LiteralExpr(v), 1)
  {
    var ts := [t, Token(Eof, "", NilVal, t.line)];
    var e := LiteralExpr(v);
    assert SymsBetween(ts, 0, 1) == [Lit(v)] == Yield(e);
    assert IsPrimary(e) && IsUnary(e) && IsFactor(e);
    assert IsTerm(e) && IsComparison(e) && IsEquality(e);
    ExpressionAtIff(ts, 0, LiteralExpr(v), 1);
  }

  lemma ParseNumberExample()
    ensures ExpressionAt([Token(Number, "42", NumVal(42.0), 1), Token(Eof, "", NilVal, 1)], 0)
         == Ok(LiteralExpr(NumVal(42.0)), 1)
  {
    SingleTokenExpression(Token(Number, "42", NumVal(42.0), 1), NumVal(42.0));
  }

  lemma ParseStringExample()
    ensures ExpressionAt([Token(String, "\"hello\"", StrVal("hello"), 1), Token(Eof, "", NilVal, 1)], 0)
         == Ok(LiteralExpr(StrVal("hello")), 1)
  {
    SingleTokenExpression(Token(String, "\"hello\"", StrVal("hello"), 1), StrVal("hello"));
  }

  lemma ParseTrueExample()
    ensures ExpressionAt([Token(True, "true", NilVal, 1), Token(Eof, "", NilVal, 1)], 0)
         == Ok(LiteralExpr(BoolVal(true)), 1)
  {
    SingleTokenExpression(Token(True, "true", NilVal, 1), BoolVal(true));
  }

  lemma ParseFalseExample()
    ensures ExpressionAt([Token(False, "false", NilVal, 1), Token(Eof, "", NilVal, 1)], 0)
         == Ok(LiteralExpr(BoolVal(false)), 1)
  {
    SingleTokenExpression(Token(False, "false", NilVal, 1), BoolVal(false));
  }
}
