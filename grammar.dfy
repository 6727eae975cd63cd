/**
 * The grammar the recursive-descent parser of src/parser.py implements,
 * stated as a specification of the trees it builds:
 *
 *   declaration -> "var" IDENTIFIER ( "=" expression )? ";" | statement
 *   statement   -> "print" expression ";" | expression ";"
 *   expression  -> equality
 *   equality    -> comparison ( ( "!=" | "==" ) comparison )*
 *   comparison  -> term ( ( ">" | ">=" | "<" | "<=" ) term )*
 *   term        -> factor ( ( "-" | "+" ) factor )*
 *   factor      -> unary ( ( "/" | "*" ) unary )*
 *   unary       -> ( "!" | "-" ) unary | primary
 *   primary     -> "false" | "true" | "nil" | NUMBER | STRING | IDENTIFIER
 *                | "(" expression ")"
 *
 * A tree is tied to the tokens it was parsed from by its yield: the tree
 * spelled back as a sequence of lexical symbols. Shape predicates, one per
 * precedence level, say that every binary level is left-associative (the left
 * operand sits at the same level, the right operand one level down).
 */
module Grammar {
  import opened Wrappers
  import opened Tokens
  import opened Ast

  /**
   * What a token contributes to a tree: operators and identifiers are kept as
   * the token itself, literal tokens as the value they denote, and punctuation
   * and keywords that the tree does not store by their type alone.
   */
  datatype Sym = Tok(token: Token) | Lit(value: Value) | Punct(tokenType: TokenType)

  function TokenSym(t: Token): (s: Sym)
    ensures s.Lit? <==> t.tokenType in {Number, String, True, False, Nil}
    ensures s.Lit? ==> PrimaryOf(t) == Some(LiteralExpr(s.value))
    ensures t.tokenType == Identifier ==> s == Tok(t) && PrimaryOf(t) == Some(VariableExpr(t))
    ensures s.Tok? ==> s.token == t && PrimaryOf(t).None? == (t.tokenType != Identifier)
    ensures s.Punct? ==> s.tokenType == t.tokenType && PrimaryOf(t).None?
  {
    match t.tokenType
    case Number => Lit(t.literal)
    case String => Lit(t.literal)
    case True => Lit(BoolVal(true))
    case False => Lit(BoolVal(false))
    case Nil => Lit(NilVal)
    case LeftParen => Punct(LeftParen)
    case RightParen => Punct(RightParen)
    case Semicolon => Punct(Semicolon)
    case Equal => Punct(Equal)
    case Var => Punct(Var)
    case Print => Punct(Print)
    case _ => Tok(t)
  }

  /**
   * The tree `_primary` builds from a single token: `false`, `true` and `nil`
   * their literals, a NUMBER or STRING the literal its token carries, and an
   * IDENTIFIER a variable; no tree for any other token.
   */
  function PrimaryOf(t: Token): Option<Expr>
  {
    match t.tokenType
    case False => Some(LiteralExpr(BoolVal(false)))
    case True => Some(LiteralExpr(BoolVal(true)))
    case Nil => Some(LiteralExpr(NilVal))
    case Number => Some(LiteralExpr(t.literal))
    case String => Some(LiteralExpr(t.literal))
    case Identifier => Some(VariableExpr(t))
    case _ => None
  }

  /** The symbols of `ts[a..b]`, in order. */
  function SymsBetween(ts: seq<Token>, a: nat, b: nat): (r: seq<Sym>)
    requires a <= b <= |ts|
    ensures |r| == b - a
    decreases b
  {
    if a == b then [] else SymsBetween(ts, a, b - 1) + [TokenSym(ts[b - 1])]
  }

  /** The symbols of consecutive slices concatenate. */
  lemma {:induction false} SymsSplit(ts: seq<Token>, a: nat, b: nat, c: nat)
    requires a <= b <= c <= |ts|
    ensures SymsBetween(ts, a, c) == SymsBetween(ts, a, b) + SymsBetween(ts, b, c)
    decreases c
  {
    if b < c {
      SymsSplit(ts, a, b, c - 1);
    }
  }

  /** A nonempty slice spells its first token and then the rest. */
  lemma {:induction false} SymsFirst(ts: seq<Token>, a: nat, b: nat)
    requires a < b <= |ts|
    ensures SymsBetween(ts, a, b) == [TokenSym(ts[a])] + SymsBetween(ts, a + 1, b)
  {
    SymsSplit(ts, a, a + 1, b);
  }

  /**
   * A binary tree whose operands spell the slices on either side of an
   * operator token spells the whole slice.
   */
  lemma {:induction false} BinaryYield(ts: seq<Token>, a: nat, m: nat, b: nat, left: Expr, right: Expr)
    requires a <= m < b <= |ts| && IsBinaryOperator(ts[m].tokenType)
    requires Yield(left) == SymsBetween(ts, a, m) && Yield(right) == SymsBetween(ts, m + 1, b)
    ensures Yield(BinaryExpr(left, ts[m], right)) == SymsBetween(ts, a, b)
  {
    assert TokenSym(ts[m]) == Tok(ts[m]);
    SymsSplit(ts, a, m, b);
    SymsFirst(ts, m, b);
  }

  /**
   * One round of a binary level's loop: a tree of the level, an operator of
   * the level, and an operand of the next level down make a tree of the
   * level again, spelling the concatenated slices.
   */
  lemma EqualityStep(ts: seq<Token>, a: nat, m: nat, o: nat, b: nat, left: Expr, right: Expr)
    requires o == m + 1 && a <= m < b <= |ts| && IsEqualityOperator(ts[m].tokenType) && IsEquality(left) && IsComparison(right)
    requires Yield(left) == SymsBetween(ts, a, m) && Yield(right) == SymsBetween(ts, o, b)
    ensures IsEquality(BinaryExpr(left, ts[m], right)) && Yield(BinaryExpr(left, ts[m], right)) == SymsBetween(ts, a, b)
  {
    BinaryYield(ts, a, m, b, left, right);
  }

  lemma ComparisonStep(ts: seq<Token>, a: nat, m: nat, o: nat, b: nat, left: Expr, right: Expr)
    requires o == m + 1 && a <= m < b <= |ts| && IsComparisonOperator(ts[m].tokenType) && IsComparison(left) && IsTerm(right)
    requires Yield(left) == SymsBetween(ts, a, m) && Yield(right) == SymsBetween(ts, o, b)
    ensures IsComparison(BinaryExpr(left, ts[m], right)) && Yield(BinaryExpr(left, ts[m], right)) == SymsBetween(ts, a, b)
  {
    BinaryYield(ts, a, m, b, left, right);
  }

  lemma TermStep(ts: seq<Token>, a: nat, m: nat, o: nat, b: nat, left: Expr, right: Expr)
    requires o == m + 1 && a <= m < b <= |ts| && IsTermOperator(ts[m].tokenType) && IsTerm(left) && IsFactor(right)
    requires Yield(left) == SymsBetween(ts, a, m) && Yield(right) == SymsBetween(ts, o, b)
    ensures IsTerm(BinaryExpr(left, ts[m], right)) && Yield(BinaryExpr(left, ts[m], right)) == SymsBetween(ts, a, b)
  {
    BinaryYield(ts, a, m, b, left, right);
  }

  lemma FactorStep(ts: seq<Token>, a: nat, m: nat, o: nat, b: nat, left: Expr, right: Expr)
    requires o == m + 1 && a <= m < b <= |ts| && IsFactorOperator(ts[m].tokenType) && IsFactor(left) && IsUnary(right)
    requires Yield(left) == SymsBetween(ts, a, m) && Yield(right) == SymsBetween(ts, o, b)
    ensures IsFactor(BinaryExpr(left, ts[m], right)) && Yield(BinaryExpr(left, ts[m], right)) == SymsBetween(ts, a, b)
  {
    BinaryYield(ts, a, m, b, left, right);
  }

  /** The tree spelled back as symbols; assignment and logical trees are never built by this parser. */
  function Yield(e: Expr): seq<Sym>
  {
    match e
    case BinaryExpr(left, operator, right) => Yield(left) + [Tok(operator)] + Yield(right)
    case UnaryExpr(operator, right) => [Tok(operator)] + Yield(right)
    case GroupingExpr(inner) => [Punct(LeftParen)] + Yield(inner) + [Punct(RightParen)]
    case LiteralExpr(v) => [Lit(v)]
    case VariableExpr(name) => [Tok(name)]
    case AssignExpr(name, value) => [Tok(name), Punct(Equal)] + Yield(value)
    case LogicalExpr(left, operator, right) => Yield(left) + [Tok(operator)] + Yield(right)
  }

  /** The operator tokens of each binary level and of the unary level. */
  predicate IsEqualityOperator(t: TokenType) { t == BangEqual || t == EqualEqual }
  predicate IsComparisonOperator(t: TokenType) { t == Greater || t == GreaterEqual || t == Less || t == LessEqual }
  predicate IsTermOperator(t: TokenType) { t == Minus || t == Plus }
  predicate IsFactorOperator(t: TokenType) { t == Slash || t == Star }
  predicate IsUnaryOperator(t: TokenType) { t == Bang || t == Minus }
  predicate IsBinaryOperator(t: TokenType)
  {
    IsEqualityOperator(t) || IsComparisonOperator(t) || IsTermOperator(t) || IsFactorOperator(t)
  }

  /** A literal, a variable, or a parenthesised expression. */
  predicate IsPrimary(e: Expr)
    decreases e, 0
  {
    match e
    case LiteralExpr(_) => true
    case VariableExpr(name) => name.tokenType == Identifier
    case GroupingExpr(inner) => IsEquality(inner)
    case _ => false
  }

  /** Prefix `!` and `-` nest to the right around a primary. */
  predicate IsUnary(e: Expr)
    decreases e, 1
  {
    match e
    case UnaryExpr(operator, right) => IsUnaryOperator(operator.tokenType) && IsUnary(right)
    case _ => IsPrimary(e)
  }

  predicate IsFactor(e: Expr)
    decreases e, 2
  {
    if e.BinaryExpr? && IsFactorOperator(e.operator.tokenType) then IsFactor(e.left) && IsUnary(e.right)
    else IsUnary(e)
  }

  predicate IsTerm(e: Expr)
    decreases e, 3
  {
    if e.BinaryExpr? && IsTermOperator(e.operator.tokenType) then IsTerm(e.left) && IsFactor(e.right)
    else IsFactor(e)
  }

  predicate IsComparison(e: Expr)
    decreases e, 4
  {
    if e.BinaryExpr? && IsComparisonOperator(e.operator.tokenType) then IsComparison(e.left) && IsTerm(e.right)
    else IsTerm(e)
  }

  predicate IsEquality(e: Expr)
    decreases e, 5
  {
    if e.BinaryExpr? && IsEqualityOperator(e.operator.tokenType) then IsEquality(e.left) && IsComparison(e.right)
    else IsComparison(e)
  }

  /** The statements the parser builds: var declarations, print and expression statements. */
  predicate IsDeclaration(s: Stmt)
  {
    match s
    case ExpressionStmt(e) => IsEquality(e)
    case PrintStmt(e) => IsEquality(e)
    case VarStmt(name, init) => name.tokenType == Identifier && (init.Some? ==> IsEquality(init.value))
    case _ => false
  }

  /** A statement spelled back as symbols. */
  function StmtYield(s: Stmt): seq<Sym>
    requires IsDeclaration(s)
  {
    match s
    case ExpressionStmt(e) => Yield(e) + [Punct(Semicolon)]
    case PrintStmt(e) => [Punct(Print)] + Yield(e) + [Punct(Semicolon)]
    case VarStmt(name, init) =>
      [Punct(Var), Tok(name)] + (if init.Some? then [Punct(Equal)] + Yield(init.value) else []) + [Punct(Semicolon)]
  }

  /**
   * The optional `= initializer` of a variable declaration, spelled by the
   * tokens from `a` up to `b`: nothing when the token at `a` is not `=`,
   * otherwise `=` followed by an equality-level expression.
   */
  ghost predicate InitializerSpelled(ts: seq<Token>, a: nat, b: nat, init: Option<Expr>)
  {
    && a <= b < |ts|
    && match init
       case None => b == a && ts[a].tokenType != Equal
       case Some(e) => a < b && ts[a].tokenType == Equal && IsEquality(e) && Yield(e) == SymsBetween(ts, a + 1, b)
  }

  /** `( inner )` spelled by the tokens from `p` up to `c`: the inner expression from `a` up to the `)` at `e`. */
  lemma {:induction false} GroupYield(ts: seq<Token>, p: nat, a: nat, e: nat, c: nat, inner: Expr)
    requires a == p + 1 && a <= e && e + 1 == c && c <= |ts|
    requires ts[p].tokenType == LeftParen && ts[e].tokenType == RightParen
    requires Yield(inner) == SymsBetween(ts, a, e)
    ensures Yield(GroupingExpr(inner)) == SymsBetween(ts, p, c)
  {
    assert TokenSym(ts[p]) == Punct(LeftParen);
    assert TokenSym(ts[e]) == Punct(RightParen);
    assert SymsBetween(ts, p, c) == SymsBetween(ts, p, e) + [Punct(RightParen)];
    SymsFirst(ts, p, e);
  }

  /** A statement the parser can build, spelled by the tokens from `a` up to `b`. */
  ghost predicate StmtSpelled(ts: seq<Token>, a: nat, b: nat, s: Stmt)
  {
    a <= b <= |ts| && IsDeclaration(s) && StmtYield(s) == SymsBetween(ts, a, b)
  }

  /**
   * `var name (= init)? ;` spelled by the tokens from `v` up to `c`: the
   * initializer from `n` up to the `;` at `e`.
   */
  lemma {:induction false} VarStmtYield(ts: seq<Token>, v: nat, n: nat, e: nat, c: nat, name: Token, init: Option<Expr>)
    requires n == v + 2 && n <= e && e + 1 == c && c <= |ts|
    requires ts[v].tokenType == Var && ts[v + 1] == name && name.tokenType == Identifier
    requires InitializerSpelled(ts, n, e, init) && ts[e].tokenType == Semicolon
    ensures StmtSpelled(ts, v, c, VarStmt(name, init))
  {
    var initSyms := if init.Some? then [Punct(Equal)] + Yield(init.value) else [];
    VarPrefixSyms(ts, v);
    InitializerSyms(ts, n, e, init);
    SymsSplit(ts, v, n, e);
    assert SymsBetween(ts, v, e) == [Punct(Var), Tok(name)] + initSyms;
    assert SymsBetween(ts, v, c) == SymsBetween(ts, v, c - 1) + [TokenSym(ts[c - 1])];
    assert TokenSym(ts[e]) == Punct(Semicolon);
    VarStmtSyms(name, init);
  }

  /** The symbols of `var name (= init)? ;`. */
  lemma VarStmtSyms(name: Token, init: Option<Expr>)
    requires name.tokenType == Identifier && (init.Some? ==> IsEquality(init.value))
    ensures IsDeclaration(VarStmt(name, init))
    ensures StmtYield(VarStmt(name, init))
         == [Punct(Var), Tok(name)] + (if init.Some? then [Punct(Equal)] + Yield(init.value) else []) + [Punct(Semicolon)]
  {
  }

  /** The symbols of an optional `= initializer`. */
  lemma {:induction false} InitializerSyms(ts: seq<Token>, n: nat, e: nat, init: Option<Expr>)
    requires n <= e && InitializerSpelled(ts, n, e, init)
    ensures SymsBetween(ts, n, e) == if init.Some? then [Punct(Equal)] + Yield(init.value) else []
  {
    if init.Some? {
      assert TokenSym(ts[n]) == Punct(Equal);
      SymsFirst(ts, n, e);
    }
  }

  /** The symbols of the `var NAME` prefix. */
  lemma {:induction false} VarPrefixSyms(ts: seq<Token>, v: nat)
    requires v + 1 < |ts| && ts[v].tokenType == Var && ts[v + 1].tokenType == Identifier
    ensures SymsBetween(ts, v, v + 2) == [Punct(Var), Tok(ts[v + 1])]
  {
    assert TokenSym(ts[v]) == Punct(Var);
    assert TokenSym(ts[v + 1]) == Tok(ts[v + 1]);
    assert SymsBetween(ts, v, v + 1) == [TokenSym(ts[v])];
  }

  /** `print value ;` spelled by the tokens from `p` up to `c`: the value from `a` up to the `;` at `e`. */
  lemma {:induction false} PrintStmtYield(ts: seq<Token>, p: nat, a: nat, e: nat, c: nat, value: Expr)
    requires a == p + 1 && a <= e && e + 1 == c && c <= |ts|
    requires ts[p].tokenType == Print && ts[e].tokenType == Semicolon
    requires IsEquality(value) && Yield(value) == SymsBetween(ts, a, e)
    ensures StmtSpelled(ts, p, c, PrintStmt(value))
  {
    assert TokenSym(ts[p]) == Punct(Print);
    assert TokenSym(ts[e]) == Punct(Semicolon);
    assert SymsBetween(ts, p, c) == SymsBetween(ts, p, e) + [Punct(Semicolon)];
    SymsFirst(ts, p, e);
    assert SymsBetween(ts, p, e) == [Punct(Print)] + Yield(value);
    assert StmtYield(PrintStmt(value)) == [Punct(Print)] + Yield(value) + [Punct(Semicolon)];
  }

  /** `value ;` spelled by the tokens from `a` up to `c`: the value up to the `;` at `e`. */
  lemma {:induction false} ExpressionStmtYield(ts: seq<Token>, a: nat, e: nat, c: nat, value: Expr)
    requires a <= e && e + 1 == c && c <= |ts| && ts[e].tokenType == Semicolon
    requires IsEquality(value) && Yield(value) == SymsBetween(ts, a, e)
    ensures StmtSpelled(ts, a, c, ExpressionStmt(value))
  {
  }

  /** A list of statements spelled back, one after another. */
  function StmtsYield(ss: seq<Stmt>): seq<Sym>
    requires forall k :: 0 <= k < |ss| ==> IsDeclaration(ss[k])
  {
    if ss == [] then [] else StmtYield(ss[0]) + StmtsYield(ss[1..])
  }

  /**
   * Each level contains the levels below it, so a tree built at a lower level
   * is acceptable wherever a higher level is expected.
   */
  lemma LevelsNest(e: Expr)
    ensures IsPrimary(e) ==> IsUnary(e)
    ensures IsUnary(e) ==> IsFactor(e)
    ensures IsFactor(e) ==> IsTerm(e)
    ensures IsTerm(e) ==> IsComparison(e)
    ensures IsComparison(e) ==> IsEquality(e)
  {
    if IsPrimary(e) { PrimaryIsUnary(e); }
    if IsUnary(e) { UnaryIsFactor(e); }
    if IsFactor(e) { FactorIsTerm(e); }
    if IsTerm(e) { TermIsComparison(e); }
    if IsComparison(e) { ComparisonIsEquality(e); }
  }

  lemma PrimaryIsUnary(e: Expr)
    requires IsPrimary(e)
    ensures IsUnary(e)
  {
    assert !e.UnaryExpr?;
  }

  lemma UnaryIsFactor(e: Expr)
    requires IsUnary(e)
    ensures IsFactor(e)
  {
    assert !e.BinaryExpr?;
  }

  lemma FactorIsTerm(e: Expr)
    requires IsFactor(e)
    ensures IsTerm(e)
  {
    if e.BinaryExpr? {
      assert !IsUnary(e);
      assert IsFactorOperator(e.operator.tokenType);
    }
  }

  lemma TermIsComparison(e: Expr)
    requires IsTerm(e)
    ensures IsComparison(e)
  {
    if e.BinaryExpr? {
      assert !IsUnary(e);
      assert IsFactor(e) ==> IsFactorOperator(e.operator.tokenType);
    }
  }

  lemma ComparisonIsEquality(e: Expr)
    requires IsComparison(e)
    ensures IsEquality(e)
  {
    if e.BinaryExpr? {
      assert !IsUnary(e);
      assert IsFactor(e) ==> IsFactorOperator(e.operator.tokenType);
      assert IsTerm(e) ==> IsTermOperator(e.operator.tokenType) || IsFactorOperator(e.operator.tokenType);
    }
  }

  /**
   * Binary levels are left-associative: `a - b - c` groups as `(a - b) - c`,
   * and the other grouping is not a term at all.
   */
  lemma TermIsLeftAssociative(a: Expr, b: Expr, c: Expr, minus1: Token, minus2: Token)
    requires IsFactor(a) && IsFactor(b) && IsFactor(c)
    requires minus1.tokenType == Minus && minus2.tokenType == Minus
    ensures IsTerm(BinaryExpr(BinaryExpr(a, minus1, b), minus2, c))
    ensures !IsTerm(BinaryExpr(a, minus1, BinaryExpr(b, minus2, c)))
    ensures Yield(BinaryExpr(BinaryExpr(a, minus1, b), minus2, c)) == Yield(BinaryExpr(a, minus1, BinaryExpr(b, minus2, c)))
  {
    LevelsNest(a);
    var ab := BinaryExpr(a, minus1, b);
    assert IsTerm(ab);
    var bc := BinaryExpr(b, minus2, c);
    assert !IsUnary(bc);
    assert !IsFactor(bc);
  }

  /**
   * Factor binds tighter than term: `a + b * c` groups as `a + (b * c)`, and
   * the grouping `(a + b) * c` without parentheses is not a term.
   */
  lemma FactorBindsTighter(a: Expr, b: Expr, c: Expr, plus: Token, star: Token)
    requires IsFactor(a) && IsUnary(b) && IsUnary(c)
    requires plus.tokenType == Plus && star.tokenType == Star
    ensures IsTerm(BinaryExpr(a, plus, BinaryExpr(b, star, c)))
    ensures !IsTerm(BinaryExpr(BinaryExpr(a, plus, b), star, c))
  {
    LevelsNest(a);
    var bc := BinaryExpr(b, star, c);
    assert IsFactor(b);
    assert IsFactor(bc);
    var ab := BinaryExpr(a, plus, b);
    assert !IsUnary(ab);
    assert !IsFactor(ab);
  }

  /** Every tree spells at least one symbol; only literals and variables spell exactly one. */
  lemma {:induction false} YieldNonEmpty(e: Expr)
    ensures |Yield(e)| >= 1
    ensures |Yield(e)| == 1 <==> e.LiteralExpr? || e.VariableExpr?
  {
    match e
    case BinaryExpr(left, _, right) => YieldNonEmpty(left); YieldNonEmpty(right);
    case UnaryExpr(_, right) => YieldNonEmpty(right);
    case GroupingExpr(inner) => YieldNonEmpty(inner);
    case LiteralExpr(_) =>
    case VariableExpr(_) =>
    case AssignExpr(_, value) => YieldNonEmpty(value);
    case LogicalExpr(left, _, right) => YieldNonEmpty(left); YieldNonEmpty(right);
  }

  /**
   * An expression that spells a single literal symbol is that literal: a
   * NUMBER, STRING, `true`, `false` or `nil` token parses to the literal of
   * its value, and nothing else.
   */
  lemma SingleLiteralYield(e: Expr, v: Value)
    requires Yield(e) == [Lit(v)]
    ensures e == LiteralExpr(v)
  {
    YieldNonEmpty(e);
  }
}
