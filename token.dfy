/**
 * Lexical tokens (src/token.py, src/token_type.py) and the values they can carry.
 *
 * The original stores the token type in a field called `token_type` while the
 * parser and the interpreter read `.type`; the model has one field, `tokenType`.
 */
module Tokens {
  import opened Wrappers

  /** The closed set of lexical categories, in the order of src/token_type.py. */
  datatype TokenType =
    // single-character tokens
    | LeftParen | RightParen | LeftBrace | RightBrace | Comma | Dot
    | Minus | Plus | Semicolon | Slash | Star
    // one or two character tokens
    | Bang | BangEqual | Equal | EqualEqual
    | Greater | GreaterEqual | Less | LessEqual
    // literals
    | Identifier | String | Number
    // keywords
    | And | Class | Else | False | Fun | For | If | Nil | Or | Print
    | Return | Super | This | True | Var | While
    // end of file
    | Eof

  /**
   * The Python objects that appear as token literals and as runtime values:
   * None, bool, float and str. A float is modelled by the real it denotes.
   */
  datatype Value = NilVal | BoolVal(b: bool) | NumVal(x: real) | StrVal(s: string)

  /** The number a value stands for in Python arithmetic: bool is a subclass of int. */
  function NumericView(v: Value): (r: Option<real>)
    ensures r.Some? <==> v.BoolVal? || v.NumVal?
    ensures v.NumVal? ==> r == Some(v.x)
    ensures v.BoolVal? ==> r == Some(if v.b then 1.0 else 0.0)
  {
    match v
    case BoolVal(b) => Some(if b then 1.0 else 0.0)
    case NumVal(x) => Some(x)
    case _ => None
  }

  /**
   * Python's `==` on values: None equals only None, strings compare by content,
   * and bools and floats compare as numbers (so `True == 1.0`).
   */
  predicate PyEquals(a: Value, b: Value)
  {
    match (a, b)
    case (NilVal, NilVal) => true
    case (StrVal(s), StrVal(t)) => s == t
    case _ =>
      var na, nb := NumericView(a), NumericView(b);
      na.Some? && nb.Some? && na.value == nb.value
  }

  /** Python `==` is an equivalence relation on these values. */
  lemma PyEqualsIsEquivalence(a: Value, b: Value, c: Value)
    ensures PyEquals(a, a)
    ensures PyEquals(a, b) ==> PyEquals(b, a)
    ensures PyEquals(a, b) && PyEquals(b, c) ==> PyEquals(a, c)
  {
  }

  /**
   * Python `==` is structural equality except between a bool and a float, where
   * it compares numerically.
   */
  lemma PyEqualsVersusStructural(a: Value, b: Value)
    ensures !(a.BoolVal? && b.NumVal?) && !(a.NumVal? && b.BoolVal?) ==> (PyEquals(a, b) <==> a == b)
    ensures a.BoolVal? && b.NumVal? ==> (PyEquals(a, b) <==> b.x == if a.b then 1.0 else 0.0)
    ensures PyEquals(BoolVal(true), NumVal(1.0)) && BoolVal(true) != NumVal(1.0)
  {
  }

  /** A lexical token: its type, the exact source text, its literal (NilVal for none) and its line. */
  datatype Token = Token(tokenType: TokenType, lexeme: string, literal: Value, line: int)

  /** The right-hand operand of `==` or `!=` when the left one is a Token. */
  datatype Operand = TokenOperand(token: Token) | OtherObject

  /**
   * `Token.__eq__`: equal iff the four fields are equal, the literal compared
   * with Python `==`. Against a non-Token it returns NotImplemented, and Python
   * then falls back to identity, which is false for two different objects.
   */
  predicate TokenEquals(t: Token, other: Operand)
  {
    match other
    case OtherObject => false
    case TokenOperand(u) =>
      && t.tokenType == u.tokenType
      && t.lexeme == u.lexeme
      && PyEquals(t.literal, u.literal)
      && t.line == u.line
  }

  /**
   * `!=` on a Token: Python derives it from `__eq__` (negating it), and for a
   * non-Token the NotImplemented fallback is identity, so the objects differ.
   */
  predicate TokenNotEquals(t: Token, other: Operand)
  {
    match other
    case OtherObject => true
    case TokenOperand(u) => !TokenEquals(t, other)
  }

  /** `!=` is the negation of `==`, and nothing that is not a Token equals a Token. */
  lemma NotEqualsIsNegation(t: Token, other: Operand)
    ensures TokenNotEquals(t, other) <==> !TokenEquals(t, other)
    ensures other.OtherObject? ==> !TokenEquals(t, other)
  {
  }

  /** Token equality, like the Python `==` it uses on literals, is an equivalence relation on tokens. */
  lemma TokenEqualsIsEquivalence(t: Token, u: Token, w: Token)
    ensures TokenEquals(t, TokenOperand(t))
    ensures TokenEquals(t, TokenOperand(u)) ==> TokenEquals(u, TokenOperand(t))
    ensures TokenEquals(t, TokenOperand(u)) && TokenEquals(u, TokenOperand(w)) ==> TokenEquals(t, TokenOperand(w))
  {
    PyEqualsIsEquivalence(t.literal, u.literal, w.literal);
  }

  /**
   * The cases of `tests/test_token.py`: two `+` tokens on line 1 are equal,
   * `+` and `-` are not, and a token equals no object of another class.
   */
  lemma TokenEqualityExamples()
    ensures TokenEquals(Token(Plus, "+", NilVal, 1), TokenOperand(Token(Plus, "+", NilVal, 1)))
    ensures !TokenNotEquals(Token(Plus, "+", NilVal, 1), TokenOperand(Token(Plus, "+", NilVal, 1)))
    ensures TokenNotEquals(Token(Plus, "+", NilVal, 1), TokenOperand(Token(Minus, "-", NilVal, 1)))
    ensures !TokenEquals(Token(Plus, "+", NilVal, 1), TokenOperand(Token(Minus, "-", NilVal, 1)))
    ensures TokenNotEquals(Token(Plus, "+", NilVal, 1), OtherObject)
    ensures !TokenEquals(Token(Plus, "+", NilVal, 1), OtherObject)
  {
  }

  /**
   * Token equality is structural equality of the four fields, except that the
   * literals are compared with Python `==`; two tokens with different types
   * (or lexemes, or lines) are never equal.
   */
  lemma TokenEqualsIsStructural(t: Token, u: Token)
    ensures TokenEquals(t, TokenOperand(t))
    ensures TokenEquals(t, TokenOperand(u)) ==> t.tokenType == u.tokenType && t.lexeme == u.lexeme && t.line == u.line
    ensures !(t.literal.BoolVal? && u.literal.NumVal?) && !(t.literal.NumVal? && u.literal.BoolVal?) ==>
              (TokenEquals(t, TokenOperand(u)) <==> t == u)
  {
    PyEqualsIsEquivalence(t.literal, t.literal, t.literal);
    PyEqualsVersusStructural(t.literal, u.literal);
  }
}
