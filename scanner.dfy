/**
 * The lexer (src/scanner.py): a single left-to-right pass over the source
 * with a `start`/`current` cursor pair and a line counter, appending tokens in
 * place and always finishing with one end-of-file token.
 *
 * Character classes are ASCII: Python's `str.isdigit` and `str.isalpha` also
 * accept other Unicode digits and letters.
 */
module Scanning {
  import opened Wrappers
  import opened Tokens

  /** What `_peek` and `_peek_next` return past the end of the source. */
  const NullChar: char := '\0'

  predicate IsDigit(c: char) { '0' <= c <= '9' }

  predicate IsAlpha(c: char) { 'a' <= c <= 'z' || 'A' <= c <= 'Z' || c == '_' }

  predicate IsAlphaNumeric(c: char) { IsDigit(c) || IsAlpha(c) }

  /** The reserved words and their token types (`Scanner.KEYWORDS`). */
  const Keywords: map<string, TokenType> := map[
    "and" := And, "class" := Class, "else" := Else, "false" := False,
    "for" := For, "fun" := Fun, "if" := If, "nil" := Nil,
    "or" := Or, "print" := Print, "return" := Return, "super" := Super,
    "this" := This, "true" := True, "var" := Var, "while" := While
  ]

  /** The type of an identifier-shaped lexeme: a keyword's own type, else Identifier. */
  function KeywordOrIdentifier(text: string): (t: TokenType)
    ensures t != Identifier <==> text in Keywords
    ensures text in Keywords ==> t == Keywords[text]
    ensures t != Eof
  {
    if text in Keywords then Keywords[text] else Identifier
  }

  /** The one-character tokens that need no lookahead. */
  function SingleCharToken(c: char): Option<TokenType>
  {
    match c
    case '(' => Some(LeftParen)
    case ')' => Some(RightParen)
    case '{' => Some(LeftBrace)
    case '}' => Some(RightBrace)
    case ',' => Some(Comma)
    case '.' => Some(Dot)
    case '-' => Some(Minus)
    case '+' => Some(Plus)
    case ';' => Some(Semicolon)
    case '*' => Some(Star)
    case _ => None
  }

  /** The characters that form a two-character token when followed by `=`. */
  predicate IsOperatorStart(c: char) { c == '!' || c == '=' || c == '<' || c == '>' }

  /** `!`, `=`, `<`, `>` alone, or followed by `=`. */
  function OperatorToken(c: char, withEqual: bool): TokenType
    requires IsOperatorStart(c)
  {
    match c
    case '!' => if withEqual then BangEqual else Bang
    case '=' => if withEqual then EqualEqual else Equal
    case '<' => if withEqual then LessEqual else Less
    case _ => if withEqual then GreaterEqual else Greater
  }

  /** Whitespace that produces no token and does not change the line. */
  predicate IsBlank(c: char) { c == ' ' || c == '\r' || c == '\t' }

  /** The number of line breaks in `s[..i]`. */
  function NewlinesBefore(s: string, i: nat): nat
    requires i <= |s|
  {
    if i == 0 then 0 else NewlinesBefore(s, i - 1) + (if s[i - 1] == '\n' then 1 else 0)
  }

  /** The end of the run of digits starting at `i`. */
  function DigitsEnd(s: string, i: nat): (j: nat)
    requires i <= |s|
    ensures i <= j <= |s|
    decreases |s| - i
  {
    if i < |s| && IsDigit(s[i]) then DigitsEnd(s, i + 1) else i
  }

  /** The end of the run of letters, digits and underscores starting at `i`. */
  function AlphaNumericEnd(s: string, i: nat): (j: nat)
    requires i <= |s|
    ensures i <= j <= |s|
    decreases |s| - i
  {
    if i < |s| && IsAlphaNumeric(s[i]) then AlphaNumericEnd(s, i + 1) else i
  }

  /** The index of the first `c` at or after `i`, or the length of `s` when there is none. */
  function IndexFrom(s: string, i: nat, c: char): (j: nat)
    requires i <= |s|
    ensures i <= j <= |s|
    decreases |s| - i
  {
    if i < |s| && s[i] != c then IndexFrom(s, i + 1, c) else i
  }

  /** Where a `//` comment whose text starts at `i` stops: at the next line break, or the end. */
  function LineEnd(s: string, i: nat): (j: nat)
    requires i <= |s|
    ensures i <= j <= |s|
  {
    IndexFrom(s, i, '\n')
  }

  /** The index of the first `"` at or after `i`, or the length of `s` when there is none. */
  function QuoteIndex(s: string, i: nat): (j: nat)
    requires i <= |s|
    ensures i <= j <= |s|
  {
    IndexFrom(s, i, '"')
  }

  /**
   * The end of the number literal starting at the digit `s[i]`: a run of digits,
   * then a `.` and a further run of digits only when a digit follows the `.`.
   */
  function NumberEnd(s: string, i: nat): (j: nat)
    requires i < |s| && IsDigit(s[i])
    ensures i < j <= |s|
  {
    var d := DigitsEnd(s, i);
    if d + 1 < |s| && s[d] == '.' && IsDigit(s[d + 1]) then DigitsEnd(s, d + 1) else d
  }

  /** The end of the identifier starting at the letter or underscore `s[i]`. */
  function IdentifierEnd(s: string, i: nat): (j: nat)
    requires i < |s| && IsAlpha(s[i])
    ensures i < j <= |s|
  {
    AlphaNumericEnd(s, i)
  }

  /** The value of a run of decimal digits. */
  function WholeValue(digits: string): nat
  {
    if digits == [] then 0
    else WholeValue(digits[..|digits| - 1]) * 10 + DigitValue(digits[|digits| - 1])
  }

  function DigitValue(c: char): nat
  {
    if IsDigit(c) then c as int - '0' as int else 0
  }

  function Pow10(n: nat): (r: nat)
    ensures r > 0
  {
    if n == 0 then 1 else 10 * Pow10(n - 1)
  }

  /** The index of the first `.` in `s`, or `|s|` when there is none. */
  function DotIndex(s: string): (j: nat)
    ensures j <= |s|
  {
    IndexFrom(s, 0, '.')
  }

  /**
   * The exact value of a numeral `digits` or `digits.digits`; it stands for
   * Python's `float(text)`, without the rounding to a double.
   */
  function DecimalValue(text: string): real
  {
    var p := DotIndex(text);
    if p < |text|
    then WholeValue(text[..p]) as real + WholeValue(text[p + 1..]) as real / Pow10(|text| - p - 1) as real
    else WholeValue(text) as real
  }

  /** The numerals of the original tests denote the numbers they spell. */
  lemma DecimalValueExamples()
    ensures DecimalValue("10") == 10.0
    ensures DecimalValue("25") == 25.0
    ensures DecimalValue("45.67") == 45.67
  {
    assert WholeValue("1") == 1 && WholeValue("10") == 10;
    assert WholeValue("2") == 2 && WholeValue("25") == 25;
    assert WholeValue("4") == 4 && WholeValue("45") == 45;
    assert WholeValue("6") == 6 && WholeValue("67") == 67;
    assert "45.67"[..2] == "45" && "45.67"[3..] == "67";
    assert DotIndex("45.67") == 2;
    assert DotIndex("10") == 2;
    assert DotIndex("25") == 2;
  }

  /** `IndexFrom` finds the first `c` at or after `i`. */
  lemma {:induction false} IndexFromIsFirst(s: string, i: nat, c: char)
    requires i <= |s|
    ensures forall k :: i <= k < IndexFrom(s, i, c) ==> s[k] != c
    ensures IndexFrom(s, i, c) == |s| || s[IndexFrom(s, i, c)] == c
    decreases |s| - i
  {
    if i < |s| && s[i] != c {
      IndexFromIsFirst(s, i + 1, c);
    }
  }

  /** `DigitsEnd` ends the longest run of digits starting at `i`. */
  lemma {:induction false} DigitsEndIsLongestRun(s: string, i: nat)
    requires i <= |s|
    ensures forall k :: i <= k < DigitsEnd(s, i) ==> IsDigit(s[k])
    ensures DigitsEnd(s, i) == |s| || !IsDigit(s[DigitsEnd(s, i)])
    decreases |s| - i
  {
    if i < |s| && IsDigit(s[i]) {
      DigitsEndIsLongestRun(s, i + 1);
    }
  }

  /** `AlphaNumericEnd` ends the longest run of letters, digits and underscores starting at `i`. */
  lemma {:induction false} AlphaNumericEndIsLongestRun(s: string, i: nat)
    requires i <= |s|
    ensures forall k :: i <= k < AlphaNumericEnd(s, i) ==> IsAlphaNumeric(s[k])
    ensures AlphaNumericEnd(s, i) == |s| || !IsAlphaNumeric(s[AlphaNumericEnd(s, i)])
    decreases |s| - i
  {
    if i < |s| && IsAlphaNumeric(s[i]) {
      AlphaNumericEndIsLongestRun(s, i + 1);
    }
  }

  /**
   * A number lexeme is digits with at most one `.`, and that `.` sits between
   * two digits; the lexeme ends with a digit and is not followed by one.
   */
  lemma NumberLexemeShape(s: string, i: nat)
    requires i < |s| && IsDigit(s[i])
    ensures var j := NumberEnd(s, i);
      && (forall k :: i <= k < j ==> IsDigit(s[k]) || (s[k] == '.' && i < k && k + 1 < j && IsDigit(s[k + 1])))
      && (forall k, m :: i <= k < m < j && s[k] == '.' ==> s[m] != '.')
      && IsDigit(s[j - 1])
      && (j == |s| || !IsDigit(s[j]))
  {
    var d := DigitsEnd(s, i);
    DigitsEndIsLongestRun(s, i);
    if d + 1 < |s| && s[d] == '.' && IsDigit(s[d + 1]) {
      DigitsEndIsLongestRun(s, d + 1);
    }
  }

  /** An identifier lexeme is the longest run of letters, digits and underscores. */
  lemma IdentifierLexemeShape(s: string, i: nat)
    requires i < |s| && IsAlpha(s[i])
    ensures var j := IdentifierEnd(s, i);
      && (forall k :: i <= k < j ==> IsAlphaNumeric(s[k]))
      && (j == |s| || !IsAlphaNumeric(s[j]))
  {
    AlphaNumericEndIsLongestRun(s, i);
  }

  /** A call made to the scanner's error reporter: the line and the message. */
  datatype ScanError = ScanError(line: int, message: string)

  /** Token `t` was scanned from `source[span.0..span.1]`, a non-empty slice. */
  ghost predicate Spells(source: string, t: Token, span: (nat, nat))
  {
    && span.0 < span.1 <= |source|
    && t.tokenType != Eof
    && t.lexeme == source[span.0..span.1]
    && t.line == 1 + NewlinesBefore(source, span.1)
  }

  /**
   * The tokens were scanned from the given spans, which are in source order
   * and do not overlap.
   */
  ghost predicate SpelledInOrder(source: string, tokens: seq<Token>, spans: seq<(nat, nat)>)
  {
    && |spans| == |tokens|
    && (forall k :: 0 <= k < |tokens| ==> Spells(source, tokens[k], spans[k]))
    && (forall k :: 0 <= k < |spans| - 1 ==> spans[k].1 <= spans[k + 1].0)
  }

  /**
   * What `_scan_token` does with the lexeme that starts at `s[i]`: the index
   * where it ends, the type and literal of the token it adds (if any), and the
   * message it reports (if any).
   */
  datatype Step = Step(end: nat, token: Option<(TokenType, Value)>, error: Option<string>)

  ghost function ScanStep(s: string, i: nat): (step: Step)
    requires i < |s|
    ensures i < step.end <= |s|
    ensures step.token.Some? ==> step.token.value.0 != Eof
  {
    var c := s[i];
    if SingleCharToken(c).Some? then
      Step(i + 1, Some((SingleCharToken(c).value, NilVal)), None)
    else if IsOperatorStart(c) then
      var two := i + 1 < |s| && s[i + 1] == '=';
      Step(if two then i + 2 else i + 1, Some((OperatorToken(c, two), NilVal)), None)
    else if c == '/' then
      if i + 1 < |s| && s[i + 1] == '/' then Step(LineEnd(s, i + 2), None, None)
      else Step(i + 1, Some((Slash, NilVal)), None)
    else if IsBlank(c) || c == '\n' then
      Step(i + 1, None, None)
    else if c == '"' then StringStep(s, i)
    else if IsDigit(c) then NumberStep(s, i)
    else if IsAlpha(c) then WordStep(s, i)
    else Step(i + 1, None, Some("Unexpected character."))
  }

  /**
   * A string literal opened at `s[i]`: it ends after the next `"`, and its
   * literal is the text between the quotes; with no closing quote the rest
   * of the source is consumed and an error reported instead.
   */
  ghost function StringStep(s: string, i: nat): (step: Step)
    requires i < |s|
    ensures i < step.end <= |s|
  {
    var close := QuoteIndex(s, i + 1);
    if close == |s| then Step(|s|, None, Some("Unterminated string."))
    else Step(close + 1, Some((String, StrVal(s[i + 1..close]))), None)
  }

  /** A number literal starting at the digit `s[i]`, carrying the numeral's value. */
  ghost function NumberStep(s: string, i: nat): (step: Step)
    requires i < |s| && IsDigit(s[i])
    ensures i < step.end <= |s|
  {
    var end := NumberEnd(s, i);
    Step(end, Some((Number, NumVal(DecimalValue(s[i..end])))), None)
  }

  /** A keyword or an identifier starting at the letter or underscore `s[i]`. */
  ghost function WordStep(s: string, i: nat): (step: Step)
    requires i < |s| && IsAlpha(s[i])
    ensures i < step.end <= |s|
    ensures step.token.Some? && step.token.value.0 != Eof
  {
    var end := IdentifierEnd(s, i);
    Step(end, Some((KeywordOrIdentifier(s[i..end]), NilVal)), None)
  }

  /** The token `ScanStep(s, i)` adds, if any, spelled by its slice on the line where it ends. */
  ghost function StepTokens(s: string, i: nat): seq<Token>
    requires i < |s|
  {
    var step := ScanStep(s, i);
    if step.token.Some?
    then [Token(step.token.value.0, s[i..step.end], step.token.value.1, 1 + NewlinesBefore(s, step.end))]
    else []
  }

  /** The error `ScanStep(s, i)` reports, if any, on the line where it stops. */
  ghost function StepErrors(s: string, i: nat): seq<ScanError>
    requires i < |s|
  {
    var step := ScanStep(s, i);
    if step.error.Some? then [ScanError(1 + NewlinesBefore(s, step.end), step.error.value)] else []
  }

  /**
   * The tokens (without the end-of-file token) and the errors of scanning
   * `s` from index `i` to the end, one `ScanStep` after another.
   */
  ghost function ScanFrom(s: string, i: nat): (r: (seq<Token>, seq<ScanError>))
    requires i <= |s|
    decreases |s| - i
  {
    if i == |s| then ([], [])
    else
      var rest := ScanFrom(s, ScanStep(s, i).end);
      (StepTokens(s, i) + rest.0, StepErrors(s, i) + rest.1)
  }

  /** Scanning from `i` is the first step's share followed by scanning from where that step ends. */
  lemma {:induction false} ScanFromFirstStep(s: string, i: nat)
    requires i < |s|
    ensures ScanFrom(s, i).0 == StepTokens(s, i) + ScanFrom(s, ScanStep(s, i).end).0
    ensures ScanFrom(s, i).1 == StepErrors(s, i) + ScanFrom(s, ScanStep(s, i).end).1
  {
  }

  /**
   * A string lexeme runs from its opening quote to the next quote, and its
   * literal is the lexeme without the two quotes; when no quote follows, the
   * rest of the source is consumed, no token is added and an error is reported.
   */
  lemma StringStepShape(s: string, i: nat)
    requires i < |s| && s[i] == '"'
    ensures var step := ScanStep(s, i);
      && (step.error.Some? <==> forall k :: i < k < |s| ==> s[k] != '"')
      && (step.error.Some? ==> step.end == |s| && step.token.None? && step.error.value == "Unterminated string.")
      && (step.error.None? ==>
            && step.token.Some? && i + 2 <= step.end && s[step.end - 1] == '"'
            && (forall k :: i < k < step.end - 1 ==> s[k] != '"')
            && step.token.value == (String, StrVal(s[i + 1..step.end - 1]))
            && s[i..step.end] == ['"'] + s[i + 1..step.end - 1] + ['"'])
  {
    IndexFromIsFirst(s, i + 1, '"');
    var close := QuoteIndex(s, i + 1);
    if close < |s| {
      SliceBetweenEnds(s, i, close + 1);
    }
  }

  /** A slice of at least two elements is its first element, the inside, and its last element. */
  lemma SliceBetweenEnds<T>(s: seq<T>, a: nat, b: nat)
    requires a + 2 <= b <= |s|
    ensures s[a..b] == [s[a]] + s[a + 1..b - 1] + [s[b - 1]]
  {
    var inner := [s[a]] + s[a + 1..b - 1] + [s[b - 1]];
    assert |inner| == b - a;
    forall k | 0 <= k < b - a
      ensures s[a..b][k] == inner[k]
    {
      if k == 0 {
      } else if k == b - a - 1 {
      } else {
        assert inner[k] == s[a + 1..b - 1][k - 1];
      }
    }
  }

  /**
   * A `//` comment adds no token and reports nothing; it stops at the next
   * line break (which it leaves for the next step) or at the end.
   */
  lemma CommentStepShape(s: string, i: nat)
    requires i + 1 < |s| && s[i] == '/' && s[i + 1] == '/'
    ensures var step := ScanStep(s, i);
      && step.token.None? && step.error.None?
      && (forall k :: i < k < step.end ==> s[k] != '\n')
      && (step.end == |s| || s[step.end] == '\n')
  {
    IndexFromIsFirst(s, i + 2, '\n');
  }

  /**
   * Appending the first step's share to what was scanned before `i` and then
   * scanning from where the step ends gives the same as scanning from `i`.
   */
  lemma {:induction false} ScanFromStepAppended(s: string, i: nat, tokens0: seq<Token>, errors0: seq<ScanError>)
    requires i < |s|
    ensures var rest := ScanFrom(s, ScanStep(s, i).end);
      && tokens0 + StepTokens(s, i) + rest.0 == tokens0 + ScanFrom(s, i).0
      && errors0 + StepErrors(s, i) + rest.1 == errors0 + ScanFrom(s, i).1
  {
    ScanFromFirstStep(s, i);
    var rest := ScanFrom(s, ScanStep(s, i).end);
    AppendIsAssociative(tokens0, StepTokens(s, i), rest.0);
    AppendIsAssociative(errors0, StepErrors(s, i), rest.1);
  }

  /**
   * `!`, `=`, `<` and `>` take the following `=` into a two-character token
   * when there is one, and otherwise form the one-character token.
   */
  lemma OperatorStepShape(s: string, i: nat)
    requires i < |s| && IsOperatorStart(s[i])
    ensures var step := ScanStep(s, i);
      && step.error.None? && step.token.Some?
      && (i + 1 < |s| && s[i + 1] == '=' ==> step.end == i + 2 && step.token.value.0 == OperatorToken(s[i], true))
      && (!(i + 1 < |s| && s[i + 1] == '=') ==> step.end == i + 1 && step.token.value.0 == OperatorToken(s[i], false))
  {
  }

  /**
   * A space, `\r`, `\t` or line break adds no token and reports nothing; any
   * character the scanner does not know reports "Unexpected character." and
   * scanning goes on with the next one.
   */
  lemma SkippedCharacterSteps(s: string, i: nat)
    requires i < |s|
    ensures IsBlank(s[i]) || s[i] == '\n' ==> ScanStep(s, i) == Step(i + 1, None, None)
    ensures && SingleCharToken(s[i]).None? && !IsOperatorStart(s[i]) && s[i] != '/' && !IsBlank(s[i])
            && s[i] != '\n' && s[i] != '"' && !IsDigit(s[i]) && !IsAlpha(s[i])
            ==> ScanStep(s, i) == Step(i + 1, None, Some("Unexpected character."))
  {
  }

  /** `NewlinesBefore` counts the line breaks in the prefix, so the last line is 1 plus their number. */
  lemma {:induction false} NewlinesBeforeCountsBreaks(s: string, i: nat)
    requires i <= |s|
    ensures NewlinesBefore(s, i) == multiset(s[..i])['\n']
  {
    if i > 0 {
      NewlinesBeforeCountsBreaks(s, i - 1);
      assert s[..i] == s[..i - 1] + [s[i - 1]];
    }
  }

  /** Empty source: no lexeme, so no token and no report. */
  lemma EmptySourceScan()
    ensures ScanFrom("", 0) == ([], [])
  {
  }

  /** The only lexeme of "10" is the whole numeral, a NUMBER with the value 10. */
  lemma TenStep()
    ensures ScanStep("10", 0) == Step(2, Some((Number, NumVal(10.0))), None)
  {
    var s := "10";
    assert |s| == 2 && s[0] == '1' && s[1] == '0';
    assert DigitsEnd(s, 0) == 2 by {
      assert DigitsEnd(s, 2) == 2;
      assert DigitsEnd(s, 1) == 2;
    }
    assert NumberEnd(s, 0) == 2;
    assert s[0..2] == "10";
    assert DecimalValue("10") == 10.0 by {
      DecimalValueExamples();
    }
    assert NumberStep(s, 0) == Step(2, Some((Number, NumVal(10.0))), None);
    assert SingleCharToken('1').None? && !IsOperatorStart('1') && IsDigit('1');
  }

  /** "10" scans as one NUMBER token with the value 10 on line 1. */
  lemma NumberScanExample()
    ensures ScanFrom("10", 0) == ([Token(Number, "10", NumVal(10.0), 1)], [])
  {
    var s := "10";
    assert |s| == 2;
    assert ScanFrom(s, 2) == ([], []);
    TenStep();
    assert s[0..2] == "10";
    assert NewlinesBefore(s, 2) == 0 by {
      assert NewlinesBefore(s, 1) == 0;
    }
    assert StepTokens(s, 0) == [Token(Number, "10", NumVal(10.0), 1)];
    assert StepErrors(s, 0) == [];
    ScanFromFirstStep(s, 0);
    assert ScanFrom(s, 0).0 == [Token(Number, "10", NumVal(10.0), 1)];
    assert ScanFrom(s, 0).1 == [];
  }

  /** "!=" scans as one BANG_EQUAL token, not as `!` followed by `=`. */
  lemma OperatorScanExample()
    ensures ScanFrom("!=", 0) == ([Token(BangEqual, "!=", NilVal, 1)], [])
  {
    var s := "!=";
    assert |s| == 2 && s[0] == '!' && s[1] == '=';
    assert ScanFrom(s, 2) == ([], []);
    assert ScanStep(s, 0) == Step(2, Some((BangEqual, NilVal)), None);
    assert s[0..2] == "!=";
    assert NewlinesBefore(s, 2) == 0 by {
      assert NewlinesBefore(s, 1) == 0;
    }
    assert StepTokens(s, 0) == [Token(BangEqual, "!=", NilVal, 1)];
    assert StepErrors(s, 0) == [];
    ScanFromFirstStep(s, 0);
    assert ScanFrom(s, 0).0 == [Token(BangEqual, "!=", NilVal, 1)];
    assert ScanFrom(s, 0).1 == [];
  }

  /** "@" adds no token and reports "Unexpected character." on line 1. */
  lemma UnexpectedScanExample()
    ensures ScanFrom("@", 0) == ([], [ScanError(1, "Unexpected character.")])
  {
    var s := "@";
    assert |s| == 1 && s[0] == '@';
    assert ScanFrom(s, 1) == ([], []);
    assert ScanStep(s, 0) == Step(1, None, Some("Unexpected character."));
    assert NewlinesBefore(s, 1) == 0;
    assert StepTokens(s, 0) == [];
    assert StepErrors(s, 0) == [ScanError(1, "Unexpected character.")];
    ScanFromFirstStep(s, 0);
    assert ScanFrom(s, 0).0 == [];
    assert ScanFrom(s, 0).1 == [ScanError(1, "Unexpected character.")];
  }

  class Scanner {
    const source: string
    var tokens: seq<Token>
    var start: nat
    var current: nat
    var line: nat
    /** The calls made to the error reporter, in order. */
    var errors: seq<ScanError>
    /** The source span of each token in `tokens`. */
    ghost var spans: seq<(nat, nat)>

    /** Every token scanned so far was spelled by its span, in source order. */
    ghost predicate TokensSpelled()
      reads this`tokens, this`spans
    {
      SpelledInOrder(source, tokens, spans)
    }

    /** The cursor invariant and the provenance of every token scanned so far. */
    ghost predicate Valid()
      reads this
    {
      && start <= current <= |source|
      && TokensSpelled()
      && (forall k :: 0 <= k < |spans| ==> spans[k].1 <= current)
    }

    /** Line counting is exact: one more than the line breaks consumed. */
    ghost predicate LineExact()
      reads this`line, this`current
    {
      current <= |source| && line == 1 + NewlinesBefore(source, current)
    }

    /** No token reaches past `start`, so the next one can begin there. */
    ghost predicate Settled()
      reads this`spans, this`start
    {
      forall k :: 0 <= k < |spans| ==> spans[k].1 <= start
    }

    /** Inside `_scan_token`: a lexeme `source[start..current]` is being consumed. */
    ghost predicate InLexeme()
      reads this
    {
      start < current <= |source| && TokensSpelled() && Settled()
    }

    /**
     * The lexeme at `start` was scanned as `step` says, starting from the
     * token list `tokens0` and the error list `errors0`: the cursor stopped at
     * the step's end, its token (if any) was appended, spelled by
     * `source[start..current]` on the current line, and its error message (if
     * any) was reported on the current line.
     */
    ghost predicate Took(step: Step, tokens0: seq<Token>, errors0: seq<ScanError>)
      reads this`start, this`current, this`tokens, this`errors, this`line
    {
      && start <= current == step.end <= |source|
      && tokens == tokens0 + (if step.token.Some? then [Token(step.token.value.0, source[start..current], step.token.value.1, line)] else [])
      && errors == errors0 + (if step.error.Some? then [ScanError(line, step.error.value)] else [])
    }

    /** On an exact line count, `Took` says the step's token and error were appended. */
    lemma TookIsStep(tokens0: seq<Token>, errors0: seq<ScanError>)
      requires start < |source| && LineExact()
      requires Took(ScanStep(source, start), tokens0, errors0)
      ensures current == ScanStep(source, start).end
      ensures tokens == tokens0 + StepTokens(source, start)
      ensures errors == errors0 + StepErrors(source, start)
    {
    }

    constructor (source: string)
      ensures this.source == source
      ensures tokens == [] && errors == [] && start == 0 && current == 0 && line == 1
      ensures Valid() && LineExact()
    {
      this.source := source;
      tokens := [];
      errors := [];
      start := 0;
      current := 0;
      line := 1;
      spans := [];
    }

    /**
     * `scan_tokens`: scans the whole source. The result ends with the one and
     * only end-of-file token, on the line after the last line break; every
     * other token was scanned from a non-empty slice of the source, in order
     * and without overlap.
     */
    method ScanTokens() returns (result: seq<Token>)
      requires Valid() && LineExact()
      modifies this
      ensures result == tokens && |result| >= 1
      ensures result == old(tokens) + ScanFrom(source, old(current)).0 + [Token(Eof, "", NilVal, 1 + NewlinesBefore(source, |source|))]
      ensures errors == old(errors) + ScanFrom(source, old(current)).1
      ensures forall k :: 0 <= k < |result| - 1 ==> result[k].tokenType != Eof
      ensures SpelledInOrder(source, result[..|result| - 1], spans)
      ensures current == |source|
    {
      ScanLexemes();
      ghost var scanned := tokens;
      tokens := tokens + [Token(Eof, "", NilVal, line)];
      result := tokens;
      assert result[..|result| - 1] == scanned;
    }

    /** The loop of `scan_tokens`: one `_scan_token` call per lexeme until the end of the source. */
    method ScanLexemes()
      requires Valid() && LineExact()
      modifies this`start, this`current, this`line, this`tokens, this`spans, this`errors
      ensures Valid() && LineExact() && current == |source|
      ensures tokens == old(tokens) + ScanFrom(source, old(current)).0
      ensures errors == old(errors) + ScanFrom(source, old(current)).1
    {
      while current < |source|
        invariant Valid() && LineExact()
        invariant tokens + ScanFrom(source, current).0 == old(tokens) + ScanFrom(source, old(current)).0
        invariant errors + ScanFrom(source, current).1 == old(errors) + ScanFrom(source, old(current)).1
        decreases |source| - current
      {
        start := current;
        ghost var tokens0, errors0 := tokens, errors;
        ScanToken();
        TookIsStep(tokens0, errors0);
        ScanFromStepAppended(source, start, tokens0, errors0);
      }
    }

    /**
     * `_scan_token`: scans the lexeme starting at `start` as `ScanStep`
     * describes; a token, when there is one, is spelled by `source[start..current]`
     * and an error is reported on the line where scanning stopped.
     */
    method ScanToken()
      requires Valid() && LineExact() && start == current < |source|
      modifies this`current, this`line, this`tokens, this`spans, this`errors
      ensures Valid() && LineExact() && start == old(start)
      ensures Took(ScanStep(source, start), old(tokens), old(errors))
    {
      var c := Advance();
      var single := SingleCharToken(c);
      if single.Some? {
        AddToken(single.value, NilVal);
      } else if IsOperatorStart(c) {
        ScanOperator(c);
      } else if c == '/' {
        ScanSlash();
      } else if IsBlank(c) {
      } else if c == '\n' {
        line := line + 1;
      } else {
        ScanLiteral(c);
      }
    }

    /** The `!`, `=`, `<` and `>` branches of `_scan_token`: one token, two characters long when `=` follows. */
    method ScanOperator(c: char)
      requires InLexeme() && LineExact() && current == start + 1 && c == source[start]
      requires SingleCharToken(c).None? && IsOperatorStart(c)
      modifies this`current, this`tokens, this`spans
      ensures Valid() && LineExact()
      ensures Took(ScanStep(source, start), old(tokens), errors)
    {
      var two := Match('=');
      AddToken(OperatorToken(c, two), NilVal);
    }

    /** The `/` branch of `_scan_token`: a comment up to the line break, or a Slash token. */
    method ScanSlash()
      requires InLexeme() && LineExact() && current == start + 1 && source[start] == '/'
      modifies this`current, this`tokens, this`spans
      ensures Valid() && LineExact()
      ensures Took(ScanStep(source, start), old(tokens), errors)
    {
      var comment := Match('/');
      if comment {
        SkipComment();
      } else {
        AddToken(Slash, NilVal);
      }
    }

    /**
     * The last branches of `_scan_token`, for a character that is not
     * punctuation, an operator, a slash or whitespace: a string, a number, a
     * keyword or identifier, or else an unexpected character.
     */
    method ScanLiteral(c: char)
      requires InLexeme() && LineExact() && current == start + 1 && c == source[start]
      requires SingleCharToken(c).None? && !IsOperatorStart(c) && c != '/' && !IsBlank(c) && c != '\n'
      modifies this`current, this`line, this`tokens, this`spans, this`errors
      ensures Valid() && LineExact() && start == old(start)
      ensures Took(ScanStep(source, start), old(tokens), old(errors))
    {
      if c == '"' {
        ScanString();
      } else if IsDigit(c) {
        ScanNumber();
      } else if IsAlpha(c) {
        ScanIdentifier();
      } else {
        errors := errors + [ScanError(line, "Unexpected character.")];
      }
    }

    /** The comment loop of `_scan_token`: consume up to, not including, the line break. */
    method SkipComment()
      requires InLexeme() && LineExact()
      modifies this`current
      ensures InLexeme() && LineExact()
      ensures current == LineEnd(source, old(current))
    {
      while Peek() != '\n' && !IsAtEnd()
        invariant InLexeme() && LineExact()
        invariant old(current) <= current
        invariant LineEnd(source, current) == LineEnd(source, old(current))
        decreases |source| - current
      {
        var _ := Advance();
      }
    }

    /** `_add_token`: appends the token spelled by `source[start..current]` on the current line. */
    method AddToken(tokenType: TokenType, literal: Value)
      requires InLexeme() && LineExact()
      requires tokenType != Eof
      modifies this`tokens, this`spans
      ensures tokens == old(tokens) + [Token(tokenType, source[start..current], literal, line)]
      ensures spans == old(spans) + [(start, current)]
      ensures Valid()
    {
      tokens := tokens + [Token(tokenType, source[start..current], literal, line)];
      spans := spans + [(start, current)];
    }

    /** `_advance`: consumes and returns the current character. */
    method Advance() returns (c: char)
      requires current < |source|
      modifies this`current
      ensures current == old(current) + 1
      ensures c == source[old(current)]
    {
      c := source[current];
      current := current + 1;
    }

    /** `_is_at_end`. */
    function IsAtEnd(): bool
      reads this
    {
      current >= |source|
    }

    /** `_match`: consumes the current character exactly when it is `expected`. */
    method Match(expected: char) returns (matched: bool)
      modifies this`current
      ensures matched <==> old(current) < |source| && source[old(current)] == expected
      ensures current == old(current) + (if matched then 1 else 0)
    {
      if IsAtEnd() {
        return false;
      }
      if source[current] != expected {
        return false;
      }
      current := current + 1;
      return true;
    }

    /** `_peek`: the current character, or the null character past the end. */
    function Peek(): char
      reads this
    {
      if IsAtEnd() then NullChar else source[current]
    }

    /** `_peek_next`: the character after the current one, or the null character. */
    function PeekNext(): char
      reads this
    {
      if current + 1 >= |source| then NullChar else source[current + 1]
    }

    /**
     * `_string`: consumes up to and including the closing quote, counting the
     * line breaks inside, and adds a String token whose literal is the text
     * between the quotes; without a closing quote it reports an error and adds
     * nothing.
     */
    method ScanString()
      requires InLexeme() && LineExact()
      requires current == start + 1 && source[start] == '"'
      modifies this`current, this`line, this`tokens, this`spans, this`errors
      ensures Valid() && LineExact() && start == old(start)
      ensures Took(StringStep(source, start), old(tokens), old(errors))
    {
      ConsumeStringBody();
      if IsAtEnd() {
        errors := errors + [ScanError(line, "Unterminated string.")];
        return;
      }
      var _ := Advance();
      var value := source[start + 1..current - 1];
      AddToken(String, StrVal(value));
    }

    /** The loop of `_string`: consume up to the closing quote, counting line breaks. */
    method ConsumeStringBody()
      requires InLexeme() && LineExact()
      modifies this`current, this`line
      ensures InLexeme() && LineExact()
      ensures current == QuoteIndex(source, old(current))
      ensures current == |source| || source[current] == '"'
    {
      while Peek() != '"' && !IsAtEnd()
        invariant InLexeme() && LineExact()
        invariant QuoteIndex(source, current) == QuoteIndex(source, old(current))
        decreases |source| - current
      {
        if Peek() == '\n' {
          line := line + 1;
        }
        var _ := Advance();
      }
    }

    /**
     * `_number`: consumes digits, then a `.` and more digits only when a digit
     * follows the `.`, and adds a Number token carrying the numeral's value.
     */
    method ScanNumber()
      requires InLexeme() && LineExact()
      requires current == start + 1 && IsDigit(source[start])
      modifies this`current, this`tokens, this`spans
      ensures Valid() && LineExact() && start == old(start)
      ensures Took(NumberStep(source, start), old(tokens), old(errors))
    {
      ConsumeDigits();
      ConsumeFraction();
      ghost var tokens0 := tokens;
      AddToken(Number, NumVal(DecimalValue(source[start..current])));
      assert Took(NumberStep(source, start), tokens0, errors);
    }

    /** The optional `.` and fractional digits of `_number`, after the integer digits. */
    method ConsumeFraction()
      requires InLexeme() && LineExact()
      requires start < |source| && IsDigit(source[start]) && current == DigitsEnd(source, start)
      modifies this`current
      ensures InLexeme() && LineExact()
      ensures current == NumberEnd(source, start)
    {
      if Peek() == '.' && IsDigit(PeekNext()) {
        var _ := Advance();
        ConsumeDigits();
      }
    }

    /** The `while self._peek().isdigit()` loop of `_number`. */
    method ConsumeDigits()
      requires InLexeme() && LineExact()
      modifies this`current
      ensures InLexeme() && LineExact()
      ensures current == DigitsEnd(source, old(current))
    {
      while IsDigit(Peek())
        invariant InLexeme() && LineExact()
        invariant DigitsEnd(source, current) == DigitsEnd(source, old(current))
        decreases |source| - current
      {
        var _ := Advance();
      }
    }

    /**
     * `_identifier`: consumes the longest run of letters, digits and
     * underscores and adds a keyword token when the text is reserved, else an
     * Identifier token.
     */
    method ScanIdentifier()
      requires InLexeme() && LineExact()
      requires current == start + 1 && IsAlpha(source[start])
      modifies this`current, this`tokens, this`spans
      ensures Valid() && LineExact() && start == old(start)
      ensures Took(WordStep(source, start), old(tokens), old(errors))
    {
      while IsAlphaNumeric(Peek())
        invariant InLexeme() && LineExact()
        invariant AlphaNumericEnd(source, current) == AlphaNumericEnd(source, start)
        invariant tokens == old(tokens) && spans == old(spans)
        decreases |source| - current
      {
        var _ := Advance();
      }
      var text := source[start..current];
      AddToken(KeywordOrIdentifier(text), NilVal);
    }
  }
}
