/**
 * The parenthesised prefix printer of src/ast_printer.py.
 *
 * `AstPrinter` has visit methods for binary, grouping, literal and unary
 * expressions only; an assignment, a logical expression or a variable has no
 * visit method to dispatch to, and printing one fails. `Show` states the
 * printed text, or `None` for that failure; the methods `Print` and
 * `Parenthesize` follow the original's recursion and its loop and are proved
 * to produce what `Show` says.
 */
module AstPrinting {
  import opened Wrappers
  import opened Tokens
  import opened Ast

  /** `visit_literal_expr`: "nil" for None, `str` of anything else. */
  function LiteralText(v: Value, render: real -> string): string
  {
    match v
    case NilVal => "nil"
    case BoolVal(b) => if b then "True" else "False"
    case NumVal(x) => render(x)
    case StrVal(s) => s
  }

  /** `" " + part` for each part, in order. */
  function Joined(parts: seq<string>): string
  {
    if parts == [] then "" else Joined(parts[..|parts| - 1]) + " " + parts[|parts| - 1]
  }

  /** What `_parenthesize` builds from a name and the printed sub-expressions. */
  function Paren(name: string, parts: seq<string>): string
  {
    "(" + name + Joined(parts) + ")"
  }

  /** The printed text of an expression, or None when it holds a node the printer cannot visit. */
  function Show(e: Expr, render: real -> string): Option<string>
  {
    match e
    case BinaryExpr(left, operator, right) =>
      var a := Show(left, render);
      var b := Show(right, render);
      if a.Some? && b.Some? then Some(Paren(operator.lexeme, [a.value, b.value])) else None
    case GroupingExpr(inner) =>
      var a := Show(inner, render);
      if a.Some? then Some(Paren("group", [a.value])) else None
    case LiteralExpr(v) => Some(LiteralText(v, render))
    case UnaryExpr(operator, right) =>
      var a := Show(right, render);
      if a.Some? then Some(Paren(operator.lexeme, [a.value])) else None
    case _ => None
  }

  /** Each expression printed, or None when one of them cannot be. */
  function ShowEach(exprs: seq<Expr>, render: real -> string): Option<seq<string>>
  {
    if exprs == [] then Some([])
    else
      var init := ShowEach(exprs[..|exprs| - 1], render);
      var last := Show(exprs[|exprs| - 1], render);
      if init.Some? && last.Some? then Some(init.value + [last.value]) else None
  }

  /** An expression built only from the four kinds the printer visits. */
  predicate Printable(e: Expr)
  {
    match e
    case BinaryExpr(left, _, right) => Printable(left) && Printable(right)
    case GroupingExpr(inner) => Printable(inner)
    case LiteralExpr(_) => true
    case UnaryExpr(_, right) => Printable(right)
    case _ => false
  }

  /** Printing succeeds exactly on expressions without an assignment, a logical expression or a variable. */
  lemma {:induction false} ShowDefinedIffPrintable(e: Expr, render: real -> string)
    ensures Show(e, render).Some? <==> Printable(e)
  {
    match e
    case BinaryExpr(left, _, right) =>
      ShowDefinedIffPrintable(left, render);
      ShowDefinedIffPrintable(right, render);
    case GroupingExpr(inner) => ShowDefinedIffPrintable(inner, render);
    case UnaryExpr(_, right) => ShowDefinedIffPrintable(right, render);
    case _ =>
  }

  /** The number of nodes that print as a parenthesised group. */
  function Groups(e: Expr): nat
  {
    match e
    case BinaryExpr(left, _, right) => 1 + Groups(left) + Groups(right)
    case GroupingExpr(inner) => 1 + Groups(inner)
    case UnaryExpr(_, right) => 1 + Groups(right)
    case _ => 0
  }

  predicate NoParens(s: string)
  {
    '(' !in s && ')' !in s
  }

  /** No literal text and no operator lexeme in the tree contains a parenthesis. */
  predicate ParenFree(e: Expr, render: real -> string)
  {
    match e
    case BinaryExpr(left, operator, right) => NoParens(operator.lexeme) && ParenFree(left, render) && ParenFree(right, render)
    case GroupingExpr(inner) => ParenFree(inner, render)
    case LiteralExpr(v) => NoParens(LiteralText(v, render))
    case UnaryExpr(operator, right) => NoParens(operator.lexeme) && ParenFree(right, render)
    case _ => true
  }

  lemma JoinedSingle(a: string)
    ensures Joined([a]) == " " + a
  {
    assert [a][..0] == [];
    assert Joined([a]) == "" + " " + a;
  }

  lemma JoinedPair(a: string, b: string)
    ensures Joined([a, b]) == " " + a + " " + b
  {
    JoinedSingle(a);
    assert [a, b][..1] == [a];
    assert Joined([a, b]) == Joined([a]) + " " + b;
  }

  /** How many times `c` occurs in `s`. */
  function Occurrences(s: string, c: char): nat
  {
    multiset(s)[c]
  }

  lemma NoParensCount(s: string)
    requires NoParens(s)
    ensures Occurrences(s, '(') == 0 && Occurrences(s, ')') == 0
  {
    assert '(' !in multiset(s) && ')' !in multiset(s);
  }

  lemma PairCount(name: string, a: string, b: string, c: char)
    requires c == '(' || c == ')'
    requires NoParens(name)
    ensures Occurrences(Paren(name, [a, b]), c) == 1 + Occurrences(a, c) + Occurrences(b, c)
  {
    JoinedPair(a, b);
    NoParensCount(name);
    NoParensCount(" ");
    assert Paren(name, [a, b]) == "(" + name + " " + a + " " + b + ")";
    assert multiset("(")[c] + multiset(")")[c] == 1;
  }

  lemma SingleCount(name: string, a: string, c: char)
    requires c == '(' || c == ')'
    requires NoParens(name)
    ensures Occurrences(Paren(name, [a]), c) == 1 + Occurrences(a, c)
  {
    JoinedSingle(a);
    NoParensCount(name);
    NoParensCount(" ");
    assert Paren(name, [a]) == "(" + name + " " + a + ")";
    assert multiset("(")[c] + multiset(")")[c] == 1;
  }

  /**
   * Every binary, grouping and unary node contributes exactly one "(" and one
   * ")", so (when the literals and operators hold no parentheses) the printed
   * text has as many of either as the tree has such nodes.
   */
  lemma {:induction false} ParenthesesMatchGroups(e: Expr, render: real -> string, c: char)
    requires Printable(e) && ParenFree(e, render) && (c == '(' || c == ')')
    ensures Show(e, render).Some? && Occurrences(Show(e, render).value, c) == Groups(e)
  {
    match e
    case BinaryExpr(left, operator, right) =>
      ParenthesesMatchGroups(left, render, c);
      ParenthesesMatchGroups(right, render, c);
      BinaryGroups(left, operator, right, render, c);
    case GroupingExpr(inner) =>
      ParenthesesMatchGroups(inner, render, c);
      GroupingGroups(inner, render, c);
    case UnaryExpr(operator, right) =>
      ParenthesesMatchGroups(right, render, c);
      UnaryGroups(operator, right, render, c);
    case LiteralExpr(_) =>
      NoParensCount(Show(e, render).value);
  }

  lemma BinaryGroups(left: Expr, operator: Token, right: Expr, render: real -> string, c: char)
    requires (c == '(' || c == ')') && NoParens(operator.lexeme)
    requires Show(left, render).Some? && Occurrences(Show(left, render).value, c) == Groups(left)
    requires Show(right, render).Some? && Occurrences(Show(right, render).value, c) == Groups(right)
    ensures Show(BinaryExpr(left, operator, right), render).Some?
    ensures Occurrences(Show(BinaryExpr(left, operator, right), render).value, c) == Groups(BinaryExpr(left, operator, right))
  {
    var a := Show(left, render).value;
    var b := Show(right, render).value;
    assert Show(BinaryExpr(left, operator, right), render) == Some(Paren(operator.lexeme, [a, b]));
    PairCount(operator.lexeme, a, b, c);
  }

  lemma GroupNameHasNoParens()
    ensures NoParens("group")
  {
    assert forall i :: 0 <= i < |"group"| ==> "group"[i] in "grou" + "p";
  }

  lemma GroupingGroups(inner: Expr, render: real -> string, c: char)
    requires c == '(' || c == ')'
    requires Show(inner, render).Some? && Occurrences(Show(inner, render).value, c) == Groups(inner)
    ensures Show(GroupingExpr(inner), render).Some?
    ensures Occurrences(Show(GroupingExpr(inner), render).value, c) == Groups(GroupingExpr(inner))
  {
    var a := Show(inner, render).value;
    assert Show(GroupingExpr(inner), render) == Some(Paren("group", [a]));
    GroupNameHasNoParens();
    SingleCount("group", a, c);
  }

  lemma UnaryGroups(operator: Token, right: Expr, render: real -> string, c: char)
    requires (c == '(' || c == ')') && NoParens(operator.lexeme)
    requires Show(right, render).Some? && Occurrences(Show(right, render).value, c) == Groups(right)
    ensures Show(UnaryExpr(operator, right), render).Some?
    ensures Occurrences(Show(UnaryExpr(operator, right), render).value, c) == Groups(UnaryExpr(operator, right))
  {
    var a := Show(right, render).value;
    assert Show(UnaryExpr(operator, right), render) == Some(Paren(operator.lexeme, [a]));
    SingleCount(operator.lexeme, a, c);
  }

  lemma ParenTextSingle(name: string, a: string)
    ensures Paren(name, [a]) == "(" + name + " " + a + ")"
  {
    JoinedSingle(a);
  }

  lemma ParenTextPair(name: string, a: string, b: string)
    ensures Paren(name, [a, b]) == "(" + name + " " + a + " " + b + ")"
  {
    JoinedPair(a, b);
  }

  /** `(+ 1 2)`, `(group 42)`, `(- 500)` and `123` from tests/test_ast_printer.py, with floats rendered by `render`. */
  lemma PrinterExamples(plus: Token, minus: Token, render: real -> string)
    requires plus.lexeme == "+" && minus.lexeme == "-"
    ensures Show(BinaryExpr(LiteralExpr(NumVal(1.0)), plus, LiteralExpr(NumVal(2.0))), render) ==
              Some("(+ " + render(1.0) + " " + render(2.0) + ")")
    ensures Show(GroupingExpr(LiteralExpr(NumVal(42.0))), render) == Some("(group " + render(42.0) + ")")
    ensures Show(UnaryExpr(minus, LiteralExpr(NumVal(500.0))), render) == Some("(- " + render(500.0) + ")")
    ensures Show(LiteralExpr(StrVal("123")), render) == Some("123")
  {
    ParenTextPair("+", render(1.0), render(2.0));
    assert "(" + "+" + " " == "(+ ";
    ParenTextSingle("group", render(42.0));
    assert "(" + "group" + " " == "(group ";
    ParenTextSingle("-", render(500.0));
    assert "(" + "-" + " " == "(- ";
  }

  lemma NegatedText()
    ensures Paren("-", ["123"]) == "(- 123)"
  {
    ParenTextSingle("-", "123");
  }

  lemma GroupText()
    ensures Paren("group", ["45.67"]) == "(group 45.67)"
  {
    ParenTextSingle("group", "45.67");
  }

  lemma ProductText()
    ensures Paren("*", ["(- 123)", "(group 45.67)"]) == "(* (- 123) (group 45.67))"
  {
    ParenTextPair("*", "(- 123)", "(group 45.67)");
  }

  /** The nested case of tests/test_ast_printer.py: `(* (- 123) (group 45.67))`. */
  lemma NestedPrinterExample(minus: Token, star: Token, render: real -> string)
    requires minus.lexeme == "-" && star.lexeme == "*"
    ensures Show(BinaryExpr(UnaryExpr(minus, LiteralExpr(StrVal("123"))), star, GroupingExpr(LiteralExpr(StrVal("45.67")))), render) ==
              Some("(* (- 123) (group 45.67))")
  {
    var negated := UnaryExpr(minus, LiteralExpr(StrVal("123")));
    var group := GroupingExpr(LiteralExpr(StrVal("45.67")));
    NegatedText();
    assert Show(negated, render) == Some("(- 123)");
    GroupText();
    assert Show(group, render) == Some("(group 45.67)");
    ProductText();
  }

  /** A measure that shrinks from an expression to its parts and from a list to its members. */
  function Size(e: Expr): nat
  {
    match e
    case AssignExpr(_, value) => 1 + Size(value)
    case BinaryExpr(left, _, right) => 1 + Size(left) + Size(right)
    case UnaryExpr(_, right) => 1 + Size(right)
    case GroupingExpr(inner) => 1 + Size(inner)
    case LogicalExpr(left, _, right) => 1 + Size(left) + Size(right)
    case _ => 1
  }

  function SizeAll(exprs: seq<Expr>): nat
  {
    if exprs == [] then 1 else SizeAll(exprs[..|exprs| - 1]) + Size(exprs[|exprs| - 1])
  }

  lemma ShowEachSingle(e: Expr, render: real -> string)
    ensures ShowEach([e], render) == if Show(e, render).Some? then Some([Show(e, render).value]) else None
  {
    assert [e][..0] == [];
    if Show(e, render).Some? {
      assert [] + [Show(e, render).value] == [Show(e, render).value];
    }
  }

  lemma ShowEachPair(left: Expr, right: Expr, render: real -> string)
    ensures ShowEach([left, right], render) ==
              if Show(left, render).Some? && Show(right, render).Some?
              then Some([Show(left, render).value, Show(right, render).value]) else None
  {
    ShowEachSingle(left, render);
    assert [left, right][..1] == [left];
    if Show(left, render).Some? && Show(right, render).Some? {
      assert [Show(left, render).value] + [Show(right, render).value] == [Show(left, render).value, Show(right, render).value];
    }
  }

  lemma SizeAllSingle(e: Expr)
    ensures SizeAll([e]) == 1 + Size(e)
  {
    assert [e][..0] == [];
  }

  lemma SizeAllPair(left: Expr, right: Expr)
    ensures SizeAll([left, right]) == 1 + Size(left) + Size(right)
  {
    SizeAllSingle(left);
    assert [left, right][..1] == [left];
  }

  lemma {:induction false} MemberSmaller(exprs: seq<Expr>, i: nat)
    requires i < |exprs|
    ensures Size(exprs[i]) < SizeAll(exprs)
    decreases |exprs|
  {
    if i < |exprs| - 1 {
      MemberSmaller(exprs[..|exprs| - 1], i);
    }
  }

  /** A list that cannot be printed in part cannot be printed whole. */
  lemma {:induction false} ShowEachPrefixFails(exprs: seq<Expr>, i: nat, render: real -> string)
    requires i <= |exprs| && ShowEach(exprs[..i], render).None?
    ensures ShowEach(exprs, render).None?
    decreases |exprs| - i
  {
    if i < |exprs| {
      assert exprs[..i + 1][..i] == exprs[..i];
      ShowEachPrefixFails(exprs, i + 1, render);
    } else {
      assert exprs[..i] == exprs;
    }
  }

  /** `print`: the visit method for the expression's kind; None when it has none. */
  method Print(expr: Expr, render: real -> string) returns (r: Option<string>)
    ensures r == Show(expr, render)
    decreases Size(expr), 1
  {
    match expr
    case BinaryExpr(left, operator, right) =>
      SizeAllPair(left, right);
      r := Parenthesize(operator.lexeme, [left, right], render);
      ShowEachPair(left, right, render);
    case GroupingExpr(inner) =>
      SizeAllSingle(inner);
      r := Parenthesize("group", [inner], render);
      ShowEachSingle(inner, render);
    case LiteralExpr(v) =>
      r := Some(LiteralText(v, render));
    case UnaryExpr(operator, right) =>
      SizeAllSingle(right);
      r := Parenthesize(operator.lexeme, [right], render);
      ShowEachSingle(right, render);
    case _ =>
      r := None;
  }

  /** `_parenthesize`: "(" and the name, then a space and each printed expression in turn, then ")". */
  method Parenthesize(name: string, exprs: seq<Expr>, render: real -> string) returns (r: Option<string>)
    ensures ShowEach(exprs, render).Some? ==> r == Some(Paren(name, ShowEach(exprs, render).value))
    ensures ShowEach(exprs, render).None? ==> r == None
    decreases SizeAll(exprs), 0
  {
    var res := "(" + name;
    var failed := false;
    ghost var parts: seq<string> := [];
    var i := 0;
    while i < |exprs| && !failed
      invariant 0 <= i <= |exprs|
      invariant !failed ==> ShowEach(exprs[..i], render) == Some(parts) && res == "(" + name + Joined(parts)
      invariant failed ==> ShowEach(exprs[..i], render).None?
      decreases |exprs| - i, if failed then 0 else 1
    {
      res := res + " ";
      MemberSmaller(exprs, i);
      var text := Print(exprs[i], render);
      assert exprs[..i + 1][..i] == exprs[..i];
      if text.None? {
        failed := true;
      } else {
        res := res + text.value;
        assert Joined(parts + [text.value]) == Joined(parts) + " " + text.value by {
          assert (parts + [text.value])[..|parts|] == parts;
        }
        parts := parts + [text.value];
      }
      i := i + 1;
    }
    if failed {
      ShowEachPrefixFails(exprs, i, render);
      r := None;
    } else {
      assert exprs[..i] == exprs;
      r := Some(res + ")");
    }
  }
}
