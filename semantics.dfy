/**
 * The evaluation rules of src/interpreter.py, as functions on values.
 *
 * `_is_truthy`, `_is_equal`, `_stringify`, the operand checks and the
 * operator rules of `visit_unary_expr` and `visit_binary_expr` are pure in
 * the original and are functions here. `Eval`, `Exec` and `ExecAll` state
 * what evaluating an expression, executing a statement and running a list of
 * statements do to a dictionary of bindings and to the printed output; the
 * class in interpreter.dfy is proved to behave as they say.
 *
 * Numbers are Python floats, modelled by the reals they denote; `str` of a
 * float is the parameter `render`.
 */
module Semantics {
  import opened Wrappers
  import opened Tokens
  import opened Ast
  import opened Faults
  import opened Environments

  /** `_is_truthy`: None is false, a bool is itself, anything else is true. */
  predicate IsTruthy(v: Value)
  {
    match v
    case NilVal => false
    case BoolVal(b) => b
    case _ => true
  }

  /** Only `nil` and `false` are falsy. */
  lemma FalsyValues(v: Value)
    ensures !IsTruthy(v) <==> v == NilVal || v == BoolVal(false)
  {
  }

  /** `_is_equal`: two Nones are equal, None equals nothing else, otherwise Python `==`. */
  predicate IsEqual(a: Value, b: Value)
  {
    if a.NilVal? && b.NilVal? then true
    else if a.NilVal? then false
    else PyEquals(a, b)
  }

  /**
   * The None tests in `_is_equal` change nothing: it is Python `==`
   * throughout, hence an equivalence relation (and `true == 1`).
   */
  lemma IsEqualIsPythonEquality(a: Value, b: Value, c: Value)
    ensures IsEqual(a, b) <==> PyEquals(a, b)
    ensures IsEqual(a, a) && (IsEqual(a, b) ==> IsEqual(b, a))
    ensures IsEqual(a, b) && IsEqual(b, c) ==> IsEqual(a, c)
    ensures IsEqual(BoolVal(true), NumVal(1.0))
  {
    PyEqualsIsEquivalence(a, b, c);
  }

  /** `isinstance(v, (int, float))`: a float, or a bool, which Python counts as an int. */
  predicate IsNumber(v: Value)
  {
    NumericView(v).Some?
  }

  /**
   * `_check_number_operands` followed by the two `assert isinstance(.., float)`:
   * the two floats, the runtime error when an operand is not a number, or the
   * failed assertion when one is a bool.
   */
  function NumberOperands(operator: Token, left: Value, right: Value): (r: Result<(real, real), Fault>)
    ensures r.Success? <==> left.NumVal? && right.NumVal?
    ensures r.Success? ==> r.value == (left.x, right.x)
    ensures !(IsNumber(left) && IsNumber(right)) ==> r == Failure(Runtime(RuntimeError(operator, OperandsMustBeNumbers)))
    ensures IsNumber(left) && IsNumber(right) && (left.BoolVal? || right.BoolVal?) ==> r == Failure(Escape(NotAFloat))
  {
    if !(IsNumber(left) && IsNumber(right)) then Failure(Runtime(RuntimeError(operator, OperandsMustBeNumbers)))
    else if !left.NumVal? || !right.NumVal? then Failure(Escape(NotAFloat))
    else Success((left.x, right.x))
  }

  /** The operator part of `visit_unary_expr`, applied to the evaluated operand. */
  function UnaryRule(operator: Token, right: Value): Result<Value, Fault>
  {
    match operator.tokenType
    case Bang => Success(BoolVal(!IsTruthy(right)))
    case Minus =>
      if !IsNumber(right) then Failure(Runtime(RuntimeError(operator, OperandMustBeNumber)))
      else if !right.NumVal? then Failure(Escape(NotAFloat))
      else Success(NumVal(-right.x))
    case _ => Success(NilVal)
  }

  /**
   * `!` negates truthiness and never fails; `-` negates a float, reports
   * "Operand must be a number." for anything that is not a number, and fails
   * the float assertion on a bool.
   */
  lemma UnaryRules(operator: Token, right: Value)
    ensures operator.tokenType == Bang ==> UnaryRule(operator, right) == Success(BoolVal(!IsTruthy(right)))
    ensures operator.tokenType == Minus && right.NumVal? ==> UnaryRule(operator, right) == Success(NumVal(-right.x))
    ensures operator.tokenType == Minus && !(right.NumVal? || right.BoolVal?) ==>
              UnaryRule(operator, right) == Failure(Runtime(RuntimeError(operator, OperandMustBeNumber)))
    ensures operator.tokenType == Minus && right.BoolVal? ==> UnaryRule(operator, right) == Failure(Escape(NotAFloat))
  {
  }

  /** The operator part of `visit_binary_expr`, applied to the two evaluated operands. */
  function BinaryRule(operator: Token, left: Value, right: Value): Result<Value, Fault>
  {
    match operator.tokenType
    case Greater => var p :- NumberOperands(operator, left, right); Success(BoolVal(p.0 > p.1))
    case GreaterEqual => var p :- NumberOperands(operator, left, right); Success(BoolVal(p.0 >= p.1))
    case Less => var p :- NumberOperands(operator, left, right); Success(BoolVal(p.0 < p.1))
    case LessEqual => var p :- NumberOperands(operator, left, right); Success(BoolVal(p.0 <= p.1))
    case BangEqual => Success(BoolVal(!IsEqual(left, right)))
    case EqualEqual => Success(BoolVal(IsEqual(left, right)))
    case Minus => var p :- NumberOperands(operator, left, right); Success(NumVal(p.0 - p.1))
    case Plus =>
      if IsNumber(left) && IsNumber(right) then Success(NumVal(NumericView(left).value + NumericView(right).value))
      else if left.StrVal? && right.StrVal? then Success(StrVal(left.s + right.s))
      else Failure(Runtime(RuntimeError(operator, OperandsMustBeTwoNumbersOrTwoStrings)))
    case Slash =>
      var p :- NumberOperands(operator, left, right);
      if p.1 == 0.0 then Failure(Escape(DivisionByZero)) else Success(NumVal(p.0 / p.1))
    case Star => var p :- NumberOperands(operator, left, right); Success(NumVal(p.0 * p.1))
    case _ => Success(NilVal)
  }

  /** `==` and `!=` never fail, and `!=` is the negation of `==`. */
  lemma EqualityOperators(equal: Token, notEqual: Token, left: Value, right: Value)
    requires equal.tokenType == EqualEqual && notEqual.tokenType == BangEqual
    ensures BinaryRule(equal, left, right).Success? && BinaryRule(notEqual, left, right).Success?
    ensures BinaryRule(equal, left, right).value == BoolVal(IsEqual(left, right))
    ensures BinaryRule(notEqual, left, right).value == BoolVal(!BinaryRule(equal, left, right).value.b)
  {
  }

  /**
   * `+` adds two numbers (a bool counting as 0 or 1), concatenates two
   * strings, and reports "Operands must be two numbers or two strings." for
   * every other pair.
   */
  lemma PlusRule(plus: Token, left: Value, right: Value)
    requires plus.tokenType == Plus
    ensures left.NumVal? && right.NumVal? ==> BinaryRule(plus, left, right) == Success(NumVal(left.x + right.x))
    ensures left.StrVal? && right.StrVal? ==> BinaryRule(plus, left, right) == Success(StrVal(left.s + right.s))
    ensures BinaryRule(plus, left, right).Failure? <==> !(IsNumber(left) && IsNumber(right)) && !(left.StrVal? && right.StrVal?)
    ensures BinaryRule(plus, left, right).Failure? ==>
              BinaryRule(plus, left, right).error == Runtime(RuntimeError(plus, OperandsMustBeTwoNumbersOrTwoStrings))
  {
  }

  /** The operators that check their operands with `_check_number_operands`. */
  predicate IsNumericOperator(t: TokenType)
  {
    t == Greater || t == GreaterEqual || t == Less || t == LessEqual || t == Minus || t == Slash || t == Star
  }

  /**
   * `-`, `/`, `*` and the four comparisons report "Operands must be
   * numbers." unless both operands are numbers, fail the float assertion
   * when a bool got through the check, and otherwise succeed on two floats
   * (except `/` by zero).
   */
  lemma NumericOperatorsNeedNumbers(operator: Token, left: Value, right: Value)
    requires IsNumericOperator(operator.tokenType)
    ensures !(IsNumber(left) && IsNumber(right)) ==>
              BinaryRule(operator, left, right) == Failure(Runtime(RuntimeError(operator, OperandsMustBeNumbers)))
    ensures IsNumber(left) && IsNumber(right) && (left.BoolVal? || right.BoolVal?) ==>
              BinaryRule(operator, left, right) == Failure(Escape(NotAFloat))
    ensures left.NumVal? && right.NumVal? ==>
              (BinaryRule(operator, left, right).Success? <==> !(operator.tokenType == Slash && right.x == 0.0))
  {
  }

  /** The result of each comparison on two floats. */
  lemma Comparisons(operator: Token, x: real, y: real)
    ensures operator.tokenType == Greater ==> BinaryRule(operator, NumVal(x), NumVal(y)) == Success(BoolVal(x > y))
    ensures operator.tokenType == GreaterEqual ==> BinaryRule(operator, NumVal(x), NumVal(y)) == Success(BoolVal(x >= y))
    ensures operator.tokenType == Less ==> BinaryRule(operator, NumVal(x), NumVal(y)) == Success(BoolVal(x < y))
    ensures operator.tokenType == LessEqual ==> BinaryRule(operator, NumVal(x), NumVal(y)) == Success(BoolVal(x <= y))
  {
  }

  /** `text[0 : len(text) - 2]` when the text ends with ".0", otherwise the text itself. */
  function DropPointZero(text: string): (r: string)
    ensures |text| >= 2 && text[|text| - 2..] == ".0" ==> r + ".0" == text
    ensures !(|text| >= 2 && text[|text| - 2..] == ".0") ==> r == text
  {
    if |text| >= 2 && text[|text| - 2..] == ".0" then text[..|text| - 2] else text
  }

  /**
   * `_stringify`: "nil" for None, the float's text without a trailing ".0",
   * and `str` of anything else (so a bool prints as "True" or "False").
   */
  function Stringify(v: Value, render: real -> string): string
  {
    match v
    case NilVal => "nil"
    case NumVal(x) => DropPointZero(render(x))
    case BoolVal(b) => if b then "True" else "False"
    case StrVal(s) => s
  }

  /** A whole float prints without its ".0"; any other text of a float prints unchanged. */
  lemma StringifyNumber(x: real, render: real -> string)
    ensures |render(x)| >= 2 && render(x)[|render(x)| - 2..] == ".0" ==> Stringify(NumVal(x), render) + ".0" == render(x)
    ensures !(|render(x)| >= 2 && render(x)[|render(x)| - 2..] == ".0") ==> Stringify(NumVal(x), render) == render(x)
  {
  }

  /** Printing `3.0` gives "3", printing `2.5` gives "2.5", and strings print bare. */
  lemma StringifyExamples(render: real -> string)
    requires render(3.0) == "3.0" && render(2.5) == "2.5"
    ensures Stringify(NumVal(3.0), render) == "3"
    ensures Stringify(NumVal(2.5), render) == "2.5"
    ensures Stringify(NilVal, render) == "nil" && Stringify(BoolVal(false), render) == "False"
    ensures Stringify(StrVal("hi"), render) == "hi"
  {
    assert "3.0"[1..] == ".0";
    assert "2.5"[1..] != ".0" by { assert "2.5"[1..][1] == '5'; }
  }

  /** The outcome of evaluating an expression: its value or what stopped it, and the bindings after it. */
  datatype Evaluated = Evaluated(result: Result<Value, Fault>, env: map<string, Value>)

  /**
   * What `_evaluate` does: the operands of unary and binary expressions are
   * evaluated first, left before right, each against the bindings the previous
   * one left; a variable is read with `get`; an assignment evaluates its
   * value, rebinds it with `assign` and yields it. A logical expression has no
   * visit method in the interpreter.
   */
  function Eval(e: Expr, env: map<string, Value>): Evaluated
    decreases e
  {
    match e
    case LiteralExpr(v) => Evaluated(Success(v), env)
    case GroupingExpr(inner) => Eval(inner, env)
    case UnaryExpr(operator, right) =>
      var r := Eval(right, env);
      if r.result.Failure? then r else Evaluated(UnaryRule(operator, r.result.value), r.env)
    case BinaryExpr(left, operator, right) =>
      var a := Eval(left, env);
      if a.result.Failure? then a
      else
        var b := Eval(right, a.env);
        if b.result.Failure? then b else Evaluated(BinaryRule(operator, a.result.value, b.result.value), b.env)
    case VariableExpr(name) =>
      var r := Lookup(env, name);
      Evaluated(if r.Success? then Success(r.value) else Failure(Runtime(r.error)), env)
    case AssignExpr(name, value) =>
      var a := Eval(value, env);
      if a.result.Failure? then a
      else
        var rebound := Assigned(a.env, name, a.result.value);
        if rebound.Failure? then Evaluated(Failure(Runtime(rebound.error)), a.env) else Evaluated(a.result, rebound.value)
    case LogicalExpr(_, _, _) => Evaluated(Failure(Escape(NoLogicalVisitor)), env)
  }

  /** Evaluation never creates or removes a binding: assignment only rebinds names already bound. */
  lemma {:induction false} EvalKeepsNames(e: Expr, env: map<string, Value>)
    ensures Eval(e, env).env.Keys == env.Keys
    decreases e
  {
    match e
    case LiteralExpr(_) =>
    case GroupingExpr(inner) => EvalKeepsNames(inner, env);
    case UnaryExpr(_, right) => EvalKeepsNames(right, env);
    case BinaryExpr(left, _, right) =>
      EvalKeepsNames(left, env);
      EvalKeepsNames(right, Eval(left, env).env);
    case VariableExpr(_) =>
    case AssignExpr(_, value) => EvalKeepsNames(value, env);
    case LogicalExpr(_, _, _) =>
  }

  /** An expression with no assignment in it reads the bindings and changes none. */
  predicate AssignFree(e: Expr)
  {
    match e
    case AssignExpr(_, _) => false
    case GroupingExpr(inner) => AssignFree(inner)
    case UnaryExpr(_, right) => AssignFree(right)
    case BinaryExpr(left, _, right) => AssignFree(left) && AssignFree(right)
    case LogicalExpr(left, _, right) => AssignFree(left) && AssignFree(right)
    case _ => true
  }

  lemma {:induction false} AssignFreeEvalKeepsBindings(e: Expr, env: map<string, Value>)
    requires AssignFree(e)
    ensures Eval(e, env).env == env
    decreases e
  {
    match e
    case LiteralExpr(_) =>
    case GroupingExpr(inner) => AssignFreeEvalKeepsBindings(inner, env);
    case UnaryExpr(_, right) => AssignFreeEvalKeepsBindings(right, env);
    case BinaryExpr(left, _, right) =>
      AssignFreeEvalKeepsBindings(left, env);
      AssignFreeEvalKeepsBindings(right, env);
    case VariableExpr(_) =>
    case LogicalExpr(_, _, _) =>
  }

  /**
   * The left operand is evaluated before the right one and its assignments
   * are visible to it: with `a` bound, `(a = 2) + a` is 4.
   */
  lemma LeftOperandFirst(a: Token, plus: Token, env: map<string, Value>)
    requires a.tokenType == Identifier && plus.tokenType == Plus && a.lexeme in env
    ensures Eval(BinaryExpr(AssignExpr(a, LiteralExpr(NumVal(2.0))), plus, VariableExpr(a)), env).result == Success(NumVal(4.0))
  {
    var two := LiteralExpr(NumVal(2.0));
    assert Eval(two, env) == Evaluated(Success(NumVal(2.0)), env);
    assert Assigned(env, a, NumVal(2.0)) == Success(env[a.lexeme := NumVal(2.0)]);
    var first := Eval(AssignExpr(a, two), env);
    assert first == Evaluated(Success(NumVal(2.0)), env[a.lexeme := NumVal(2.0)]);
    assert Eval(VariableExpr(a), first.env).result == Success(NumVal(2.0));
    assert BinaryRule(plus, NumVal(2.0), NumVal(2.0)) == Success(NumVal(4.0));
  }

  /**
   * An operand error of a binary expression comes only after both operands
   * were evaluated without error: the operator rule is applied to both values.
   */
  lemma OperatorErrorsFollowOperands(left: Expr, operator: Token, right: Expr, env: map<string, Value>)
    requires Eval(left, env).result.Success? && Eval(right, Eval(left, env).env).result.Success?
    ensures Eval(BinaryExpr(left, operator, right), env).result ==
              BinaryRule(operator, Eval(left, env).result.value, Eval(right, Eval(left, env).env).result.value)
    ensures Eval(BinaryExpr(left, operator, right), env).env == Eval(right, Eval(left, env).env).env
  {
  }

  /** A failing left operand stops the binary expression before its right operand is evaluated. */
  lemma FailingLeftOperandStops(left: Expr, operator: Token, right: Expr, env: map<string, Value>)
    requires Eval(left, env).result.Failure?
    ensures Eval(BinaryExpr(left, operator, right), env) == Eval(left, env)
  {
  }

  /** The outcome of executing statements: completion or what stopped it, the bindings, and the printed lines. */
  datatype Executed = Executed(result: Result<(), Fault>, env: map<string, Value>, out: seq<string>)

  /**
   * What `_execute` does: an expression statement evaluates and discards, a
   * print statement appends the stringified value to the output, a var
   * statement binds the initializer's value (None without one) with `define`,
   * an if statement runs one branch at most. A block statement calls
   * `Environment(self._environment)`, which the one-parameter constructor
   * rejects.
   */
  function Exec(s: Stmt, env: map<string, Value>, out: seq<string>, render: real -> string): Executed
    decreases s
  {
    match s
    case ExpressionStmt(e) =>
      var r := Eval(e, env);
      Executed(if r.result.Success? then Success(()) else Failure(r.result.error), r.env, out)
    case PrintStmt(e) =>
      var r := Eval(e, env);
      if r.result.Failure? then Executed(Failure(r.result.error), r.env, out)
      else Executed(Success(()), r.env, out + [Stringify(r.result.value, render)])
    case VarStmt(name, initializer) =>
      if initializer.None? then Executed(Success(()), env[name.lexeme := NilVal], out)
      else
        var r := Eval(initializer.value, env);
        if r.result.Failure? then Executed(Failure(r.result.error), r.env, out)
        else Executed(Success(()), r.env[name.lexeme := r.result.value], out)
    case BlockStmt(_) => Executed(Failure(Escape(EnvironmentTakesNoArgument)), env, out)
    case IfStmt(condition, thenBranch, elseBranch) =>
      var r := Eval(condition, env);
      if r.result.Failure? then Executed(Failure(r.result.error), r.env, out)
      else if IsTruthy(r.result.value) then Exec(thenBranch, r.env, out, render)
      else if elseBranch.Some? then Exec(elseBranch.value, r.env, out, render)
      else Executed(Success(()), r.env, out)
  }

  /**
   * `visit_var_stmt` defines the name in the current bindings: nil without an
   * initializer, otherwise the initializer's value; no other name is added.
   */
  lemma VarStatementDefines(name: Token, initializer: Option<Expr>, env: map<string, Value>, out: seq<string>, render: real -> string)
    ensures initializer.None? ==> Exec(VarStmt(name, initializer), env, out, render) == Executed(Success(()), env[name.lexeme := NilVal], out)
    ensures var x := Exec(VarStmt(name, initializer), env, out, render);
            x.result.Success? ==> x.env.Keys == env.Keys + {name.lexeme} && x.out == out
    ensures initializer.Some? && Eval(initializer.value, env).result.Success? ==>
              Exec(VarStmt(name, initializer), env, out, render).env[name.lexeme] == Eval(initializer.value, env).result.value
  {
    if initializer.Some? {
      EvalKeepsNames(initializer.value, env);
    }
  }

  /**
   * `visit_if_stmt`: after the condition, the then branch runs exactly when
   * the condition is truthy, the else branch (when present) exactly when it is
   * not, and with neither nothing else happens.
   */
  lemma IfRunsOneBranch(condition: Expr, thenBranch: Stmt, elseBranch: Option<Stmt>, env: map<string, Value>, out: seq<string>,
                        render: real -> string)
    requires Eval(condition, env).result.Success?
    ensures var c := Eval(condition, env);
            IsTruthy(c.result.value) ==> Exec(IfStmt(condition, thenBranch, elseBranch), env, out, render) == Exec(thenBranch, c.env, out, render)
    ensures var c := Eval(condition, env);
            !IsTruthy(c.result.value) && elseBranch.Some? ==>
              Exec(IfStmt(condition, thenBranch, elseBranch), env, out, render) == Exec(elseBranch.value, c.env, out, render)
    ensures var c := Eval(condition, env);
            !IsTruthy(c.result.value) && elseBranch.None? ==>
              Exec(IfStmt(condition, thenBranch, elseBranch), env, out, render) == Executed(Success(()), c.env, out)
  {
  }

  /** Running statements in order, stopping at the first one that does not complete. */
  function ExecAll(ss: seq<Stmt>, env: map<string, Value>, out: seq<string>, render: real -> string): Executed
    decreases |ss|
  {
    if ss == [] then Executed(Success(()), env, out)
    else
      var first := Exec(ss[0], env, out, render);
      if first.result.Failure? then first else ExecAll(ss[1..], first.env, first.out, render)
  }

  /**
   * Running two lists one after the other is running their concatenation:
   * the second list starts from where the first left off, and not at all if
   * the first stopped.
   */
  lemma {:induction false} ExecAllConcat(ss: seq<Stmt>, tt: seq<Stmt>, env: map<string, Value>, out: seq<string>, render: real -> string)
    ensures var first := ExecAll(ss, env, out, render);
            ExecAll(ss + tt, env, out, render) == if first.result.Failure? then first else ExecAll(tt, first.env, first.out, render)
    decreases |ss|
  {
    if ss != [] {
      assert (ss + tt)[0] == ss[0];
      assert (ss + tt)[1..] == ss[1..] + tt;
      var head := Exec(ss[0], env, out, render);
      if head.result.Success? {
        ExecAllConcat(ss[1..], tt, head.env, head.out, render);
      }
    } else {
      assert ss + tt == tt;
    }
  }

  /** Printing only appends: the lines printed before are never changed. */
  lemma {:induction false} ExecKeepsOutput(s: Stmt, env: map<string, Value>, out: seq<string>, render: real -> string)
    ensures var x := Exec(s, env, out, render); |out| <= |x.out| && x.out[..|out|] == out
    decreases s
  {
    match s
    case IfStmt(condition, thenBranch, elseBranch) =>
      var c := Eval(condition, env);
      if c.result.Success? {
        if IsTruthy(c.result.value) {
          ExecKeepsOutput(thenBranch, c.env, out, render);
        } else if elseBranch.Some? {
          ExecKeepsOutput(elseBranch.value, c.env, out, render);
        }
      }
    case PrintStmt(e) =>
      var x := Exec(s, env, out, render);
      if x.result.Success? {
        assert x.out == out + [Stringify(Eval(e, env).result.value, render)];
      }
    case _ =>
  }

  lemma {:induction false} ExecAllKeepsOutput(ss: seq<Stmt>, env: map<string, Value>, out: seq<string>, render: real -> string)
    ensures var x := ExecAll(ss, env, out, render); |out| <= |x.out| && x.out[..|out|] == out
    decreases |ss|
  {
    if ss != [] {
      var first := Exec(ss[0], env, out, render);
      ExecKeepsOutput(ss[0], env, out, render);
      if first.result.Success? {
        ExecAllKeepsOutput(ss[1..], first.env, first.out, render);
        var x := ExecAll(ss[1..], first.env, first.out, render);
        assert x.out[..|out|] == x.out[..|first.out|][..|out|];
      }
    }
  }

  /**
   * `interpret` stops at the first statement that does not complete: the
   * statements before it all completed, and the outcome is that statement's.
   */
  lemma StopsAtFirstFault(ss: seq<Stmt>, env: map<string, Value>, out: seq<string>, render: real -> string)
    requires ExecAll(ss, env, out, render).result.Failure?
    ensures exists k :: 0 <= k < |ss| && ExecAll(ss[..k], env, out, render).result.Success? &&
              var before := ExecAll(ss[..k], env, out, render);
              ExecAll(ss, env, out, render) == Exec(ss[k], before.env, before.out, render)
  {
    var k := FirstFault(ss, env, out, render);
    var before := ExecAll(ss[..k], env, out, render);
    var rest := ss[k..];
    assert ss[..k] + rest == ss;
    ExecAllConcat(ss[..k], rest, env, out, render);
    assert rest[0] == ss[k];
    assert ExecAll(rest, before.env, before.out, render) == Exec(ss[k], before.env, before.out, render);
  }

  /** The index of the statement that stops a failing run. */
  function FirstFault(ss: seq<Stmt>, env: map<string, Value>, out: seq<string>, render: real -> string): (k: nat)
    requires ExecAll(ss, env, out, render).result.Failure?
    ensures k < |ss| && ExecAll(ss[..k], env, out, render).result.Success?
    ensures var before := ExecAll(ss[..k], env, out, render);
            Exec(ss[k], before.env, before.out, render).result.Failure?
    decreases |ss|
  {
    var first := Exec(ss[0], env, out, render);
    if first.result.Failure? then
      assert ss[..0] == [];
      0
    else
      var k := FirstFault(ss[1..], first.env, first.out, render);
      assert ss[..k + 1] == [ss[0]] + ss[1..][..k];
      ExecAllConcat([ss[0]], ss[1..][..k], env, out, render);
      assert [ss[0]][1..] == [];
      assert ss[1..][k] == ss[k + 1];
      k + 1
  }
}
