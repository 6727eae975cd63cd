/**
 * The tree-walking interpreter of src/interpreter.py.
 *
 * The interpreter holds the current `Environment` in a field that
 * `ExecuteBlock` swaps and restores; variable statements and assignments
 * update that environment in place. Each method is proved to do what the
 * functions of module Semantics say: `Evaluate` agrees with `Eval`, `Execute`
 * with `Exec`, and the statement loops of `ExecuteBlock` and `Interpret` with
 * `ExecAll`.
 *
 * What `print` writes is appended to `output`, one line per call; what the
 * error reporter receives is appended to `reported`.
 */
module Interpreting {
  import opened Wrappers
  import opened Tokens
  import opened Ast
  import opened Faults
  import opened Environments
  import opened Semantics

  class Interpreter {
    var environment: Environment
    var output: seq<string>
    var reported: seq<RuntimeError>
    /** `str` of a float. */
    const render: real -> string

    /** `__init__`: a new, empty environment. */
    constructor (render: real -> string)
      ensures fresh(environment) && environment.values == map[]
      ensures output == [] && reported == [] && this.render == render
    {
      this.render := render;
      environment := new Environment();
      output := [];
      reported := [];
    }

    /** `_evaluate` and the `visit_*_expr` methods. */
    method Evaluate(expr: Expr) returns (r: Result<Value, Fault>)
      modifies environment
      ensures Evaluated(r, environment.values) == Eval(expr, old(environment.values))
      decreases expr
    {
      match expr
      case LiteralExpr(value) =>
        r := Success(value);
      case GroupingExpr(inner) =>
        r := Evaluate(inner);
      case UnaryExpr(operator, right) =>
        var operand := Evaluate(right);
        if operand.Failure? {
          r := operand;
        } else {
          r := UnaryRule(operator, operand.value);
        }
      case BinaryExpr(left, operator, right) =>
        var a := Evaluate(left);
        if a.Failure? {
          r := a;
        } else {
          var b := Evaluate(right);
          if b.Failure? {
            r := b;
          } else {
            r := BinaryRule(operator, a.value, b.value);
          }
        }
      case VariableExpr(name) =>
        var v := environment.Get(name);
        r := if v.Success? then Success(v.value) else Failure(Runtime(v.error));
      case AssignExpr(name, value) =>
        var v := Evaluate(value);
        if v.Failure? {
          r := v;
        } else {
          var rebound := environment.Assign(name, v.value);
          r := if rebound.Success? then v else Failure(Runtime(rebound.error));
        }
      case LogicalExpr(_, _, _) =>
        r := Failure(Escape(NoLogicalVisitor));
    }

    /** `_execute` and the `visit_*_stmt` methods. */
    method Execute(stmt: Stmt) returns (r: Result<(), Fault>)
      modifies this`output, environment
      ensures Executed(r, environment.values, output) == Exec(stmt, old(environment.values), old(output), render)
      decreases stmt
    {
      match stmt
      case ExpressionStmt(expression) =>
        var v := Evaluate(expression);
        r := if v.Success? then Success(()) else Failure(v.error);
      case PrintStmt(expression) =>
        var v := Evaluate(expression);
        if v.Success? {
          output := output + [Stringify(v.value, render)];
          r := Success(());
        } else {
          r := Failure(v.error);
        }
      case VarStmt(name, initializer) =>
        var value := NilVal;
        r := Success(());
        if initializer.Some? {
          var v := Evaluate(initializer.value);
          if v.Success? {
            value := v.value;
          } else {
            r := Failure(v.error);
          }
        }
        if r.Success? {
          environment.Define(name.lexeme, value);
        }
      case BlockStmt(_) =>
        r := Failure(Escape(EnvironmentTakesNoArgument));
      case IfStmt(condition, thenBranch, elseBranch) =>
        var c := Evaluate(condition);
        if c.Failure? {
          r := Failure(c.error);
        } else if IsTruthy(c.value) {
          r := Execute(thenBranch);
        } else if elseBranch.Some? {
          r := Execute(elseBranch.value);
        } else {
          r := Success(());
        }
    }

    /**
     * `_execute_block`: runs the statements against the given environment,
     * stopping at the first one that does not complete, and puts the previous
     * environment back whichever way it ends.
     */
    method ExecuteBlock(statements: seq<Stmt>, environment: Environment) returns (r: Result<(), Fault>)
      modifies this`environment, this`output, environment
      ensures this.environment == old(this.environment)
      ensures var x := ExecAll(statements, old(environment.values), old(output), render);
              environment.values == x.env && output == x.out &&
              (r.Success? <==> x.result.Success?) && (r.Failure? ==> r.error == x.result.error)
    {
      var previous := this.environment;
      this.environment := environment;
      r := Success(());
      var i := 0;
      while i < |statements| && r.Success?
        invariant 0 <= i <= |statements| && this.environment == environment
        invariant ExecAll(statements, old(environment.values), old(output), render) ==
                  if r.Success? then ExecAll(statements[i..], environment.values, output, render)
                  else Executed(r, environment.values, output)
        decreases |statements| - i
      {
        assert statements[i..][1..] == statements[i + 1..];
        r := Execute(statements[i]);
        i := i + 1;
      }
      this.environment := previous;
    }

    /**
     * `interpret`: runs the statements in order until one does not complete.
     * A runtime error is handed to the error reporter once and ends the run
     * quietly; any other exception escapes and is returned.
     */
    method Interpret(statements: seq<Stmt>) returns (escaped: Option<HostError>)
      modifies this`output, this`reported, environment
      ensures var x := ExecAll(statements, old(environment.values), old(output), render);
              environment.values == x.env && output == x.out &&
              (x.result.Success? ==> escaped == None && reported == old(reported)) &&
              (x.result.Failure? && x.result.error.Runtime? ==> escaped == None && reported == old(reported) + [x.result.error.error]) &&
              (x.result.Failure? && x.result.error.Escape? ==> escaped == Some(x.result.error.host) && reported == old(reported))
    {
      var r := Success(());
      var i := 0;
      while i < |statements| && r.Success?
        invariant 0 <= i <= |statements| && reported == old(reported)
        invariant ExecAll(statements, old(environment.values), old(output), render) ==
                  if r.Success? then ExecAll(statements[i..], environment.values, output, render)
                  else Executed(r, environment.values, output)
        decreases |statements| - i
      {
        assert statements[i..][1..] == statements[i + 1..];
        r := Execute(statements[i]);
        i := i + 1;
      }
      escaped := None;
      if r.Failure? {
        match r.error
        case Runtime(error) => reported := reported + [error];
        case Escape(host) => escaped := Some(host);
      }
    }
  }
}
