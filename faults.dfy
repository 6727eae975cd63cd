/**
 * What can interrupt evaluation (src/exceptions.py and src/interpreter.py).
 *
 * A `PloxRuntimeError` carries the offending token and a message; the
 * interpreter's `interpret` catches it and hands it to the error reporter.
 * Besides those, some paths of src/interpreter.py raise ordinary Python
 * exceptions that `interpret` does not catch; they are kept apart as host
 * errors, so that a model of `interpret` can let them escape as the original
 * does.
 */
module Faults {
  import opened Tokens

  /** The messages src/environment.py and src/interpreter.py raise with. */
  datatype RuntimeMessage =
    | UndefinedVariable(name: string)
    | OperandMustBeNumber
    | OperandsMustBeNumbers
    | OperandsMustBeTwoNumbersOrTwoStrings

  /** The exact wording of each message. */
  function Text(m: RuntimeMessage): (text: string)
    ensures |text| > 0 && text[|text| - 1] == '.'
    ensures m.UndefinedVariable? ==> |text| == |m.name| + 22 && text[20..20 + |m.name|] == m.name
  {
    match m
    case UndefinedVariable(name) => "Undefined variable '" + name + "'."
    case OperandMustBeNumber => "Operand must be a number."
    case OperandsMustBeNumbers => "Operands must be numbers."
    case OperandsMustBeTwoNumbersOrTwoStrings => "Operands must be two numbers or two strings."
  }

  /** Different messages read differently, so a report's text determines its message. */
  lemma TextIsInjective(m: RuntimeMessage, n: RuntimeMessage)
    ensures Text(m) == Text(n) <==> m == n
  {
    if Text(m) == Text(n) && m.UndefinedVariable? && n.UndefinedVariable? {
      assert m.name == Text(m)[20..20 + |m.name|];
    }
  }

  /** `PloxRuntimeError(token, message)`. */
  datatype RuntimeError = RuntimeError(token: Token, message: RuntimeMessage)

  /** The error `Environment.get` and `Environment.assign` raise for an unbound name. */
  function Undefined(name: Token): (e: RuntimeError)
    ensures e.token == name && Text(e.message) == "Undefined variable '" + name.lexeme + "'."
  {
    RuntimeError(name, UndefinedVariable(name.lexeme))
  }

  /**
   * Python exceptions other than `PloxRuntimeError` that evaluation can raise:
   * the `assert isinstance(.., float)` that follows an operand check a bool
   * has passed, a float division by zero, a logical expression (the
   * interpreter has no `visit_logical_expr`), and `Environment(...)` called
   * with an argument its constructor does not take.
   */
  datatype HostError = NotAFloat | DivisionByZero | NoLogicalVisitor | EnvironmentTakesNoArgument

  /** Why an evaluation stopped. */
  datatype Fault = Runtime(error: RuntimeError) | Escape(host: HostError)
}
