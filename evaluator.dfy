/** The calculator's `evaluate`: parse both operands, dispatch on the operator symbol,
    and give back the result as a string.

    The floating-point arithmetic and `Number.prototype.toString` are not modelled; they are
    an `Arithmetic` that every definition and lemma here takes as a parameter, so what is
    proved holds whatever the arithmetic computes. */
module Evaluator {
  import opened Optional
  import opened NumberParsing

  /** The four operators `evaluate` recognises. */
  datatype Operator = Plus | Minus | Times | Divide

  /** `(parseFloat(previous) <op> parseFloat(current)).toString()`, given the operator and the
      previous and current operand strings, for operands that parse. */
  type Arithmetic = (Operator, string, string) -> string

  /** The symbol each `case` of the `switch` matches. The division case matches the
      division sign U+00F7, not the slash. */
  function SymbolOf(o: Operator): string {
    match o
    case Plus => "+"
    case Minus => "-"
    case Times => "*"
    case Divide => "\U{00F7}"
  }

  /** Which `case` of the `switch` an operation selects; `None` is the `default` case,
      which an absent operation also reaches. */
  function OperatorOf(operation: Option<string>): (o: Option<Operator>)
    ensures o.Some? ==> operation == Some(SymbolOf(o.value))
  {
    match operation
    case None => None
    case Some(symbol) =>
      if symbol == "+" then Some(Plus)
      else if symbol == "-" then Some(Minus)
      else if symbol == "*" then Some(Times)
      else if symbol == "\U{00F7}" then Some(Divide)
      else None
  }

  /** Every operator is recognised by its own symbol, so `OperatorOf` and `SymbolOf` are inverse. */
  lemma OperatorSymbolRoundTrip(o: Operator)
    ensures OperatorOf(Some(SymbolOf(o))) == Some(o)
  {
  }

  /** The operand is present and `parseFloat` does not give `NaN` for it; `parseFloat` of an
      absent operand (`null` or `undefined`) is always `NaN`. */
  predicate Parses(operand: Option<string>): (ok: bool)
    ensures ok ==> operand.Some? && TrimStart(operand.value) != ""
  {
    operand.Some? && ParsesAsNumber(operand.value)
  }

  /** `evaluate({ currentOperand, previousOperand, operation })`.
      Either operand not parsing gives the empty string; so does an operation none of the
      cases matches, since the initial `""` of `computation` is then what gets converted. */
  function Evaluate(current: Option<string>, previous: Option<string>, operation: Option<string>,
                    arith: Arithmetic): (r: string)
    ensures !Parses(previous) || !Parses(current) ==> r == ""
    ensures OperatorOf(operation).None? ==> r == ""
    ensures Parses(previous) && Parses(current) && OperatorOf(operation).Some? ==>
              r == arith(OperatorOf(operation).value, previous.value, current.value)
  {
    if !Parses(previous) || !Parses(current) then ""
    else
      match OperatorOf(operation)
      case Some(o) => arith(o, previous.value, current.value)
      case None => ""
  }

  /** With both operands parsing, a recognised symbol hands them to the arithmetic, previous
      operand first. */
  lemma EvaluateRecognised(current: string, previous: string, o: Operator, arith: Arithmetic)
    requires ParsesAsNumber(current) && ParsesAsNumber(previous)
    ensures Evaluate(Some(current), Some(previous), Some(SymbolOf(o)), arith) == arith(o, previous, current)
  {
    OperatorSymbolRoundTrip(o);
  }

  /** On operands typed on the keypad, `evaluate` computes exactly when both are neither
      empty nor a lone point and the operation is one of the four recognised symbols. */
  lemma EvaluateKeypadOperands(current: string, previous: string, operation: string, arith: Arithmetic)
    requires IsKeypadOperand(current) && IsKeypadOperand(previous)
    ensures Evaluate(Some(current), Some(previous), Some(operation), arith) ==
              if current in {"", "."} || previous in {"", "."} || OperatorOf(Some(operation)).None? then ""
              else arith(OperatorOf(Some(operation)).value, previous, current)
  {
    KeypadOperandParses(current);
    KeypadOperandParses(previous);
  }

  /** The keypad's division key sends `/`, which no case of the `switch` matches: division of
      two numbers that parse yields the empty string, not a quotient. */
  lemma SlashIsNotDivision(current: string, previous: string, arith: Arithmetic)
    ensures OperatorOf(Some("/")) == None
    ensures Evaluate(Some(current), Some(previous), Some("/"), arith) == ""
  {
  }
}
