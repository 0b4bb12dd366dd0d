/** The calculator's state machine: its state, its actions and `Reducer`. */
module Calculator {
  import opened Optional
  import opened Text
  import Evaluator

  /** The `type` strings of the five actions (`ACTIONS`). */
  const ADD_DIGIT := "add-digit"
  const CHOOSE_OPERATION := "choose-operation"
  const CLEAR := "clear"
  const DELETE_DIGIT := "delete-digit"
  const EVALUATE := "evaluate"

  /** The reducer's state. An `overwrite` that was never set is `undefined`, which the reducer
      only tests for truth, so it is `false` here. */
  datatype State = State(
    currentOperand: Option<string>,
    previousOperand: Option<string>,
    operation: Option<string>,
    overwrite: bool)

  /** `{}`: the state at start-up and after a clear. */
  const Empty := State(None, None, None, false)

  /** A dispatched action, by its `type`, with the one payload field its case reads.
      `Unrecognised` stands for an action whose `type` is none of `ACTIONS`. */
  datatype Action =
    | AddDigit(digit: string)
    | ChooseOperation(operation: string)
    | Clear
    | DeleteDigit
    | Evaluate
    | Unrecognised(kind: string)

  /** The payload fields an action object may carry. */
  datatype Payload = Payload(digit: string, operation: string)

  /** The `type` field of the action object an `Action` stands for. */
  function TypeOf(a: Action): string {
    match a
    case AddDigit(_) => ADD_DIGIT
    case ChooseOperation(_) => CHOOSE_OPERATION
    case Clear => CLEAR
    case DeleteDigit => DELETE_DIGIT
    case Evaluate => EVALUATE
    case Unrecognised(kind) => kind
  }

  /** Which case of the reducer's `switch` the action object `{ type, payload }` reaches. */
  function ActionOf(kind: string, payload: Payload): (a: Action)
    ensures TypeOf(a) == kind
    ensures a.Unrecognised? <==> kind !in {ADD_DIGIT, CHOOSE_OPERATION, CLEAR, DELETE_DIGIT, EVALUATE}
    ensures a.AddDigit? ==> a.digit == payload.digit
    ensures a.ChooseOperation? ==> a.operation == payload.operation
  {
    if kind == ADD_DIGIT then AddDigit(payload.digit)
    else if kind == CHOOSE_OPERATION then ChooseOperation(payload.operation)
    else if kind == CLEAR then Clear
    else if kind == DELETE_DIGIT then DeleteDigit
    else if kind == EVALUATE then Evaluate
    else Unrecognised(kind)
  }

  /** What dispatching an action does: the next state, or the `TypeError` thrown when
      `includes` is called on an absent current operand. */
  datatype Outcome = Next(state: State) | TypeError

  /** `evaluate(state)`. */
  function EvaluateState(s: State, arith: Evaluator.Arithmetic): string {
    Evaluator.Evaluate(s.currentOperand, s.previousOperand, s.operation, arith)
  }

  /** `Reducer(state, action)`. The only action that throws is a point typed with no current
      operand and no pending overwrite. */
  function Reducer(s: State, a: Action, arith: Evaluator.Arithmetic): (r: Outcome)
    ensures r.TypeError? <==> a == AddDigit(".") && !s.overwrite && s.currentOperand.None?
  {
    match a
    case AddDigit(digit) =>
      if s.overwrite then
        Next(s.(currentOperand := Some(digit), overwrite := false))
      else if digit == "0" && s.currentOperand == Some("0") then
        Next(s)
      else if digit == "." && s.currentOperand.None? then
        TypeError
      else if digit == "." && '.' in s.currentOperand.value then
        Next(s)
      else
        Next(s.(currentOperand := Some(s.currentOperand.GetOr("") + digit)))
    case ChooseOperation(operation) =>
      if s.currentOperand.None? && s.previousOperand.None? then
        Next(s)
      else if s.currentOperand.None? then
        Next(s.(operation := Some(operation)))
      else if s.previousOperand.None? then
        Next(s.(operation := Some(operation), previousOperand := s.currentOperand, currentOperand := None))
      else
        Next(s.(previousOperand := Some(EvaluateState(s, arith)), operation := Some(operation),
                currentOperand := None))
    case Clear =>
      Next(Empty)
    case DeleteDigit =>
      if s.overwrite then
        Next(s.(overwrite := false, currentOperand := None))
      else if s.currentOperand.None? then
        Next(s)
      else if |s.currentOperand.value| == 1 then
        Next(s.(currentOperand := None))
      else
        Next(s.(currentOperand := Some(Slice(s.currentOperand.value, 0, -1))))
    case Evaluate =>
      if s.operation.None? || s.currentOperand.None? || s.previousOperand.None? then
        Next(s)
      else
        Next(s.(overwrite := true, previousOperand := None, operation := None,
                currentOperand := Some(EvaluateState(s, arith))))
    case Unrecognised(_) =>
      Next(s)
  }
}
