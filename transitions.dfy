/** The reducer's transition table, case by case, and the relations between its cases. */
module Transitions {
  import opened Optional
  import opened Text
  import opened Calculator
  import Evaluator
  import opened NumberParsing

  /** Every action object whose `type` is one of `ACTIONS` reaches the case of its own kind. */
  lemma ActionOfTypeOf(a: Action, p: Payload)
    requires !a.Unrecognised? || a.kind !in {ADD_DIGIT, CHOOSE_OPERATION, CLEAR, DELETE_DIGIT, EVALUATE}
    requires a.AddDigit? ==> p.digit == a.digit
    requires a.ChooseOperation? ==> p.operation == a.operation
    ensures ActionOf(TypeOf(a), p) == a
  {
  }

  /** After an evaluation, a digit replaces the result instead of extending it, and clears
      `overwrite`; the rest of the state is kept. */
  lemma AddDigitOverwrites(s: State, digit: string, arith: Evaluator.Arithmetic)
    requires s.overwrite
    ensures Reducer(s, AddDigit(digit), arith) ==
              Next(State(Some(digit), s.previousOperand, s.operation, false))
  {
  }

  /** A second leading zero and a second point are ignored: the state comes back unchanged. */
  lemma AddDigitIgnored(s: State, digit: string, arith: Evaluator.Arithmetic)
    requires !s.overwrite
    requires (digit == "0" && s.currentOperand == Some("0"))
          || (digit == "." && s.currentOperand.Some? && '.' in s.currentOperand.value)
    ensures Reducer(s, AddDigit(digit), arith) == Next(s)
  {
  }

  /** Otherwise the digit is appended to the current operand (an absent one counting as empty)
      and nothing else changes; the one exception is a point with no current operand, which throws. */
  lemma AddDigitAppends(s: State, digit: string, arith: Evaluator.Arithmetic)
    requires !s.overwrite
    requires !(digit == "0" && s.currentOperand == Some("0"))
    requires !(digit == "." && s.currentOperand.Some? && '.' in s.currentOperand.value)
    ensures digit == "." && s.currentOperand.None? ==> Reducer(s, AddDigit(digit), arith) == TypeError
    ensures !(digit == "." && s.currentOperand.None?) ==>
              Reducer(s, AddDigit(digit), arith) ==
                Next(s.(currentOperand := Some(s.currentOperand.GetOr("") + digit)))
  {
  }

  /** An added digit never gives the current operand a second point: a point is added only to
      an operand without one. */
  lemma AddDigitKeepsOnePoint(s: State, digit: string, arith: Evaluator.Arithmetic)
    requires s.currentOperand.Some? ==> AtMostOnePoint(s.currentOperand.value)
    requires digit == "." || '.' !in digit
    requires Reducer(s, AddDigit(digit), arith).Next?
    ensures var t := Reducer(s, AddDigit(digit), arith).state;
            t.currentOperand.Some? && AtMostOnePoint(t.currentOperand.value)
  {
  }

  /** Choosing an operation: with no operands it is ignored; with only a previous operand it
      replaces the operation; with only a current operand that operand moves to the previous
      one; with both, their evaluation becomes the previous operand. `overwrite` is kept. */
  lemma ChooseOperationCases(s: State, op: string, arith: Evaluator.Arithmetic)
    ensures var r := Reducer(s, ChooseOperation(op), arith);
      && r.Next?
      && r.state.overwrite == s.overwrite
      && (s.currentOperand.None? && s.previousOperand.None? ==> r.state == s)
      && (s.currentOperand.None? && s.previousOperand.Some? ==> r.state == s.(operation := Some(op)))
      && (s.currentOperand.Some? && s.previousOperand.None? ==>
            r.state == State(None, s.currentOperand, Some(op), s.overwrite))
      && (s.currentOperand.Some? && s.previousOperand.Some? ==>
            r.state == State(None, Some(EvaluateState(s, arith)), Some(op), s.overwrite))
  {
  }

  /** A clear gives `{}` whatever the state. */
  lemma ClearEmpties(s: State, arith: Evaluator.Arithmetic)
    ensures Reducer(s, Clear, arith) == Next(State(None, None, None, false))
  {
  }

  /** An action of unknown type changes nothing. */
  lemma UnrecognisedIgnored(s: State, kind: string, arith: Evaluator.Arithmetic)
    ensures Reducer(s, Unrecognised(kind), arith) == Next(s)
  {
  }

  /** Deleting: after an evaluation it discards the result; with no current operand it is
      ignored; a one-character operand becomes absent; a longer one loses its last character,
      and only that. The empty operand stays empty. */
  lemma DeleteDigitCases(s: State, arith: Evaluator.Arithmetic)
    ensures var r := Reducer(s, DeleteDigit, arith);
      && r.Next?
      && r.state.previousOperand == s.previousOperand
      && r.state.operation == s.operation
      && (s.overwrite ==> r.state.currentOperand.None? && !r.state.overwrite)
      && (!s.overwrite ==> r.state.overwrite == s.overwrite)
      && (!s.overwrite && s.currentOperand.None? ==> r.state == s)
      && (!s.overwrite && s.currentOperand.Some? && |s.currentOperand.value| == 1 ==>
            r.state.currentOperand.None?)
      && (!s.overwrite && s.currentOperand.Some? && |s.currentOperand.value| != 1 ==>
            var cur, next := s.currentOperand.value, r.state.currentOperand;
            && next.Some?
            && (cur == "" ==> next.value == "")
            && (cur != "" ==> |next.value| == |cur| - 1 && next.value < cur))
  {
  }

  /** Evaluating with all three of operation, current and previous operand present puts the
      result in the current operand, clears the other two and sets `overwrite`; with any of
      them absent it changes nothing. */
  lemma EvaluateCases(s: State, arith: Evaluator.Arithmetic)
    ensures var r := Reducer(s, Evaluate, arith);
      && r.Next?
      && (s.operation.None? || s.currentOperand.None? || s.previousOperand.None? ==> r.state == s)
      && (s.operation.Some? && s.currentOperand.Some? && s.previousOperand.Some? ==>
            r.state == State(Some(EvaluateState(s, arith)), None, None, true))
  {
  }

  /** `=` on a pending recognised operation whose operands both start with a digit puts the arithmetic's
      result, previous operand first, into the current operand. */
  lemma EvaluateComputes(s: State, o: Evaluator.Operator, arith: Evaluator.Arithmetic)
    requires s.operation == Some(Evaluator.SymbolOf(o))
    requires s.currentOperand.Some? && StartsWithDigit(s.currentOperand.value)
    requires s.previousOperand.Some? && StartsWithDigit(s.previousOperand.value)
    ensures Reducer(s, Evaluate, arith) ==
              Next(State(Some(arith(o, s.previousOperand.value, s.currentOperand.value)), None, None, true))
  {
    LeadingDigitParses(s.currentOperand.value);
    LeadingDigitParses(s.previousOperand.value);
    Evaluator.EvaluateRecognised(s.currentOperand.value, s.previousOperand.value, o, arith);
  }

  /** Choosing the next operation on a pending recognised operation whose operands both start with a digit
      puts the arithmetic's result into the previous operand. */
  lemma ChainComputes(s: State, o: Evaluator.Operator, op: string, arith: Evaluator.Arithmetic)
    requires s.operation == Some(Evaluator.SymbolOf(o))
    requires s.currentOperand.Some? && StartsWithDigit(s.currentOperand.value)
    requires s.previousOperand.Some? && StartsWithDigit(s.previousOperand.value)
    ensures Reducer(s, ChooseOperation(op), arith) ==
              Next(State(None, Some(arith(o, s.previousOperand.value, s.currentOperand.value)), Some(op), s.overwrite))
  {
    LeadingDigitParses(s.currentOperand.value);
    LeadingDigitParses(s.previousOperand.value);
    Evaluator.EvaluateRecognised(s.currentOperand.value, s.previousOperand.value, o, arith);
  }

  /** Pressing `=` twice is the same as pressing it once. */
  lemma EvaluateIdempotent(s: State, arith: Evaluator.Arithmetic)
    ensures var once := Reducer(s, Evaluate, arith).state;
            Reducer(once, Evaluate, arith) == Next(once)
  {
  }

  /** Choosing the next operation with both operands present folds left to right: it leaves
      the same operands and operation as pressing `=` first and then choosing it. Only
      `overwrite` tells the two apart, since `=` sets it. */
  lemma ChainedEqualsEvaluateThenChoose(s: State, op: string, arith: Evaluator.Arithmetic)
    requires s.operation.Some? && s.currentOperand.Some? && s.previousOperand.Some?
    ensures var chained := Reducer(s, ChooseOperation(op), arith).state;
            var stepwise := Reducer(Reducer(s, Evaluate, arith).state, ChooseOperation(op), arith).state;
            && chained.previousOperand == stepwise.previousOperand == Some(EvaluateState(s, arith))
            && chained.operation == stepwise.operation == Some(op)
            && chained.currentOperand == stepwise.currentOperand == None
            && chained.overwrite == s.overwrite
            && stepwise.overwrite
  {
  }
}
