/** Key presses on the calculator, worked through the reducer. */
module Scenarios {
  import opened Optional
  import opened Calculator
  import opened Sessions
  import opened NumberParsing
  import Transitions
  import Evaluator

  /** `5 + 3 =`: the digits go in one at a time, the operation moves the first operand up,
      and `=` leaves the sum as the current operand with `overwrite` set. */
  lemma AddTwoNumbers(arith: Evaluator.Arithmetic)
    ensures Run(Empty, [AddDigit("5")], arith) == Next(State(Some("5"), None, None, false))
    ensures Run(Empty, [AddDigit("5"), ChooseOperation("+")], arith) ==
              Next(State(None, Some("5"), Some("+"), false))
    ensures Run(Empty, [AddDigit("5"), ChooseOperation("+"), AddDigit("3")], arith) ==
              Next(State(Some("3"), Some("5"), Some("+"), false))
    ensures Run(Empty, [AddDigit("5"), ChooseOperation("+"), AddDigit("3"), Evaluate], arith) ==
              Next(State(Some(arith(Evaluator.Plus, "5", "3")), None, None, true))
  {
    var s1 := State(Some("5"), None, None, false);
    var s2 := State(None, Some("5"), Some("+"), false);
    var s3 := State(Some("3"), Some("5"), Some("+"), false);
    EnterFivePlusThree(arith);
    EvaluateFivePlusThree(arith);
    var xs := [AddDigit("5"), ChooseOperation("+"), AddDigit("3"), Evaluate];
    RunAppend(Empty, [AddDigit("5")], xs[1..], arith);
    RunAppend(s1, [ChooseOperation("+")], xs[2..], arith);
    RunAppend(s2, [AddDigit("3")], xs[3..], arith);
    assert [AddDigit("5")] + xs[1..] == xs;
    assert [ChooseOperation("+")] + xs[2..] == xs[1..];
    assert [AddDigit("3")] + xs[3..] == xs[2..];
    assert [AddDigit("5")] + [ChooseOperation("+")] == xs[..2];
    RunAppend(Empty, xs[..2], [AddDigit("3")], arith);
    assert xs[..2] + [AddDigit("3")] == xs[..3];
  }

  /** The first three key presses of `5 + 3 =`, one state at a time. */
  lemma EnterFivePlusThree(arith: Evaluator.Arithmetic)
    ensures Run(Empty, [AddDigit("5")], arith) == Next(State(Some("5"), None, None, false))
    ensures Run(State(Some("5"), None, None, false), [ChooseOperation("+")], arith) ==
              Next(State(None, Some("5"), Some("+"), false))
    ensures Run(State(None, Some("5"), Some("+"), false), [AddDigit("3")], arith) ==
              Next(State(Some("3"), Some("5"), Some("+"), false))
  {
    assert "" + "5" == "5";
    assert "" + "3" == "3";
  }

  /** The `=` of `5 + 3 =`. */
  lemma EvaluateFivePlusThree(arith: Evaluator.Arithmetic)
    ensures Run(State(Some("3"), Some("5"), Some("+"), false), [Evaluate], arith) ==
              Next(State(Some(arith(Evaluator.Plus, "5", "3")), None, None, true))
  {
    assert Evaluator.SymbolOf(Evaluator.Plus) == "+";
    Transitions.EvaluateComputes(State(Some("3"), Some("5"), Some("+"), false), Evaluator.Plus, arith);
    assert [Evaluate][1..] == [];
  }

  /** Choosing `+` while `3 ÷ 12` is pending divides the previous operand by the current one
      and keeps the quotient as the new previous operand. */
  lemma ChainDivision(arith: Evaluator.Arithmetic)
    ensures Reducer(State(Some("12"), Some("3"), Some("\U{00F7}"), false), ChooseOperation("+"), arith) ==
              Next(State(None, Some(arith(Evaluator.Divide, "3", "12")), Some("+"), false))
  {
    assert Evaluator.SymbolOf(Evaluator.Divide) == "\U{00F7}";
    Transitions.ChainComputes(State(Some("12"), Some("3"), Some("\U{00F7}"), false), Evaluator.Divide, "+", arith);
  }

  /** `1 ÷ 0 =` goes through the arithmetic like any other division: it is not an error path,
      and whatever text the arithmetic gives for it becomes the current operand. */
  lemma DivideByZero(arith: Evaluator.Arithmetic)
    ensures Reducer(State(Some("0"), Some("1"), Some("\U{00F7}"), false), Evaluate, arith) ==
              Next(State(Some(arith(Evaluator.Divide, "1", "0")), None, None, true))
  {
    assert Evaluator.SymbolOf(Evaluator.Divide) == "\U{00F7}";
    Transitions.EvaluateComputes(State(Some("0"), Some("1"), Some("\U{00F7}"), false), Evaluator.Divide, arith);
  }

  /** `8 / 2 =` with the operation the division key carries: `/` is not a symbol `evaluate`
      knows, so `""` is stored as the current operand (the display then shows the grouping of
      `""`). */
  lemma SlashKeyGivesEmptyResult(arith: Evaluator.Arithmetic)
    ensures Reducer(State(Some("2"), Some("8"), Some("/"), false), Evaluate, arith) ==
              Next(State(Some(""), None, None, true))
  {
    Evaluator.SlashIsNotDivision("2", "8", arith);
  }

  /** A point typed first, or typed right after an operation, throws. */
  lemma PointWithoutOperandThrows(arith: Evaluator.Arithmetic)
    ensures Run(Empty, [AddDigit(".")], arith) == TypeError
    ensures Run(Empty, [AddDigit("5"), ChooseOperation("+"), AddDigit(".")], arith) == TypeError
  {
    var s1 := State(Some("5"), None, None, false);
    var s2 := State(None, Some("5"), Some("+"), false);
    assert "" + "5" == "5";
    assert Reducer(Empty, AddDigit("5"), arith) == Next(s1);
    assert Reducer(s1, ChooseOperation("+"), arith) == Next(s2);
    assert Reducer(s2, AddDigit("."), arith) == TypeError;
    RunAppend(Empty, [AddDigit("5")], [ChooseOperation("+"), AddDigit(".")], arith);
    RunAppend(s1, [ChooseOperation("+")], [AddDigit(".")], arith);
  }
}
