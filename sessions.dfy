/** Sequences of dispatched actions, starting from the state `useReducer` is given, and the
    invariants every such sequence keeps. */
module Sessions {
  import opened Optional
  import opened NumberParsing
  import opened Calculator
  import Evaluator
  import Transitions
  import opened Text

  /** Dispatch the actions one after the other; a thrown `TypeError` ends the session.
      No actions leave the state as it is, and a session can only throw if a point key
      was pressed in it. */
  function Run(s: State, actions: seq<Action>, arith: Evaluator.Arithmetic): (r: Outcome)
    ensures actions == [] ==> r == Next(s)
    ensures r.TypeError? ==> exists i :: 0 <= i < |actions| && actions[i] == AddDigit(".")
    decreases |actions|
  {
    if actions == [] then Next(s)
    else
      match Reducer(s, actions[0], arith)
      case TypeError => TypeError
      case Next(t) =>
        var r := Run(t, actions[1..], arith);
        assert r.TypeError? ==> exists i :: 1 <= i < |actions| && actions[i] == AddDigit(".") by {
          if r.TypeError? {
            var j :| 0 <= j < |actions| - 1 && actions[1..][j] == AddDigit(".");
            assert actions[j + 1] == AddDigit(".");
          }
        }
        r
  }

  /** Running two sequences in turn is running their concatenation. */
  lemma {:induction false} RunAppend(s: State, xs: seq<Action>, ys: seq<Action>, arith: Evaluator.Arithmetic)
    ensures Run(s, xs + ys, arith) ==
              match Run(s, xs, arith)
              case TypeError => TypeError
              case Next(t) => Run(t, ys, arith)
    decreases |xs|
  {
    if xs == [] {
      assert xs + ys == ys;
    } else {
      assert (xs + ys)[0] == xs[0];
      assert (xs + ys)[1..] == xs[1..] + ys;
      match Reducer(s, xs[0], arith)
      case TypeError =>
      case Next(t) => RunAppend(t, xs[1..], ys, arith);
    }
  }

  /** Whatever came before, a session that ends with a clear and has not thrown is back at `{}`. */
  lemma ClearResets(s: State, xs: seq<Action>, arith: Evaluator.Arithmetic)
    ensures Run(s, xs + [Clear], arith) == TypeError || Run(s, xs + [Clear], arith) == Next(Empty)
  {
    RunAppend(s, xs, [Clear], arith);
  }

  /** A previous operand is present exactly when an operation is pending. */
  predicate Paired(s: State) {
    s.previousOperand.Some? <==> s.operation.Some?
  }

  /** Every action keeps the previous operand and the operation paired. */
  lemma PairedStep(s: State, a: Action, arith: Evaluator.Arithmetic)
    requires Paired(s)
    ensures Reducer(s, a, arith).Next? ==> Paired(Reducer(s, a, arith).state)
  {
  }

  /** Every session from a paired state, in particular from `{}`, keeps them paired. */
  lemma {:induction false} PairedRun(s: State, actions: seq<Action>, arith: Evaluator.Arithmetic)
    requires Paired(s)
    ensures Run(s, actions, arith).Next? ==> Paired(Run(s, actions, arith).state)
    decreases |actions|
  {
    if actions != [] {
      PairedStep(s, actions[0], arith);
      if Reducer(s, actions[0], arith).Next? {
        PairedRun(Reducer(s, actions[0], arith).state, actions[1..], arith);
      }
    }
  }

  /** Both operands, when present, have at most one decimal point. */
  predicate OnePoint(s: State) {
    && (s.currentOperand.Some? ==> AtMostOnePoint(s.currentOperand.value))
    && (s.previousOperand.Some? ==> AtMostOnePoint(s.previousOperand.value))
  }

  /** What `Number.prototype.toString` always gives: text with at most one decimal point
      (`12.5`, `-0.25`, `1e+21`, `1.5e-7`, `Infinity`, `NaN`). */
  ghost predicate PrintsLikeNumbers(arith: Evaluator.Arithmetic) {
    forall o, prev, cur :: AtMostOnePoint(arith(o, prev, cur))
  }

  /** An action the keypad can dispatch: one key of `0`-`9` or `.`, an operation, clear,
      delete or evaluate. */
  predicate IsKeypadAction(a: Action) {
    match a
    case AddDigit(d) => |d| == 1 && IsKeypadChar(d[0])
    case Unrecognised(_) => false
    case _ => true
  }

  /** An evaluation result has at most one point when the arithmetic's text does. */
  lemma EvaluateHasOnePoint(s: State, arith: Evaluator.Arithmetic)
    requires PrintsLikeNumbers(arith)
    ensures AtMostOnePoint(EvaluateState(s, arith))
  {
  }

  /** Deleting the last character never adds a point. */
  lemma DropLastHasOnePoint(text: string)
    requires AtMostOnePoint(text) && text != ""
    ensures AtMostOnePoint(text[..|text| - 1])
  {
    assert text == text[..|text| - 1] + [text[|text| - 1]];
  }

  /** Every keypad action keeps both operands free of a second point. */
  lemma OnePointStep(s: State, a: Action, arith: Evaluator.Arithmetic)
    requires OnePoint(s) && IsKeypadAction(a) && PrintsLikeNumbers(arith)
    ensures Reducer(s, a, arith).Next? ==> OnePoint(Reducer(s, a, arith).state)
  {
    match a
    case AddDigit(d) =>
      if Reducer(s, a, arith).Next? {
        assert d == [d[0]];
        Transitions.AddDigitKeepsOnePoint(s, d, arith);
      }
    case ChooseOperation(_) =>
      EvaluateHasOnePoint(s, arith);
    case Evaluate =>
      EvaluateHasOnePoint(s, arith);
    case DeleteDigit =>
      if !s.overwrite && s.currentOperand.Some? && |s.currentOperand.value| > 1 {
        SliceDropsLast(s.currentOperand.value);
        DropLastHasOnePoint(s.currentOperand.value);
      }
    case Clear =>
  }

  /** Every keypad session from `{}` keeps both operands free of a second point. */
  lemma {:induction false} OnePointRun(s: State, actions: seq<Action>, arith: Evaluator.Arithmetic)
    requires OnePoint(s) && PrintsLikeNumbers(arith)
    requires forall i :: 0 <= i < |actions| ==> IsKeypadAction(actions[i])
    ensures Run(s, actions, arith).Next? ==> OnePoint(Run(s, actions, arith).state)
    decreases |actions|
  {
    if actions != [] {
      OnePointStep(s, actions[0], arith);
      if Reducer(s, actions[0], arith).Next? {
        OnePointRun(Reducer(s, actions[0], arith).state, actions[1..], arith);
      }
    }
  }
}
