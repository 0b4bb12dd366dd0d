# Calculator state machine

A Dafny model of the calculator in `src/App.js`. The calculator keeps a state of
three optional strings (`currentOperand`, `previousOperand`, `operation`) and an
`overwrite` flag. A reducer maps a state and a dispatched action to the next
state. It handles five kinds of action: add-digit, choose-operation, clear,
delete-digit and evaluate. Two helpers sit beside it. `evaluate` computes the
pending operation. `formatOperand` renders an operand for display.

The model is pure, like the source: datatypes, functions and lemmas.

- `optional.dfy`: `Option`, which stands for a value that may be `null` or
  `undefined`. Every use the source makes of such a value treats the two alike:
  `== null`, `=== "0"`, `||`, `parseFloat`, the `switch` on the operation, and a
  method call on it. So both are `None`.
- `text.dfy`: the parts of JavaScript's `String.prototype` that the calculator
  uses. These are `slice` (with its negative end) and `split` on a one-character
  separator, together with `join`.
- `number_parsing.dfy`: the test for when `parseFloat` gives `NaN`. ECMAScript
  defines it this way: skip leading white space, then look for a decimal-literal
  prefix.
- `evaluator.dfy`: `evaluate`. The floating-point arithmetic and
  `Number.prototype.toString` form a parameter `arith` of type `Arithmetic`. So
  every result holds whatever the arithmetic computes. `arith(o, prev, cur)`
  stands for `(parseFloat(prev) o parseFloat(cur)).toString()`.
- `formatter.dfy`: `formatOperand`. The `Intl.NumberFormat` grouping is a
  parameter `group` of type `Grouping`.
- `calculator.dfy`: `State`, `Action`, the `ACTIONS` type strings and `Reducer`.
  `Reducer` returns an `Outcome`: either `Next(state)` or `TypeError`.
  `TypeError` is the exception thrown when `includes` is called on an absent
  operand.
- `transitions.dfy`: the transition table, one lemma per kind of action, plus
  the relations between the cases.
- `sessions.dfy`: sequences of dispatches from a start state, and the
  invariants they keep.
- `scenarios.dfy`: worked key sequences.

## Behaviour of the code worth knowing

- `evaluate` matches the operator symbols `+`, `-` (hyphen-minus), `*` and `÷`
  (U+00F7).
- With `3 ÷ 12` pending (previous `"3"`, current `"12"`), the quotient is
  previous divided by current, that is 3 ÷ 12.
- Typing `.` with no current operand and no pending overwrite throws a
  `TypeError`. This happens at start-up, right after choosing an operation, and
  after deleting the last digit.
- Choose-operation keeps `overwrite` as it is, so after `5 + 3 = +` it is still
  set.
- `evaluate` yields `""` for operands that do not parse or an operator it does
  not know, and the reducer stores that `""` as an operand.
- The keypad's division button carries `/`, and `evaluate` does not match `/`.
  If that `/` reaches the reducer, `8 / 2 =` stores `""` as the current operand;
  the display then shows `formatOperand("")`, the grouping of `""`
  (`SlashKeyGivesEmptyResult`). The button component that dispatches it is not
  part of this model.

## Model

| member | source | states |
|---|---|---|
| `Calculator.ActionOf` | src/App.js:6-12 | each of the five `type` strings selects its own case and passes on the payload field that case reads; any other string is the unrecognised case |
| `Transitions.ActionOfTypeOf` | src/App.js:6-15 | decoding an action's own type string and payload gives that action back |
| `Calculator.Reducer` | src/App.js:14-100 | the reducer throws exactly when the action is add-digit `.`, `overwrite` is off and there is no current operand |
| `Transitions.AddDigitOverwrites` | src/App.js:17-22 | with `overwrite` set, a digit becomes the whole current operand and `overwrite` is cleared; previous operand and operation are kept |
| `Transitions.AddDigitIgnored` | src/App.js:24-29 | `0` on the operand `"0"`, and `.` on an operand that already has a point, give back the same state |
| `Transitions.AddDigitAppends` | src/App.js:27-34 | otherwise the digit is appended to the current operand (absent counts as empty) and nothing else changes, except that `.` on an absent operand throws |
| `Transitions.AddDigitKeepsOnePoint` | src/App.js:24-34 | adding a digit never gives the current operand a second decimal point |
| `Transitions.ChooseOperationCases` | src/App.js:35-61 | the four choose-operation cases: no operands gives no change; only previous replaces the operation; only current moves it to previous; both puts their evaluation into previous; `overwrite` is kept in every case |
| `Transitions.ClearEmpties` | src/App.js:62-63 | clear gives `{}` from any state |
| `Transitions.UnrecognisedIgnored` | src/App.js:97-98 | an action of unknown type leaves the state unchanged |
| `Transitions.DeleteDigitCases` | src/App.js:64-80 | delete discards a fresh result and clears `overwrite`; does nothing with no operand; makes a one-character operand absent; otherwise leaves a strict prefix one character shorter; `""` stays `""`; previous operand and operation are never touched |
| `Transitions.EvaluateCases` | src/App.js:81-96 | with any of operation, current or previous absent, evaluate changes nothing; otherwise the result becomes the current operand, the other two are cleared and `overwrite` is set |
| `Transitions.EvaluateComputes` | src/App.js:81-96 | `=` on a recognised operation whose operands start with a digit stores the arithmetic's result as the current operand, clears the rest and sets `overwrite` |
| `Transitions.ChainComputes` | src/App.js:56-61 | choosing an operation on a recognised pending operation whose operands start with a digit stores the arithmetic's result as the previous operand and keeps `overwrite` |
| `Transitions.EvaluateIdempotent` | src/App.js:81-96 | pressing `=` twice is the same as pressing it once |
| `Transitions.ChainedEqualsEvaluateThenChoose` | src/App.js:56-96 | choosing an operation with both operands present folds left to right: it gives the same operands and operation as `=` followed by that choice; only `overwrite` differs |
| `Evaluator.OperatorOf` | src/App.js:107-121 | a recognised operator is selected only by its own symbol; an absent or unknown operation reaches the default case |
| `Evaluator.OperatorSymbolRoundTrip` | src/App.js:107-119 | each of the four operators is selected by its symbol, so symbol and operator are inverse |
| `Evaluator.Parses` | src/App.js:103-105 | an absent operand never parses; a present one parses only if it is not all white space |
| `Evaluator.Evaluate` | src/App.js:102-125 | `""` when either operand fails to parse or the operator is unknown; otherwise the arithmetic's result for the selected operator, previous operand first |
| `Evaluator.EvaluateRecognised` | src/App.js:102-124 | with both operands parsing, a recognised symbol gives the arithmetic's result for that operator, previous operand first |
| `Evaluator.EvaluateKeypadOperands` | src/App.js:102-125 | on keypad-typed operands, the result is computed exactly when neither operand is empty or a lone point and the operator is known |
| `Evaluator.SlashIsNotDivision` | src/App.js:117-124 | `/` is not a recognised operator, so it yields `""` for any operands |
| `NumberParsing.TrimStart` | src/App.js:103-104 | removes exactly the leading white space before a number is read |
| `NumberParsing.ParsesAsNumber` | src/App.js:103-105 | text that is empty or all white space is `NaN`; text that parses starts, after its white space, with a sign, a digit, a point or `Infinity`'s `I` |
| `NumberParsing.LeadingDigitParses` | src/App.js:103-105 | text that starts with a digit never parses to `NaN` |
| `NumberParsing.KeypadOperandParses` | src/App.js:103-105 | an operand of digits and at most one point parses exactly when it is neither empty nor `"."` |
| `Text.Slice` | src/App.js:79 | `slice` returns the characters from the relative start index up to the relative end index, and nothing when the end is not past the start |
| `Text.SliceDropsLast` | src/App.js:79 | `slice(0, -1)` drops the last character and leaves `""` as `""` |
| `Text.Split` | src/App.js:133 | `split` gives at least one piece, and no piece contains a separator |
| `Text.SplitCount` | src/App.js:133 | `split` gives one more piece than there are separators |
| `Text.JoinSplit` | src/App.js:133 | joining the pieces of a split with the separator gives back the original string |
| `Text.SplitJoin` | src/App.js:133 | splitting a join of separator-free pieces gives back the pieces |
| `Text.SplitAfterPrefix` | src/App.js:133 | a separator-free prefix followed by the separator becomes the first piece |
| `Text.SplitWithoutSeparator` | src/App.js:133-134 | a string without the separator splits into itself alone |
| `Formatter.FormatOperand` | src/App.js:131-136 | absent in gives absent out, and present in gives present out |
| `Formatter.FormatWholeNumber` | src/App.js:133-134 | an operand without a point is grouped as a whole |
| `Formatter.FormatKeepsFraction` | src/App.js:133-135 | an operand with one point shows the grouped integer part, a point, and the fraction exactly as typed |
| `Formatter.FormatDropsAfterSecondPoint` | src/App.js:133-135 | with a second point, everything from it on is not shown |
| `Formatter.FormatExample` | src/App.js:131-136 | `"1234.5"` shows as `"1,234.5"` when `"1234"` groups as `"1,234"`; an absent operand shows nothing |
| `Sessions.Run` | src/App.js:139 | dispatching no actions keeps the state; a session can throw only if it dispatches add-digit `.` |
| `Sessions.RunAppend` | src/App.js:139 | dispatching two sequences in turn is dispatching their concatenation, and a throw ends the session |
| `Sessions.ClearResets` | src/App.js:62-63 | any session that ends with clear and has not thrown is back at `{}` |
| `Sessions.PairedStep` | src/App.js:35-96 | every action keeps "previous operand present" equivalent to "operation pending" |
| `Sessions.PairedRun` | src/App.js:35-96 | every session from a paired state, `{}` included, keeps that equivalence |
| `Sessions.EvaluateHasOnePoint` | src/App.js:102-125 | an evaluation result has at most one point when the arithmetic's text does |
| `Sessions.DropLastHasOnePoint` | src/App.js:79 | dropping the last character never adds a point |
| `Sessions.OnePointStep` | src/App.js:14-99 | every keypad action keeps both operands free of a second point |
| `Sessions.OnePointRun` | src/App.js:14-99 | every keypad session from `{}` keeps both operands free of a second point |
| `Scenarios.AddTwoNumbers` | src/App.js:14-96 | `5 + 3 =` passes through the states `{5}`, `{prev 5, +}`, `{3, prev 5, +}` and ends with the sum as current operand, `overwrite` set |
| `Scenarios.EnterFivePlusThree` | src/App.js:24-53 | the first three key presses of `5 + 3 =`, one state at a time |
| `Scenarios.EvaluateFivePlusThree` | src/App.js:81-96 | the `=` of `5 + 3 =` |
| `Scenarios.ChainDivision` | src/App.js:56-61 | choosing `+` with `3 ÷ 12` pending stores 3 ÷ 12 as the previous operand |
| `Scenarios.DivideByZero` | src/App.js:81-118 | `1 ÷ 0 =` goes through the arithmetic like any other division: no error path, and the arithmetic's text becomes the current operand |
| `Scenarios.SlashKeyGivesEmptyResult` | src/App.js:117-124 | `8 / 2 =` with `/` as the operation leaves `""` as the current operand |
| `Scenarios.PointWithoutOperandThrows` | src/App.js:27 | `.` at start-up, and `5 + .`, throw |

## Left out

- The `App` component is not modelled: the rendering, the `useReducer` wiring and
  the keypad markup. The `Run` of a sequence of dispatches stands in for
  `useReducer`.
- The evaluation counter and the "Hello World" message (`calcCount`,
  `showMessage`) are left out. They are view state kept outside the reducer.
- Evaluator.Evaluate: the floating-point arithmetic is not modelled. This
  covers `parseFloat`'s numeric value, the four IEEE operations, `Infinity` and
  `NaN`, and `toString`. The arithmetic is the parameter `arith`. Only the
  property that `toString` output has at most one decimal point is assumed
  (`Sessions.PrintsLikeNumbers`), and only by the invariant lemmas.
- Formatter.FormatOperand: the locale grouping of `Intl.NumberFormat` is not
  modelled. It is the parameter `group`.
- `DigitsButton`, `OperationButton` and the stylesheet are not part of this
  model. The model assumes a button dispatches its `digit` or `operation`
  unchanged.
- Payloads are assumed well formed. An add-digit action without `payload.digit`
  would put `undefined` into the operand. The model's `AddDigit` always carries
  a string.
- String length and `slice` count UTF-16 code units in JavaScript. Dafny counts
  Unicode scalar values. The two agree on every character the calculator
  produces (ASCII digits, signs, letters and the point).
- Calculator.Reducer: cannot tell a field that is `null` from one that is
  `undefined`. Both are `None`, because no branch of the source tells them
  apart.
