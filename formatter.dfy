/** The calculator's `formatOperand`: group the integer part for display and put the
    fractional part back unchanged.

    The grouping itself is `Intl.NumberFormat("en-us", { maximumFractionDigits: 0 }).format`,
    whose behaviour lives in the host's locale library; here it is a `Grouping` parameter. */
module Formatter {
  import opened Optional
  import opened Text

  /** What the integer formatter makes of the integer part's text. */
  type Grouping = string -> string

  /** `formatOperand(operand)`: nothing for an absent operand; otherwise the operand is split on
      `"."`, only the first two pieces are kept (`const [integer, decimal] = ...`), the first is
      grouped, and the second, when there is one, is reattached after a point. */
  function FormatOperand(operand: Option<string>, group: Grouping): (r: Option<string>)
    ensures r.None? <==> operand.None?
  {
    match operand
    case None => None
    case Some(s) =>
      var parts := Split(s, '.');
      var integer := parts[0];
      if |parts| < 2 then Some(group(integer))
      else Some(group(integer) + "." + parts[1])
  }

  /** An operand without a point is grouped as a whole. */
  lemma FormatWholeNumber(s: string, group: Grouping)
    requires '.' !in s
    ensures FormatOperand(Some(s), group) == Some(group(s))
  {
    SplitWithoutSeparator(s, '.');
  }

  /** An operand with one point shows the grouped integer part, a point, and the fraction
      exactly as it was typed: nothing of the fraction is rounded or dropped. */
  lemma FormatKeepsFraction(integer: string, fraction: string, group: Grouping)
    requires '.' !in integer && '.' !in fraction
    ensures FormatOperand(Some(integer + "." + fraction), group) == Some(group(integer) + "." + fraction)
  {
    SplitAfterPrefix(integer, fraction, '.');
    SplitWithoutSeparator(fraction, '.');
  }

  /** With a second point, everything from that point on is not displayed. */
  lemma FormatDropsAfterSecondPoint(integer: string, fraction: string, rest: string, group: Grouping)
    requires '.' !in integer && '.' !in fraction
    ensures FormatOperand(Some(integer + "." + fraction + "." + rest), group) ==
              Some(group(integer) + "." + fraction)
  {
    SplitAfterPrefix(integer, fraction + "." + rest, '.');
    SplitAfterPrefix(fraction, rest, '.');
    assert integer + "." + fraction + "." + rest == integer + ['.'] + (fraction + ['.'] + rest);
  }

  /** "1234.5" displays as "1,234.5" when the integer formatter groups "1234" as "1,234". */
  lemma FormatExample(group: Grouping)
    requires group("1234") == "1,234"
    ensures FormatOperand(Some("1234.5"), group) == Some("1,234.5")
    ensures FormatOperand(None, group) == None
  {
    var integer, fraction := "1234", "5";
    assert integer + "." + fraction == "1234.5";
    assert group(integer) + "." + fraction == "1,234.5";
    FormatKeepsFraction(integer, fraction, group);
  }
}
