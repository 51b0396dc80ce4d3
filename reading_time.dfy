/** How a blog card or post page shows a reading time. The minutes are an
    integer or missing: fractional minutes and `NaN` are not modelled. */
module ReadingTime {
  import opened Js

  const Suffix := " min read"

  /** `formatReadingTime(minutes)`: `None` is `null` or `undefined`. */
  function FormatReadingTime(minutes: Option<int>): (r: string)
    ensures r == "" <==> minutes.None? || minutes.value == 0
    ensures r != "" ==> |r| > |Suffix| && r[|r| - |Suffix|..] == Suffix
    ensures minutes.Some? && minutes.value != 0 ==> r == IntToString(minutes.value) + Suffix
  {
    if minutes.None? || minutes.value == 0 then ""
    else if minutes.value == 1 then "1 min read"
    else IntToString(minutes.value) + Suffix
  }

  /** The special case for one minute says what the general case would:
      the number is followed by " min read". */
  lemma OneMinuteIsGeneral()
    ensures FormatReadingTime(Some(1)) == IntToString(1) + Suffix
  {
  }

  /** A positive number of minutes is written as its decimal digits, which
      read back as the same number. */
  lemma PositiveMinutesReadBack(n: nat)
    requires n > 0
    ensures var r := FormatReadingTime(Some(n));
      var digits := r[..|r| - |Suffix|];
      && digits == NatToString(n)
      && ParseDigits(digits) == n
  {
    ParseNatToString(n);
  }

  /** Different minute counts, negative ones included, give different
      texts. */
  lemma FormatInjective(m: int, n: int)
    requires m != 0 && n != 0 && m != n
    ensures FormatReadingTime(Some(m)) != FormatReadingTime(Some(n))
  {
    var rm, rn := FormatReadingTime(Some(m)), FormatReadingTime(Some(n));
    if rm == rn {
      var dm, dn := rm[..|rm| - |Suffix|], rn[..|rn| - |Suffix|];
      assert dm == IntToString(m) && dn == IntToString(n);
      if m > 0 && n > 0 {
        NatToStringInjective(m, n);
      } else if m < 0 && n < 0 {
        assert dm[1..] == NatToString(-m) && dn[1..] == NatToString(-n);
        NatToStringInjective(-m, -n);
      }
    }
  }
}
