/**
 * The display form of a date, `2025年1月5日(日)`: the local calendar reading of a `Date` (year,
 * 0-based month, day of the month, 0-based weekday from Sunday) written with the Japanese
 * delimiters and the weekday's one-character name.
 */
module DateUtils {
  import opened JsStrings
  import opened Sorting

  /** What `getFullYear`, `getMonth`, `getDate` and `getDay` read from a `Date`. */
  datatype DisplayDate = DisplayDate(year: int, monthIndex: nat, day: nat, weekday: nat)

  /** The weekday names, Sunday first. */
  const Weekdays: seq<string> := ["日", "月", "火", "水", "木", "金", "土"]

  /** `formatDateForDisplay`: year, 1-based month and day, unpadded, then the weekday in brackets. */
  function FormatDateForDisplay(d: DisplayDate): (s: string)
    requires d.weekday < |Weekdays|
    ensures |s| > 0 && s[|s| - 1] == ')'
  {
    IntToDecimal(d.year) + "年" + MonthPart(d)
  }

  /** What follows 年: the 1-based month, 月 and the rest. */
  function MonthPart(d: DisplayDate): string
    requires d.weekday < |Weekdays|
  {
    NatToDecimal(d.monthIndex + 1) + "月" + DayPart(d)
  }

  /** What follows 月: the day, 日 and the bracketed weekday. */
  function DayPart(d: DisplayDate): string
    requires d.weekday < |Weekdays|
  {
    NatToDecimal(d.day) + "日" + "(" + Weekdays[d.weekday] + ")"
  }



  lemma {:induction false} IndexOfSeparator(a: string, r: string, sep: char)
    requires sep !in a
    ensures sep in a + [sep] + r && IndexOf(a + [sep] + r, sep) == |a|
  {
    var s := a + [sep] + r;
    assert s[|a|] == sep;
    if a != [] {
      assert s[0] == a[0] && s[1..] == a[1..] + [sep] + r;
      IndexOfSeparator(a[1..], r, sep);
    }
  }

  /** When two strings both continue past a separator their fronts lack, the fronts and the rests agree. */
  lemma SplitAtSeparator(a: string, ra: string, b: string, rb: string, sep: char)
    requires sep !in a && sep !in b && a + [sep] + ra == b + [sep] + rb
    ensures a == b && ra == rb
  {
    var s := a + [sep] + ra;
    IndexOfSeparator(a, ra, sep);
    IndexOfSeparator(b, rb, sep);
    assert a == s[..|a|] && b == s[..|b|];
    assert ra == s[|a| + 1..] && rb == s[|b| + 1..];
  }

  lemma IntToDecimalInjective(m: int, n: int)
    requires IntToDecimal(m) == IntToDecimal(n)
    ensures m == n
  {
    if m < 0 {
      assert IntToDecimal(m)[1..] == NatToDecimal(-m) && IntToDecimal(n)[1..] == NatToDecimal(-n);
      NatToDecimalInjective(-m, -n);
    } else {
      NatToDecimalInjective(m, n);
    }
  }

  /** A numeral holds no delimiter. */
  lemma NumeralFree(s: string, c: char)
    requires forall i :: 0 <= i < |s| ==> IsDigit(s[i]) || s[i] == '-'
    requires !IsDigit(c) && c != '-'
    ensures c !in s
  {
  }

  /** Different dates are displayed differently: the delimiters 年, 月 and 日 separate the numbers. */
  lemma FormatDateInjective(d: DisplayDate, e: DisplayDate)
    requires d.weekday < |Weekdays| && e.weekday < |Weekdays|
    requires FormatDateForDisplay(d) == FormatDateForDisplay(e)
    ensures d == e
  {
    YearNumeralFree(d.year);
    YearNumeralFree(e.year);
    SplitAtSeparator(IntToDecimal(d.year), MonthPart(d), IntToDecimal(e.year), MonthPart(e), '年');
    IntToDecimalInjective(d.year, e.year);
    NumeralFree(NatToDecimal(d.monthIndex + 1), '月');
    NumeralFree(NatToDecimal(e.monthIndex + 1), '月');
    SplitAtSeparator(NatToDecimal(d.monthIndex + 1), DayPart(d), NatToDecimal(e.monthIndex + 1), DayPart(e), '月');
    NatToDecimalInjective(d.monthIndex + 1, e.monthIndex + 1);
    DayPartInjective(d, e);
  }

  /** 年 does not occur in the year's numeral. */
  lemma YearNumeralFree(year: int)
    ensures '年' !in IntToDecimal(year)
  {
    var y := IntToDecimal(year);
    if year < 0 {
      assert y == "-" + NatToDecimal(-year);
      assert forall i :: 1 <= i < |y| ==> y[i] == NatToDecimal(-year)[i - 1];
    }
    NumeralFree(y, '年');
  }

  /** The day and the weekday are read back from what follows 月. */
  lemma DayPartInjective(d: DisplayDate, e: DisplayDate)
    requires d.weekday < |Weekdays| && e.weekday < |Weekdays|
    requires DayPart(d) == DayPart(e)
    ensures d.day == e.day && d.weekday == e.weekday
  {
    var t1 := "(" + Weekdays[d.weekday] + ")";
    var t2 := "(" + Weekdays[e.weekday] + ")";
    assert DayPart(d) == NatToDecimal(d.day) + ['日'] + t1;
    assert DayPart(e) == NatToDecimal(e.day) + ['日'] + t2;
    NumeralFree(NatToDecimal(d.day), '日');
    NumeralFree(NatToDecimal(e.day), '日');
    SplitAtSeparator(NatToDecimal(d.day), t1, NatToDecimal(e.day), t2, '日');
    NatToDecimalInjective(d.day, e.day);
    assert t1[1] == Weekdays[d.weekday][0] && t2[1] == Weekdays[e.weekday][0];
  }

  /** The first of January 2025, a Wednesday, displays without zero padding. */
  lemma FormatDateExample()
    ensures FormatDateForDisplay(DisplayDate(2025, 0, 1, 3)) == "2025年1月1日(水)"
  {
    assert NatToDecimal(2025) == "2025" by {
      assert NatToDecimal(202) == "202" by {
        assert NatToDecimal(20) == "20";
      }
    }
  }
}
