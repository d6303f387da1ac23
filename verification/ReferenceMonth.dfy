/** Invoice reference months: the strings the service keeps in YYYY-MM form (strings stand for byte strings). */
module ReferenceMonth {
  import opened Common

  predicate IsDigit(c: char) {
    '0' <= c <= '9'
  }

  function DigitOf(c: char): (d: nat)
    requires IsDigit(c)
    ensures d < 10
  {
    c as int - '0' as int
  }

  function DigitChar(d: nat): (c: char)
    requires d < 10
    ensures IsDigit(c) && DigitOf(c) == d
  {
    ('0' as int + d) as char
  }

  /** Byte-wise order of strings, as Go compares them. */
  predicate StringLe(a: string, b: string) {
    if a == [] then true
    else if b == [] then false
    else if a[0] != b[0] then a[0] < b[0]
    else StringLe(a[1..], b[1..])
  }

  /** "2000" <= y <= "2100" as text, character by character. */
  predicate YearInRange(y0: char, y1: char, y2: char, y3: char) {
    && y0 == '2'
    && (if y1 == '0' then y2 > '0' || (y2 == '0' && y3 >= '0')
        else y1 == '1' && (y2 < '0' || (y2 == '0' && y3 <= '0')))
  }

  /** "01" <= m <= "12" as text, for digits. */
  predicate MonthInRange(m0: char, m1: char) {
    if m0 == '0' then m1 >= '1' else m0 == '1' && m1 <= '2'
  }

  /** isValidMonth: the year is only compared as text, so its characters need not be digits. */
  predicate IsValidMonth(month: string) {
    && |month| == 7
    && month[4] == '-'
    && YearInRange(month[0], month[1], month[2], month[3])
    && IsDigit(month[5]) && IsDigit(month[6])
    && MonthInRange(month[5], month[6])
  }

  lemma {:induction false} StringLeCons(a: char, x: string, b: char, y: string)
    ensures StringLe([a] + x, [b] + y) <==> a < b || (a == b && StringLe(x, y))
  {
    assert ([a] + x)[1..] == x && ([b] + y)[1..] == y;
  }

  /** The character comparisons amount to the string comparisons of the source. */
  lemma RangesAreStringOrder(y: string, m: string)
    requires |y| == 4 && |m| == 2
    ensures StringLe("2000", y) && StringLe(y, "2100") <==> YearInRange(y[0], y[1], y[2], y[3])
    ensures IsDigit(m[0]) && IsDigit(m[1]) ==> (StringLe("01", m) && StringLe(m, "12") <==> MonthInRange(m[0], m[1]))
  {
    YearIsStringOrder(y);
    var m1: string := [m[1]];
    assert m == [m[0]] + m1 && m1 == [m[1]] + "";
    assert "01" == ['0'] + "1" && "12" == ['1'] + "2" && "1" == ['1'] + "" && "2" == ['2'] + "";
    StringLeCons('0', "1", m[0], m1);
    StringLeCons('1', "", m[1], "");
    StringLeCons(m[0], m1, '1', "2");
    StringLeCons(m[1], "", '2', "");
  }

  lemma YearIsStringOrder(y: string)
    requires |y| == 4
    ensures StringLe("2000", y) && StringLe(y, "2100") <==> YearInRange(y[0], y[1], y[2], y[3])
  {
    var y3: string := [y[3]];
    var y2, y1 := [y[2]] + y3, [y[1]] + ([y[2]] + y3);
    assert y == [y[0]] + y1 && y3 == [y[3]] + "";
    assert "2000" == ['2'] + "000" && "000" == ['0'] + "00" && "00" == ['0'] + "0" && "0" == ['0'] + "";
    assert "2100" == ['2'] + "100" && "100" == ['1'] + "00";
    StringLeCons('2', "000", y[0], y1);
    StringLeCons('0', "00", y[1], y2);
    StringLeCons('0', "0", y[2], y3);
    StringLeCons('0', "", y[3], "");
    StringLeCons(y[0], y1, '2', "100");
    StringLeCons(y[1], y2, '1', "00");
    StringLeCons(y[2], y3, '0', "0");
    StringLeCons(y[3], "", '0', "");
  }

  datatype YearMonth = YearMonth(year: nat, month: nat) {
    predicate Valid() {
      year < 10000 && 1 <= month <= 12
    }
  }

  /** time.Parse with layout "2006-01". */
  function ParseMonth(s: string): (r: Option<YearMonth>)
    ensures r.Some? ==> r.value.Valid()
  {
    if |s| == 7 && s[4] == '-' && IsDigit(s[0]) && IsDigit(s[1]) && IsDigit(s[2]) && IsDigit(s[3])
       && IsDigit(s[5]) && IsDigit(s[6]) && 1 <= 10 * DigitOf(s[5]) + DigitOf(s[6]) <= 12 then
      Some(YearMonth(1000 * DigitOf(s[0]) + 100 * DigitOf(s[1]) + 10 * DigitOf(s[2]) + DigitOf(s[3]),
                     10 * DigitOf(s[5]) + DigitOf(s[6])))
    else
      None
  }

  function FormatMonth(y: nat, m: nat): string
    requires y <= 10000 && m < 100
  {
    (if y == 10000 then "10000"
     else [DigitChar(y / 1000), DigitChar(y / 100 % 10), DigitChar(y / 10 % 10), DigitChar(y % 10)])
    + "-" + [DigitChar(m / 10), DigitChar(m % 10)]
  }

  /** nextReferenceMonth: an unparsable month is returned unchanged. */
  function NextReferenceMonth(current: string): string {
    match ParseMonth(current)
    case None => current
    case Some(ym) =>
      if ym.month == 12 then FormatMonth(ym.year + 1, 1) else FormatMonth(ym.year, ym.month + 1)
  }

  /** Months counted from year zero. */
  function MonthIndex(ym: YearMonth): nat
    requires ym.Valid()
  {
    12 * ym.year + ym.month - 1
  }

  lemma DigitsOfYear(y: nat)
    requires y < 10000
    ensures y == 1000 * (y / 1000) + 100 * (y / 100 % 10) + 10 * (y / 10 % 10) + y % 10
    ensures y / 1000 < 10
  {
    assert y == 10 * (y / 10) + y % 10;
    assert y / 10 == 10 * (y / 100) + y / 10 % 10;
    assert y / 100 == 10 * (y / 1000) + y / 100 % 10;
  }

  /** Formatting then parsing gives back the month. */
  lemma FormatThenParse(ym: YearMonth)
    requires ym.Valid()
    ensures ParseMonth(FormatMonth(ym.year, ym.month)) == Some(ym)
  {
    DigitsOfYear(ym.year);
    var s := FormatMonth(ym.year, ym.month);
    assert |s| == 7 && s[4] == '-';
    assert DigitOf(s[5]) == ym.month / 10 && DigitOf(s[6]) == ym.month % 10;
  }

  predicate DigitYear(month: string)
    requires |month| == 7
  {
    IsDigit(month[0]) && IsDigit(month[1]) && IsDigit(month[2]) && IsDigit(month[3])
  }

  lemma ValidMonthParses(month: string)
    requires IsValidMonth(month)
    ensures ParseMonth(month).Some? <==> DigitYear(month)
    ensures ParseMonth(month).Some? ==> 2000 <= ParseMonth(month).value.year <= 2100
  {
  }

  /** For every accepted month: the next month is one later on the calendar exactly when the year is made of
      digits; otherwise the month is its own successor. */
  lemma NextMonthIsOneLater(month: string)
    requires IsValidMonth(month)
    ensures DigitYear(month) ==>
      && ParseMonth(month).Some? && ParseMonth(NextReferenceMonth(month)).Some?
      && MonthIndex(ParseMonth(NextReferenceMonth(month)).value) == MonthIndex(ParseMonth(month).value) + 1
    ensures DigitYear(month) <==> NextReferenceMonth(month) != month
  {
    ValidMonthParses(month);
    if DigitYear(month) {
      var ym := ParseMonth(month).value;
      var next := if ym.month == 12 then YearMonth(ym.year + 1, 1) else YearMonth(ym.year, ym.month + 1);
      FormatThenParse(next);
    }
  }

  /** A month that passes validation and never advances. */
  lemma StuckMonthExists()
    ensures IsValidMonth("20x4-05") && NextReferenceMonth("20x4-05") == "20x4-05"
  {
    assert !IsDigit("20x4-05"[2]);
  }
}
