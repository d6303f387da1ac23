/** The schedule the debt service stores with a debt (saveAmortization), and the dates it is computed from. */
module DebtSchedules {
  import opened Common
  import opened Rounding
  import opened ReferenceMonth
  import opened Amortization
  import opened AmortizationDrift

  // ---------------------------------------------------------------- dates

  datatype Date = Date(month: YearMonth, day: nat)

  predicate LeapYear(y: nat) {
    y % 4 == 0 && (y % 100 != 0 || y % 400 == 0)
  }

  function DaysIn(m: YearMonth): (days: nat)
    ensures 28 <= days <= 31
  {
    if m.month == 2 then (if LeapYear(m.year) then 29 else 28)
    else if m.month in [4, 6, 9, 11] then 30
    else 31
  }

  predicate ValidDate(d: Date) {
    d.month.Valid() && 1 <= d.day <= DaysIn(d.month)
  }

  /** time.Parse with layout "2006-01-02". */
  function ParseDate(s: string): (r: Option<Date>)
    ensures r.Some? ==> ValidDate(r.value)
  {
    if |s| == 10 && s[7] == '-' && IsDigit(s[8]) && IsDigit(s[9]) && ParseMonth(s[..7]).Some? then
      var d := Date(ParseMonth(s[..7]).value, 10 * DigitOf(s[8]) + DigitOf(s[9]));
      if ValidDate(d) then Some(d) else None
    else
      None
  }

  function FormatDate(d: Date): string
    requires ValidDate(d)
  {
    FormatMonth(d.month.year, d.month.month) + "-" + [DigitChar(d.day / 10), DigitChar(d.day % 10)]
  }

  /** The months make up a year of 365 days, or 366 in leap years: every fourth, but of the centuries only every fourth.
      February is the short one. */
  lemma CalendarYear(y: nat)
    ensures
      var leap := y % 400 == 0 || (y % 4 == 0 && y % 100 != 0);
      && DaysIn(YearMonth(y, 1)) + DaysIn(YearMonth(y, 2)) + DaysIn(YearMonth(y, 3)) + DaysIn(YearMonth(y, 4))
         + DaysIn(YearMonth(y, 5)) + DaysIn(YearMonth(y, 6)) + DaysIn(YearMonth(y, 7)) + DaysIn(YearMonth(y, 8))
         + DaysIn(YearMonth(y, 9)) + DaysIn(YearMonth(y, 10)) + DaysIn(YearMonth(y, 11)) + DaysIn(YearMonth(y, 12))
         == (if leap then 366 else 365)
      && DaysIn(YearMonth(y, 2)) < 30
      && forall m :: m in {4, 6, 9, 11} ==> DaysIn(YearMonth(y, m)) == 30
  {
  }

  /** A text is a date only if it is one written with that layout. */
  lemma OnlyDatesParse(s: string)
    requires ParseDate(s).Some?
    ensures FormatDate(ParseDate(s).value) == s
  {
    var d := ParseDate(s).value;
    MonthWritten(s[..7]);
    assert s == s[..7] + "-" + [s[8], s[9]];
    DigitsBack(s[8], s[9]);
  }

  lemma MonthWritten(s: string)
    requires ParseMonth(s).Some?
    ensures FormatMonth(ParseMonth(s).value.year, ParseMonth(s).value.month) == s
  {
    var ym := ParseMonth(s).value;
    var t := FormatMonth(ym.year, ym.month);
    YearDigits(DigitOf(s[0]), DigitOf(s[1]), DigitOf(s[2]), DigitOf(s[3]));
    DigitsBack(s[5], s[6]);
    DigitBack(s[0]);
    DigitBack(s[1]);
    DigitBack(s[2]);
    DigitBack(s[3]);
    assert |t| == |s| == 7 && forall k :: 0 <= k < 7 ==> t[k] == s[k];
  }

  lemma YearDigits(a: nat, b: nat, c: nat, d: nat)
    requires a < 10 && b < 10 && c < 10 && d < 10
    ensures
      var y := 1000 * a + 100 * b + 10 * c + d;
      y / 1000 == a && y / 100 % 10 == b && y / 10 % 10 == c && y % 10 == d
  {
    var y := 1000 * a + 100 * b + 10 * c + d;
    assert y / 10 == 100 * a + 10 * b + c;
    assert y / 100 == 10 * a + b;
  }

  lemma DigitBack(c: char)
    requires IsDigit(c)
    ensures DigitChar(DigitOf(c)) == c
  {
  }

  lemma DigitsBack(a: char, b: char)
    requires IsDigit(a) && IsDigit(b)
    ensures
      var n := 10 * DigitOf(a) + DigitOf(b);
      DigitChar(n / 10) == a && DigitChar(n % 10) == b
  {
  }

  /** A date written with that layout, as the repository hands it back, always parses to itself. */
  lemma DateRoundTrip(d: Date)
    requires ValidDate(d)
    ensures ParseDate(FormatDate(d)) == Some(d)
  {
    FormatThenParse(d.month);
    assert FormatDate(d)[..7] == FormatMonth(d.month.year, d.month.month);
  }

  datatype Error = InvalidDate

  /** Calendar months from one date to the other, but at least one; the days do not matter. */
  function MonthsBetween(start: string, end: string): (r: Result<int, Error>)
    ensures r.Err? <==> ParseDate(start).None? || ParseDate(end).None?
    ensures r.Ok? ==>
      var apart := MonthIndex(ParseDate(end).value.month) - MonthIndex(ParseDate(start).value.month);
      r.value >= 1 && r.value >= apart && (r.value == 1 || r.value == apart)
  {
    var startDate, endDate := ParseDate(start), ParseDate(end);
    if startDate.None? || endDate.None? then Err(InvalidDate)
    else
      var a, b := startDate.value.month, endDate.value.month;
      var months := (b.year - a.year) * 12 + (b.month - a.month);
      Ok(if months < 1 then 1 else months)
  }

  /** Swapping the dates never gives both more than one month, and an end one month later is a month more unless both
      are clamped. */
  lemma MonthsBetweenCounts(a: string, b: string, later: string)
    requires ParseDate(a).Some? && ParseDate(b).Some? && ParseDate(later).Some?
    requires MonthIndex(ParseDate(later).value.month) == MonthIndex(ParseDate(b).value.month) + 1
    ensures MonthsBetween(a, b).value == 1 || MonthsBetween(b, a).value == 1
    ensures
      var n, n' := MonthsBetween(a, b).value, MonthsBetween(a, later).value;
      n' == n + 1 || n == n' == 1
  {
  }

  // ---------------------------------------------------------------- the stored schedule

  /** The schedule of a fixed payment, with its totals. */
  function ScheduleOf(total: int, rate: int, payment: int, n: int): Schedule {
    var rows := Rows(1, n, total, MonthlyRate(rate), payment);
    Schedule(total, payment, rate, |rows|, SumInterest(rows), total + SumInterest(rows), rows)
  }

  /** What is to be stored for a debt: nothing without a rate, both dates and a payment of at least one cent. */
  function Plan(total: int, rate: int, start: string, end: string): Result<Option<Schedule>, Error> {
    if rate <= 0 || end == "" || start == "" then Ok(None)
    else match MonthsBetween(start, end)
      case Err(e) => Err(e)
      case Ok(n) =>
        var payment := ComputeMonthlyPayment(total, rate, n);
        if payment <= 0 then Ok(None) else Ok(Some(ScheduleOf(total, rate, payment, n)))
  }

  /** saveAmortization up to the write; without a repository it does nothing. */
  method SaveAmortization(total: int, rate: int, start: string, end: string, repository: bool)
    returns (r: Result<Option<Schedule>, Error>)
    ensures r == if repository then Plan(total, rate, start, end) else Ok(None)
  {
    if !repository { return Ok(None); }
    if rate <= 0 || end == "" || start == "" { return Ok(None); }
    var months := MonthsBetween(start, end);
    if months.Err? { return Err(months.error); }
    var monthlyPayment := ComputeMonthlyPayment(total, rate, months.value);
    if monthlyPayment <= 0 { return Ok(None); }
    var schedule := CalculateAmortization(total, rate, monthlyPayment, months.value);
    return Ok(Some(schedule));
  }

  /** A stored schedule is that of the rounded annuity payment over the months between the dates: it leaves at most
      ((1+r)^n - 1)/r cents unpaid, reports loan plus interest as total paid, and unless the first payment fails to
      cover its interest by half a cent, its principals and that rest make up the loan. */
  lemma PlanPaysOff(total: int, rate: int, start: string, end: string)
    requires total > 0 && Plan(total, rate, start, end).Ok? && Plan(total, rate, start, end).value.Some?
    ensures rate > 0 && MonthsBetween(start, end).Ok?
    ensures
      var s, n, r := Plan(total, rate, start, end).value.value, MonthsBetween(start, end).value, MonthlyRate(rate);
      && r > 0.0 && s.monthlyPayment == ComputeMonthlyPayment(total, rate, n) > 0
      && s.remainingMonths == |s.entries| <= n
      && s.totalAmount == total && s.interestRate == rate && s.totalInterest == SumInterest(s.entries)
      && IsSchedule(s.entries, total, rate, s.monthlyPayment, n)
      && 0.0 <= LastBalance(total, s.entries) as real <= (Pow(1.0 + r, n) - 1.0) / r
      && s.totalPaid == total + SumInterest(s.entries)
      && (NoTooSmallRow(s.entries) <==> CoversInterest(total, r, s.monthlyPayment))
      && (NoTooSmallRow(s.entries) ==> SumPrincipal(s.entries) + LastBalance(total, s.entries) == total)
  {
    var n := MonthsBetween(start, end).value;
    StoredSchedule(total, rate, ComputeMonthlyPayment(total, rate, n), n);
    RowsAreSchedule(n, total, rate, ComputeMonthlyPayment(total, rate, n));
  }

  /** When there is a schedule to store: with a positive rate and both dates it fails exactly when one of them is no
      date, and stores nothing exactly when the payment is less than a cent; otherwise it neither fails nor stores. */
  lemma PlanExactly(total: int, rate: int, start: string, end: string)
    ensures
      var plan, wanted := Plan(total, rate, start, end), rate > 0 && start != "" && end != "";
      && (plan.Err? <==> wanted && (ParseDate(start).None? || ParseDate(end).None?))
      && (plan.Ok? && plan.value.Some? <==>
            wanted && MonthsBetween(start, end).Ok?
            && ComputeMonthlyPayment(total, rate, MonthsBetween(start, end).value) >= 1)
  {
  }

  lemma StoredSchedule(total: int, rate: int, payment: int, n: nat)
    requires total > 0 && rate > 0 && n >= 1 && payment == ComputeMonthlyPayment(total, rate, n)
    ensures
      var r := MonthlyRate(rate);
      var rows := Rows(1, n, total, r, payment);
      && r > 0.0 && |rows| <= n
      && 0.0 <= LastBalance(total, rows) as real <= (Pow(1.0 + r, n) - 1.0) / r
      && (NoTooSmallRow(rows) <==> CoversInterest(total, r, payment))
      && (NoTooSmallRow(rows) ==> SumPrincipal(rows) + LastBalance(total, rows) == total)
  {
    var r := MonthlyRate(rate);
    FinalBalanceBounded(total, rate, n);
    TooSmallDecidedByFirstMonth(n, total, r, payment);
    RowsFit(1, n, total, r, payment);
    if NoTooSmallRow(Rows(1, n, total, r, payment)) {
      PrincipalsConserveLoan(1, n, total, r, payment);
    }
  }

  lemma {:induction false} RowsFit(i: int, months: int, balance: int, r: real, payment: int)
    requires i <= months + 1
    ensures |Rows(i, months, balance, r, payment)| <= months + 1 - i
    decreases months - i
  {
    if i <= months && balance > 0 {
      RowsFit(i + 1, months, Row(i, balance, Interest(balance, r), payment).balance, r, payment);
    }
  }

  /** At ten percent a month over three months the payment for one cent rounds to nothing, for a thousand not. */
  lemma TenPercentOverThreeMonths()
    ensures ComputeMonthlyPayment(1, 12000, 3) == 0 && ComputeMonthlyPayment(1000, 12000, 3) > 0
  {
    var r := MonthlyRate(12000);
    assert r == 0.1;
    var p := Pow(1.0 + r, 3);
    assert p == 1.331 by { assert Pow(1.1, 1) == 1.1 && Pow(1.1, 2) == 1.21; }
    assert Annuity(1.0, r, p) == 0.1331 / 0.331 && Annuity(1000.0, r, p) == 133.1 / 0.331;
    assert 0.0 < 0.1331 / 0.331 < 0.5 < 133.1 / 0.331;
  }

  lemma JanuaryToApril()
    ensures MonthsBetween("2024-01-01", "2024-04-01") == Ok(3)
  {
    var start, end := Date(YearMonth(2024, 1), 1), Date(YearMonth(2024, 4), 1);
    assert FormatDate(start) == "2024-01-01" && FormatDate(end) == "2024-04-01";
    DateRoundTrip(start);
    DateRoundTrip(end);
  }
}
