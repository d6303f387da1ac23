/** Loan amortization (debt-svc): the fixed payment, and the month-by-month schedule with cents rounding. */
module Amortization {
  import opened Common
  import opened Rounding

  datatype Entry = Entry(month: int, principal: int, interest: int, balance: int, totalPayment: int)

  datatype Schedule = Schedule(
    totalAmount: int, monthlyPayment: int, interestRate: int,
    remainingMonths: int, totalInterest: int, totalPaid: int, entries: seq<Entry>)

  /** Annual percentage times 100, as a monthly fraction. */
  function MonthlyRate(annual: int): real {
    annual as real / 10000.0 / 12.0
  }

  // ---------------------------------------------------------------- the schedule as a function

  function Interest(balance: int, r: real): real {
    balance as real * r
  }

  /** The row written in month i for a positive balance of whole cents bearing the given interest. */
  function Row(i: int, balance: int, interest: real, payment: int): Entry {
    var principal := Round(payment as real - interest);
    if principal <= 0 then
      Entry(i, 0, balance, 0, balance)
    else if principal >= balance then
      Entry(i, balance, Round(interest), 0, balance + Round(interest))
    else
      Entry(i, principal, Round(interest), balance - principal, principal + Round(interest))
  }

  /** The rows of months i, i + 1, ..., months, stopping once the balance is gone. */
  function Rows(i: int, months: int, balance: int, r: real, payment: int): (rows: seq<Entry>)
    decreases months - i
  {
    if i > months || balance <= 0 then []
    else
      var row := Row(i, balance, Interest(balance, r), payment);
      [row] + Rows(i + 1, months, row.balance, r, payment)
  }

  function SumPrincipal(rows: seq<Entry>): int {
    if rows == [] then 0 else rows[0].principal + SumPrincipal(rows[1..])
  }

  function SumInterest(rows: seq<Entry>): int {
    if rows == [] then 0 else rows[0].interest + SumInterest(rows[1..])
  }

  function SumPayments(rows: seq<Entry>): int {
    if rows == [] then 0 else rows[0].totalPayment + SumPayments(rows[1..])
  }

  /** What is still owed after the last row (the whole loan when there is no row). */
  function LastBalance(total: int, rows: seq<Entry>): int {
    if rows == [] then total else rows[|rows| - 1].balance
  }

  lemma {:induction false} SumInterestAppend(rows: seq<Entry>, e: Entry)
    ensures SumInterest(rows + [e]) == SumInterest(rows) + e.interest
  {
    if rows == [] {
      assert rows + [e] == [e];
    } else {
      assert (rows + [e])[1..] == rows[1..] + [e];
      SumInterestAppend(rows[1..], e);
    }
  }

  /** Moving the next row from the schedule still to come to the rows already written. */
  lemma RowsStep(done: seq<Entry>, i: int, months: int, balance: int, r: real, payment: int)
    requires i <= months && balance > 0
    ensures
      var row := Row(i, balance, Interest(balance, r), payment);
      done + Rows(i, months, balance, r, payment) == done + [row] + Rows(i + 1, months, row.balance, r, payment)
  {
  }

  // ---------------------------------------------------------------- the schedule in whole numbers

  /** x is n times 120000 to the nearest whole n: 120000 is twelve months times ten thousand, what an annual percentage
      times 100 has to be divided by to be a monthly fraction. Halves go up where x is not negative. */
  predicate Nearest(x: int, n: int) {
    -60000 <= x - 120000 * n <= 60000 && (x >= 0 ==> x - 120000 * n < 60000)
  }

  /** What a month owes, in integers and without any of the functions above: b is the opening balance and rate the
      annual percentage times 100, so b * rate is the month's interest and payment * 120000 - b * rate its principal,
      times 120000. Less than half a cent of principal books the whole balance as interest; principal that reaches the
      balance closes the loan; either way the interest of a row with principal is the month's, rounded. */
  predicate IsMonth(e: Entry, i: int, b: int, rate: int, payment: int) {
    && e.month == i && e.totalPayment == e.principal + e.interest
    && var left := 120000 * payment - b * rate;
    && if left < 60000 then e.principal == 0 && e.interest == b && e.balance == 0
       else
         && Nearest(b * rate, e.interest)
         && e.balance == b - e.principal
         && if left >= 120000 * b - 60000 then e.principal == b else Nearest(left, e.principal)
  }

  function Opening(rows: seq<Entry>, total: int, k: nat): int
    requires k < |rows|
  {
    if k == 0 then total else rows[k - 1].balance
  }

  /** A schedule: month after month on what the month before left, until nothing is left or the months are over. */
  predicate IsSchedule(rows: seq<Entry>, total: int, rate: int, payment: int, months: int) {
    && (forall k :: 0 <= k < |rows| ==>
          Opening(rows, total, k) > 0 && IsMonth(rows[k], k + 1, Opening(rows, total, k), rate, payment))
    && |rows| <= (if months < 0 then 0 else months)
    && (|rows| < months ==> LastBalance(total, rows) <= 0)
  }

  lemma InterestScaled(balance: int, rate: int)
    ensures 120000.0 * Interest(balance, MonthlyRate(rate)) == (balance * rate) as real
  {
    var b, r := balance as real, rate as real;
    assert b * r == (balance * rate) as real;
    assert 120000.0 * (r / 10000.0 / 12.0) == r;
    Scale(b, r / 10000.0 / 12.0, r);
  }

  lemma Scale(b: real, m: real, r: real)
    requires 120000.0 * m == r
    ensures 120000.0 * (b * m) == b * r
  {
  }

  lemma RoundScaled(x: real, n: int)
    requires 120000.0 * x == n as real
    ensures Nearest(n, Round(x))
    ensures Round(x) >= 1 <==> n >= 60000
    ensures forall b: int :: b > 0 ==> (Round(x) >= b <==> n >= 120000 * b - 60000)
  {
  }

  lemma RowIsMonth(i: int, b: int, rate: int, payment: int)
    requires b > 0
    ensures IsMonth(Row(i, b, Interest(b, MonthlyRate(rate)), payment), i, b, rate, payment)
  {
    var interest := Interest(b, MonthlyRate(rate));
    InterestScaled(b, rate);
    RoundScaled(interest, b * rate);
    RoundScaled(payment as real - interest, 120000 * payment - b * rate);
  }

  /** The rows of the schedule function are one in that sense. */
  lemma RowsAreSchedule(months: int, total: int, rate: int, payment: int)
    ensures IsSchedule(Rows(1, months, total, MonthlyRate(rate), payment), total, rate, payment, months)
  {
    var r := MonthlyRate(rate);
    var rows := Rows(1, months, total, r, payment);
    forall k | 0 <= k < |rows|
      ensures Opening(rows, total, k) > 0 && IsMonth(rows[k], k + 1, Opening(rows, total, k), rate, payment)
    {
      RowsSuffix(1, months, total, r, payment, k);
      RowIsMonth(1 + k, Opening(rows, total, k), rate, payment);
    }
    RowsEnd(1, months, total, r, payment);
  }

  lemma {:induction false} RowsEnd(i: int, months: int, balance: int, r: real, payment: int)
    ensures
      var rows := Rows(i, months, balance, r, payment);
      && |rows| <= (if months < i then 0 else months + 1 - i)
      && (|rows| < months + 1 - i ==> LastBalance(balance, rows) <= 0)
    decreases months - i
  {
    if i <= months && balance > 0 {
      RowsEnd(i + 1, months, Row(i, balance, Interest(balance, r), payment).balance, r, payment);
    }
  }

  // ---------------------------------------------------------------- the two operations

  /** The body of the loop for one month, on a real-valued balance that is a whole number of cents. */
  method PayMonth(i: int, balance: real, monthlyRate: real, monthlyPayment: int, ghost cents: int)
    returns (entry: Entry, left: real)
    requires balance == cents as real && cents > 0
    ensures entry == Row(i, cents, Interest(cents, monthlyRate), monthlyPayment)
    ensures left == entry.balance as real
  {
    var interest := balance * monthlyRate;
    assert interest == Interest(cents, monthlyRate);
    var principal := monthlyPayment as real - interest;
    var principalCents := Round(principal);
    var interestCents := Round(interest);
    if principalCents <= 0 {
      principalCents := 0;
      interestCents := Round(balance);
      left := 0.0;
    } else if principalCents as real >= balance {
      principalCents := Round(balance);
      interestCents := Round(balance * monthlyRate);
      left := 0.0;
    } else {
      left := balance - principalCents as real;
    }
    entry := Entry(i, principalCents, interestCents, Round(left), principalCents + interestCents);
  }

  /** The loop of the source, on a real-valued balance: it stays a whole number of cents and
      writes exactly the rows of `Rows`. A negative `months` panics in the source (negative capacity). */
  method CalculateAmortization(totalAmount: int, interestRate: int, monthlyPayment: int, months: int)
    returns (s: Schedule)
    requires months >= 0
    ensures s.entries == Rows(1, months, totalAmount, MonthlyRate(interestRate), monthlyPayment)
    ensures IsSchedule(s.entries, totalAmount, interestRate, monthlyPayment, months)
    ensures s.totalInterest == SumInterest(s.entries)
    ensures s.totalPaid == totalAmount + s.totalInterest
    ensures s.remainingMonths == |s.entries|
    ensures s.totalAmount == totalAmount && s.monthlyPayment == monthlyPayment && s.interestRate == interestRate
  {
    var monthlyRate := MonthlyRate(interestRate);
    var entries: seq<Entry> := [];
    var balance := totalAmount as real;
    var totalInterest := 0.0;
    ghost var cents := totalAmount;
    var i := 1;
    while i <= months && balance > 0.01
      invariant 1 <= i <= months + 1
      invariant balance == cents as real
      invariant Written(entries, i, months, cents, monthlyRate, monthlyPayment, totalAmount)
      invariant totalInterest == SumInterest(entries) as real
      decreases months - i
    {
      var entry;
      ghost var was := cents;
      entry, balance := PayMonth(i, balance, monthlyRate, monthlyPayment, cents);
      cents := entry.balance;
      WriteRow(entries, i, months, was, monthlyRate, monthlyPayment, totalAmount, entry);
      totalInterest := totalInterest + entry.interest as real;
      entries := entries + [entry];
      i := i + 1;
    }
    assert Rows(i, months, cents, monthlyRate, monthlyPayment) == [];
    var totalInterestCents := Round(totalInterest);
    assert totalInterestCents == SumInterest(entries);
    RowsAreSchedule(months, totalAmount, interestRate, monthlyPayment);
    s := Schedule(totalAmount, monthlyPayment, interestRate, |entries|,
                  totalInterestCents, totalAmount + totalInterestCents, entries);
  }

  /** The rows written so far, followed by the schedule of what is left, are the whole schedule. */
  ghost predicate Written(entries: seq<Entry>, i: int, months: int, cents: int, r: real, payment: int, total: int) {
    entries + Rows(i, months, cents, r, payment) == Rows(1, months, total, r, payment)
  }

  lemma WriteRow(entries: seq<Entry>, i: int, months: int, cents: int, r: real, payment: int, total: int, entry: Entry)
    requires Written(entries, i, months, cents, r, payment, total) && i <= months && cents > 0
    requires entry == Row(i, cents, Interest(cents, r), payment)
    ensures Written(entries + [entry], i + 1, months, entry.balance, r, payment, total)
    ensures SumInterest(entries + [entry]) == SumInterest(entries) + entry.interest
  {
    RowsStep(entries, i, months, cents, r, payment);
    SumInterestAppend(entries, entry);
  }

  /** The annuity formula, p being the compounded growth over the whole term. */
  function Annuity(t: real, r: real, p: real): real
    requires p != 1.0
  {
    t * (r * p) / (p - 1.0)
  }

  /** The annuity payment before rounding. */
  function ExactPayment(total: int, r: real, n: nat): real
    requires r > -1.0 && r != 0.0 && n >= 1
  {
    PowApartFromOne(r, n);
    Annuity(total as real, r, Pow(1.0 + r, n))
  }

  /** The formula has no meaning over the reals once 1 + r is not positive; the service only calls it with a
      positive rate. */
  function ComputeMonthlyPayment(totalAmount: int, annualRate: int, months: int): (payment: int)
    requires annualRate > -120000
  {
    if months <= 0 then 0
    else if annualRate == 0 then TruncDiv(totalAmount, months)
    else Round(ExactPayment(totalAmount, MonthlyRate(annualRate), months))
  }

  /** The payment against the textbook formula on the annual figure itself: no months, no payment; no rate, the share
      rounded toward zero; else the annuity at rate / 120000 a month to the nearest cent. */
  lemma PaymentIsAnnuity(total: int, rate: int, n: int)
    requires rate > -120000
    ensures
      var m, r := ComputeMonthlyPayment(total, rate, n), rate as real / 120000.0;
      && (n <= 0 ==> m == 0)
      && (n > 0 && rate == 0 && total >= 0 ==> m * n <= total < m * n + n)
      && (n > 0 && rate == 0 && total < 0 ==> m * n - n < total <= m * n)
      && (n > 0 && rate != 0 ==> NearAnnuity(m, total as real, r, Pow(1.0 + r, n)))
  {
    var r := rate as real / 120000.0;
    assert MonthlyRate(rate) == r;
    if n > 0 && rate != 0 {
      PowApartFromOne(r, n);
      RoundedAnnuity(total, r, n);
    } else if n > 0 {
      Truncated(total, n);
    }
  }

  /** Within half a cent of t * r * p / (p - 1), p being the growth over the whole term. */
  predicate NearAnnuity(m: int, t: real, r: real, p: real) {
    p != 1.0 && -0.5 <= m as real - t * (r * p) / (p - 1.0) <= 0.5
  }

  lemma RoundedAnnuity(total: int, r: real, n: nat)
    requires r > -1.0 && r != 0.0 && n >= 1
    ensures NearAnnuity(Round(ExactPayment(total, r, n)), total as real, r, Pow(1.0 + r, n))
  {
    PowApartFromOne(r, n);
    AnnuityRounded(total as real, r, Pow(1.0 + r, n));
  }

  lemma AnnuityRounded(t: real, r: real, p: real)
    requires p != 1.0
    ensures NearAnnuity(Round(Annuity(t, r, p)), t, r, p)
  {
  }

  lemma Truncated(total: int, n: int)
    requires n > 0
    ensures total >= 0 ==> TruncDiv(total, n) * n <= total < TruncDiv(total, n) * n + n
    ensures total < 0 ==> TruncDiv(total, n) * n - n < total <= TruncDiv(total, n) * n
  {
    var a := if total >= 0 then total else -total;
    assert a == (a / n) * n + a % n;
  }

  /** Over one month the payment is the loan and its interest, to the nearest cent. */
  lemma OneMonthPayment(total: int, rate: int)
    requires rate > 0
    ensures
      var m := ComputeMonthlyPayment(total, rate, 1);
      -60000 <= 120000 * total + total * rate - 120000 * m <= 60000
  {
    var r := MonthlyRate(rate);
    PowApartFromOne(r, 1);
    assert Pow(1.0 + r, 1) == (1.0 + r) * Pow(1.0 + r, 0) == 1.0 + r;
    OneMonthAnnuity(total as real, r);
    InterestScaled(total, rate);
    var exact := total as real + Interest(total, r);
    assert ExactPayment(total, r, 1) == exact;
    assert 120000.0 * exact == (120000 * total + total * rate) as real;
    RoundScaled(exact, 120000 * total + total * rate);
  }

  lemma OneMonthAnnuity(t: real, r: real)
    requires r > 0.0
    ensures Annuity(t, r, 1.0 + r) == t + t * r
  {
    assert t * (r * (1.0 + r)) == (t + t * r) * r;
    assert (t + t * r) * r / r == t + t * r;
  }

  // ---------------------------------------------------------------- what a schedule keeps

  /** One row in the branches that do not capitalise the balance. */
  lemma RowConserves(i: int, balance: int, interest: real, payment: int)
    requires balance > 0
    ensures
      var e := Row(i, balance, interest, payment);
      && e.totalPayment == e.principal + e.interest
      && 0 <= e.balance < balance
      && e.principal >= 0
      && (e.principal > 0 <==> payment as real - interest >= 0.5)
      && (e.principal > 0 ==> e.principal + e.balance == balance)
  {
    RoundPositive(payment as real - interest);
  }

  predicate NoTooSmallRow(rows: seq<Entry>) {
    forall k :: 0 <= k < |rows| ==> rows[k].principal > 0
  }

  /** Conservation: unless the too-small branch is taken, principals and the last balance add up to the loan,
      and the reported total paid is what the rows pay plus the last balance. */
  lemma {:induction false} PrincipalsConserveLoan(i: int, months: int, balance: int, r: real, payment: int)
    requires NoTooSmallRow(Rows(i, months, balance, r, payment))
    ensures
      var rows := Rows(i, months, balance, r, payment);
      && SumPrincipal(rows) + LastBalance(balance, rows) == balance
      && balance + SumInterest(rows) == SumPayments(rows) + LastBalance(balance, rows)
    decreases months - i
  {
    if i <= months && balance > 0 {
      var row := Row(i, balance, Interest(balance, r), payment);
      var rows := Rows(i, months, balance, r, payment);
      var rest := Rows(i + 1, months, row.balance, r, payment);
      assert rows[0] == row && rows[1..] == rest;
      RowConserves(i, balance, Interest(balance, r), payment);
      assert NoTooSmallRow(rest) by {
        forall k | 0 <= k < |rest| ensures rest[k].principal > 0 { assert rest[k] == rows[k + 1]; }
      }
      PrincipalsConserveLoan(i + 1, months, row.balance, r, payment);
    }
  }

  /** The first payment leaves at least half a cent of principal. */
  predicate CoversInterest(balance: int, r: real, payment: int) {
    payment as real - Interest(balance, r) >= 0.5
  }

  /** A lower balance bears less interest. */
  lemma InterestFalls(low: int, high: int, r: real)
    requires low <= high && r >= 0.0
    ensures Interest(low, r) <= Interest(high, r)
    ensures Round(Interest(low, r)) <= Round(Interest(high, r))
  {
    assert (high - low) as real * r >= 0.0;
    RoundMonotone(Interest(low, r), Interest(high, r));
  }

  /** With a covering payment every later row keeps below the interest and above the principal of now. */
  lemma {:induction false} RowsBounded(i: int, months: int, balance: int, r: real, payment: int, k: nat)
    requires r >= 0.0 && CoversInterest(balance, r, payment)
    requires k < |Rows(i, months, balance, r, payment)|
    ensures
      var e := Rows(i, months, balance, r, payment)[k];
      && e.month == i + k
      && 0 < e.principal
      && 0 <= e.balance < balance
      && e.interest <= Round(Interest(balance, r))
      && (e.balance > 0 ==> Round(payment as real - Interest(balance, r)) <= e.principal)
    decreases months - i
  {
    var row := Row(i, balance, Interest(balance, r), payment);
    RowConserves(i, balance, Interest(balance, r), payment);
    if k > 0 {
      InterestFalls(row.balance, balance, r);
      RoundMonotone(payment as real - Interest(balance, r), payment as real - Interest(row.balance, r));
      RowsBounded(i + 1, months, row.balance, r, payment, k - 1);
    }
  }

  /** A schedule over months i.. is row i followed by the schedule of what it leaves. */
  lemma {:induction false} RowsSuffix(i: int, months: int, balance: int, r: real, payment: int, k: nat)
    requires k < |Rows(i, months, balance, r, payment)|
    ensures
      var rows := Rows(i, months, balance, r, payment);
      var before := if k == 0 then balance else rows[k - 1].balance;
      && before > 0
      && rows[k..] == Rows(i + k, months, before, r, payment)
      && rows[k] == Row(i + k, before, Interest(before, r), payment)
    decreases months - i
  {
    if k > 0 {
      var rows := Rows(i, months, balance, r, payment);
      var row := Row(i, balance, Interest(balance, r), payment);
      RowsSuffix(i + 1, months, row.balance, r, payment, k - 1);
      assert rows[1..] == Rows(i + 1, months, row.balance, r, payment);
      assert rows[k..] == rows[1..][k - 1..];
    }
  }

  lemma {:induction false} CoversLater(i: int, months: int, balance: int, r: real, payment: int, k: nat)
    requires r >= 0.0 && CoversInterest(balance, r, payment)
    requires k < |Rows(i, months, balance, r, payment)|
    ensures CoversInterest(if k == 0 then balance else Rows(i, months, balance, r, payment)[k - 1].balance, r, payment)
  {
    if k > 0 {
      RowsBounded(i, months, balance, r, payment, k - 1);
      InterestFalls(Rows(i, months, balance, r, payment)[k - 1].balance, balance, r);
    }
  }

  /** The first row of a covered schedule against any later one. */
  lemma FirstAgainstLater(i: int, months: int, balance: int, r: real, payment: int, k: nat)
    requires r >= 0.0 && CoversInterest(balance, r, payment)
    requires 0 < k < |Rows(i, months, balance, r, payment)|
    ensures
      var rows := Rows(i, months, balance, r, payment);
      && rows[k].balance < rows[0].balance
      && rows[k].interest <= rows[0].interest
      && (rows[k].balance > 0 ==> rows[0].principal <= rows[k].principal)
  {
    var row := Row(i, balance, Interest(balance, r), payment);
    RowConserves(i, balance, Interest(balance, r), payment);
    RowsBounded(i, months, balance, r, payment, k);
    InterestFalls(row.balance, balance, r);
    RowsBounded(i + 1, months, row.balance, r, payment, k - 1);
  }

  /** For any two rows j < k of a covered schedule: the balance strictly falls, interest does not rise, and
      principal does not fall unless k is the closing row. */
  lemma ScheduleMonotone(months: int, total: int, r: real, payment: int, j: nat, k: nat)
    requires r >= 0.0 && CoversInterest(total, r, payment)
    requires j < k < |Rows(1, months, total, r, payment)|
    ensures
      var rows := Rows(1, months, total, r, payment);
      && rows[k].balance < rows[j].balance < total
      && rows[k].interest <= rows[j].interest
      && (rows[k].balance > 0 ==> rows[j].principal <= rows[k].principal)
  {
    var rows := Rows(1, months, total, r, payment);
    RowsSuffix(1, months, total, r, payment, j);
    CoversLater(1, months, total, r, payment, j);
    RowsBounded(1, months, total, r, payment, j);
    FirstAgainstLater(1 + j, months, if j == 0 then total else rows[j - 1].balance, r, payment, k - j);
    assert rows[j..][0] == rows[j] && rows[j..][k - j] == rows[k];
  }

  /** The too-small branch is taken somewhere exactly when the first month's principal is below half a cent. */
  lemma TooSmallDecidedByFirstMonth(months: int, total: int, r: real, payment: int)
    requires r >= 0.0 && months >= 1 && total > 0
    ensures NoTooSmallRow(Rows(1, months, total, r, payment)) <==> CoversInterest(total, r, payment)
  {
    var rows := Rows(1, months, total, r, payment);
    RowConserves(1, total, Interest(total, r), payment);
    assert rows[0] == Row(1, total, Interest(total, r), payment);
    if CoversInterest(total, r, payment) {
      forall k | 0 <= k < |rows| ensures rows[k].principal > 0 {
        RowsBounded(1, months, total, r, payment, k);
      }
    }
  }

  /** Every row but the closing one pays the monthly payment, and one cent more exactly when that month's
      interest ends in half a cent. */
  lemma RowPaysMonthlyPayment(months: int, total: int, r: real, payment: int, k: nat)
    requires r >= 0.0
    requires k < |Rows(1, months, total, r, payment)|
    requires Rows(1, months, total, r, payment)[k].balance > 0
    ensures
      var rows := Rows(1, months, total, r, payment);
      var before := if k == 0 then total else rows[k - 1].balance;
      rows[k].totalPayment == payment + (if IsHalf(Interest(before, r)) then 1 else 0)
  {
    var rows := Rows(1, months, total, r, payment);
    RowsSuffix(1, months, total, r, payment, k);
    var before := if k == 0 then total else rows[k - 1].balance;
    RowConserves(1 + k, before, Interest(before, r), payment);
    InterestFalls(0, before, r);
    RoundSplit(payment, Interest(before, r));
  }
}
