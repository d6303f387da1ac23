/** How far cents rounding can move a schedule away from the exact annuity. */
module AmortizationDrift {
  import opened Rounding
  import opened Amortization

  /** 1 + q + ... + q^(k-1): one cent a month, carried forward at the growth factor q. */
  function Geometric(q: real, k: nat): real {
    if k == 0 then 0.0 else q * Geometric(q, k - 1) + 1.0
  }

  lemma {:induction false} GeometricClosedForm(r: real, k: nat)
    ensures r * Geometric(1.0 + r, k) == Pow(1.0 + r, k) - 1.0
  {
    if k > 0 {
      GeometricClosedForm(r, k - 1);
      var g := Geometric(1.0 + r, k - 1);
      assert r * ((1.0 + r) * g + 1.0) == (1.0 + r) * (r * g) + r;
    }
  }

  lemma {:induction false} GeometricNonNegative(q: real, k: nat)
    requires q > 0.0
    ensures Geometric(q, k) >= 0.0
  {
    if k > 0 {
      GeometricNonNegative(q, k - 1);
      ScaleOrder(q, 0.0, Geometric(q, k - 1));
    }
  }

  /** What a loan owes after k months of the unrounded payment m, with no rounding anywhere; q is one plus the monthly
      rate. */
  function ExactBalance(total: real, q: real, m: real, k: nat): real {
    if k == 0 then total else q * ExactBalance(total, q, m, k - 1) - m
  }

  lemma {:induction false} ExactBalanceClosedForm(total: real, q: real, m: real, k: nat)
    ensures ExactBalance(total, q, m, k) == total * Pow(q, k) - m * Geometric(q, k)
  {
    if k > 0 {
      ExactBalanceClosedForm(total, q, m, k - 1);
      ExactStep(q, total, Pow(q, k - 1), m, Geometric(q, k - 1), ExactBalance(total, q, m, k - 1));
    }
  }

  lemma ExactStep(q: real, t: real, p: real, m: real, g: real, x: real)
    requires x == t * p - m * g
    ensures q * x - m == t * (q * p) - m * (q * g + 1.0)
  {
    Distribute(q, t, p, m, g);
  }

  lemma Distribute(q: real, t: real, p: real, m: real, g: real)
    ensures q * (t * p - m * g) - m == t * (q * p) - m * (q * g + 1.0)
  {
    assert q * (t * p - m * g) == q * (t * p) - q * (m * g);
    assert q * (t * p) == t * (q * p);
    assert q * (m * g) == m * (q * g);
  }

  /** The exact payment clears the exact loan in exactly n months. */
  lemma ExactPaymentClearsLoan(total: int, r: real, n: nat)
    requires r > -1.0 && r != 0.0 && n >= 1
    ensures ExactBalance(total as real, 1.0 + r, ExactPayment(total, r, n), n) == 0.0
  {
    PowApartFromOne(r, n);
    var m := ExactPayment(total, r, n);
    ExactBalanceClosedForm(total as real, 1.0 + r, m, n);
    GeometricClosedForm(r, n);
    AnnuityAlgebra(total as real, r, Pow(1.0 + r, n), Geometric(1.0 + r, n), m);
  }

  lemma AnnuityAlgebra(t: real, r: real, p: real, g: real, m: real)
    requires r != 0.0 && p != 1.0 && r * g == p - 1.0
    requires m == Annuity(t, r, p)
    ensures t * p - m * g == 0.0
  {
    QuotientTimes(t * (r * p), p - 1.0);
    assert r * (m * g) == m * (r * g) == t * (r * p) == r * (t * p);
    CancelFactor(r, m * g, t * p);
  }

  lemma QuotientTimes(a: real, b: real)
    requires b != 0.0
    ensures a / b * b == a
  {
  }

  lemma CancelFactor(r: real, a: real, b: real)
    requires r != 0.0 && r * a == r * b
    ensures a == b
  {
    assert r * (a - b) == 0.0;
  }

  /** The balance b is within k compounded cents of the exact schedule after k months. */
  predicate Near(b: int, total: int, r: real, m: real, k: nat) {
    -Geometric(1.0 + r, k) <= b as real - ExactBalance(total as real, 1.0 + r, m, k) <= Geometric(1.0 + r, k)
  }

  /** One rounded month against one exact month: the old gap grows by interest, and at most one new cent
      (half from the rounded payment, half from the rounded principal) comes in. */
  lemma DriftStep(b: real, x: real, r: real, gap: real, payment: real, m: real, interest: real, principal: real)
    requires r > -1.0 && interest == b * r
    requires -gap <= b - x <= gap
    requires -0.5 <= payment - m <= 0.5
    requires -0.5 <= principal - (payment - interest) <= 0.5
    ensures -((1.0 + r) * gap + 1.0) <= b - principal - ((1.0 + r) * x - m) <= (1.0 + r) * gap + 1.0
  {
    var grown := (1.0 + r) * (b - x);
    assert grown <= (1.0 + r) * gap by { ScaleOrder(1.0 + r, b - x, gap); }
    assert -((1.0 + r) * gap) <= grown by { ScaleOrder(1.0 + r, -gap, b - x); }
    assert grown == b + interest - (1.0 + r) * x;
  }

  lemma NearStep(b: int, total: int, r: real, payment: int, m: real, k: nat)
    requires r > -1.0 && Near(b, total, r, m, k)
    requires -0.5 <= payment as real - m <= 0.5
    ensures Near(b - Round(payment as real - Interest(b, r)), total, r, m, k + 1)
  {
    var principal := Round(payment as real - Interest(b, r));
    DriftStep(b as real, ExactBalance(total as real, 1.0 + r, m, k), r, Geometric(1.0 + r, k), payment as real, m,
              Interest(b, r), principal as real);
  }

  lemma ScaleOrder(q: real, a: real, b: real)
    requires q >= 0.0 && a <= b
    ensures q * a <= q * b
  {
    assert q * (b - a) >= 0.0;
  }

  /** After k rows that leave something owed, the schedule is within k compounded cents of the exact one. */
  lemma {:induction false} ScheduleTracksExact(months: int, total: int, r: real, payment: int, m: real, k: nat)
    requires r > -1.0
    requires -0.5 <= payment as real - m <= 0.5
    requires k < |Rows(1, months, total, r, payment)|
    requires Rows(1, months, total, r, payment)[k].balance > 0
    ensures Near(Rows(1, months, total, r, payment)[k].balance, total, r, m, k + 1)
    decreases k
  {
    var rows := Rows(1, months, total, r, payment);
    RowsSuffix(1, months, total, r, payment, k);
    var before := if k == 0 then total else rows[k - 1].balance;
    if k > 0 {
      ScheduleTracksExact(months, total, r, payment, m, k - 1);
    }
    RowOpen(1 + k, before, Interest(before, r), payment);
    NearStep(before, total, r, payment, m, k);
  }

  /** A row that leaves something owed took the ordinary branch. */
  lemma RowOpen(i: int, balance: int, interest: real, payment: int)
    requires balance > 0 && Row(i, balance, interest, payment).balance > 0
    ensures Row(i, balance, interest, payment).balance == balance - Round(payment as real - interest)
  {
  }

  /** A schedule that still owes something has used all its months. */
  lemma OwingUsesAllMonths(months: int, total: int, r: real, payment: int)
    requires months >= 1 && total > 0
    ensures |Rows(1, months, total, r, payment)| >= 1
    ensures LastBalance(total, Rows(1, months, total, r, payment)) >= 0
    ensures LastBalance(total, Rows(1, months, total, r, payment)) > 0 ==>
      |Rows(1, months, total, r, payment)| == months
  {
    var rows := Rows(1, months, total, r, payment);
    assert rows[0] == Row(1, total, Interest(total, r), payment);
    var k := |rows| - 1;
    RowsSuffix(1, months, total, r, payment, k);
    var before := if k == 0 then total else rows[k - 1].balance;
    RowConserves(1 + k, before, Interest(before, r), payment);
    assert rows[k..] == [rows[k]] + Rows(2 + k, months, rows[k].balance, r, payment);
    assert |rows[k..]| == 1;
  }

  /** Feeding the rounded payment of ComputeMonthlyPayment into the schedule leaves at most
      ((1+r)^n - 1)/r cents unpaid after the agreed n months. */
  lemma FinalBalanceBounded(total: int, annual: int, n: nat)
    requires total > 0 && annual > 0 && n >= 1
    ensures
      var r := MonthlyRate(annual);
      var rows := Rows(1, n, total, r, ComputeMonthlyPayment(total, annual, n));
      r > 0.0 && 0.0 <= LastBalance(total, rows) as real <= (Pow(1.0 + r, n) - 1.0) / r
  {
    var r := MonthlyRate(annual);
    OwingBounded(total, r, ComputeMonthlyPayment(total, annual, n), n);
  }

  lemma OwingBounded(total: int, r: real, payment: int, n: nat)
    requires total > 0 && r > 0.0 && n >= 1
    requires payment == Round(ExactPayment(total, r, n))
    ensures 0.0 <= LastBalance(total, Rows(1, n, total, r, payment)) as real <= (Pow(1.0 + r, n) - 1.0) / r
  {
    var rows := Rows(1, n, total, r, payment);
    OwingUsesAllMonths(n, total, r, payment);
    GeometricQuotient(r, n);
    if LastBalance(total, rows) > 0 {
      ScheduleTracksExact(n, total, r, payment, ExactPayment(total, r, n), n - 1);
      ExactPaymentClearsLoan(total, r, n);
    }
  }

  lemma GeometricQuotient(r: real, n: nat)
    requires r > 0.0
    ensures (Pow(1.0 + r, n) - 1.0) / r == Geometric(1.0 + r, n) >= 0.0
  {
    GeometricNonNegative(1.0 + r, n);
    GeometricClosedForm(r, n);
    var p := Pow(1.0 + r, n) - 1.0;
    QuotientTimes(p, r);
    CancelFactor(r, p / r, Geometric(1.0 + r, n));
  }

  /** Without interest the truncated payment leaves exactly the remainder of the division; a loan of fewer
      cents than months is instead booked as interest in a single too-small row. */
  lemma ZeroRateLeavesRemainder(total: int, n: nat)
    requires total > 0 && n >= 1
    ensures
      var rows := Rows(1, n, total, MonthlyRate(0), ComputeMonthlyPayment(total, 0, n));
      if total >= n then LastBalance(total, rows) == total % n && NoTooSmallRow(rows)
      else rows == [Entry(1, 0, total, 0, total)]
  {
    var payment := total / n;
    assert MonthlyRate(0) == 0.0;
    DivisionFacts(total, n);
    if total >= n {
      InstalmentsProduct(payment, n);
      ZeroRateRows(1, n, payment, total % n);
    } else {
      TinyLoan(total, n);
    }
  }

  lemma DivisionFacts(total: int, n: nat)
    requires total > 0 && n >= 1
    ensures total == (total / n) * n + total % n && 0 <= total % n
    ensures total / n >= 1 <==> total >= n
    ensures total / n >= 0
  {
  }

  lemma TinyLoan(total: int, n: nat)
    requires total > 0 && n >= 1
    ensures Rows(1, n, total, 0.0, 0) == [Entry(1, 0, total, 0, total)]
  {
    assert Interest(total, 0.0) == 0.0;
    assert Round(0.0) == 0;
    RowsStep([], 1, n, total, 0.0, 0);
    assert Rows(2, n, 0, 0.0, 0) == [];
  }

  lemma ZeroRateRow(i: int, balance: int, payment: int)
    requires payment >= 1 && balance > 0
    ensures
      var e := Row(i, balance, Interest(balance, 0.0), payment);
      e.principal > 0 && e.balance == if payment >= balance then 0 else balance - payment
  {
    assert Interest(balance, 0.0) == 0.0;
    assert Round(payment as real) == payment;
  }

  function Instalments(payment: int, left: nat): int {
    if left == 0 then 0 else payment + Instalments(payment, left - 1)
  }

  lemma {:induction false} InstalmentsProduct(payment: int, left: nat)
    ensures Instalments(payment, left) == payment * left
  {
    if left > 0 { InstalmentsProduct(payment, left - 1); }
  }

  lemma {:induction false} InstalmentsPositive(payment: int, left: nat)
    requires payment >= 1
    ensures Instalments(payment, left) >= 0 && (left > 0 ==> Instalments(payment, left) >= payment)
  {
    if left > 0 { InstalmentsPositive(payment, left - 1); }
  }

  lemma FirstRow(i: int, months: int, balance: int, r: real, payment: int)
    requires i <= months && balance > 0
    ensures
      var row := Row(i, balance, Interest(balance, r), payment);
      var rows, tail := Rows(i, months, balance, r, payment), Rows(i + 1, months, row.balance, r, payment);
      && |rows| >= 1 && (NoTooSmallRow(rows) <==> row.principal > 0 && NoTooSmallRow(tail))
      && rows[|rows| - 1] == if tail == [] then row else tail[|tail| - 1]
  {
    var row := Row(i, balance, Interest(balance, r), payment);
    var tail := Rows(i + 1, months, row.balance, r, payment);
    assert Rows(i, months, balance, r, payment) == [row] + tail;
    assert ([row] + tail)[0] == row && forall k :: 0 <= k < |tail| ==> ([row] + tail)[k + 1] == tail[k];
  }

  lemma {:induction false} ZeroRateRows(i: int, left: nat, payment: int, rest: int)
    requires payment >= 1 && 0 <= rest && left >= 1
    ensures
      var rows := Rows(i, i + left - 1, Instalments(payment, left) + rest, 0.0, payment);
      |rows| >= 1 && rows[|rows| - 1].balance == rest && NoTooSmallRow(rows)
    decreases left
  {
    var balance, later := Instalments(payment, left) + rest, Instalments(payment, left - 1) + rest;
    InstalmentsPositive(payment, left - 1);
    ZeroRateRow(i, balance, payment);
    var row := Row(i, balance, Interest(balance, 0.0), payment);
    assert row.balance == later;
    FirstRow(i, i + left - 1, balance, 0.0, payment);
    if left > 1 {
      ZeroRateRows(i + 1, left - 1, payment, rest);
    }
  }
}
