/** How many daily installments a borrower is behind. */
module BranchOverdue {
  import opened Options
  import opened Integers
  import opened DateGroups
  import opened BranchModel

  datatype Level = Healthy | Attention | FollowUp | HighRisk | Critical

  /** `severityRank` */
  function Severity(level: Level): nat {
    match level
    case Healthy => 0
    case Attention => 1
    case FollowUp => 2
    case HighRisk => 3
    case Critical => 4
  }

  /** `worstAttentionLevel` */
  function Worst(left: Level, right: Level): Level {
    if Severity(right) > Severity(left) then right else left
  }

  /** `overdueExposureStatus` */
  function OverdueStatus(days: int): Level {
    if days >= 8 then Critical
    else if days >= 4 then HighRisk
    else if days >= 2 then FollowUp
    else Healthy
  }

  /** `daysBetween` */
  function DaysBetween(start: int, end: int): int {
    Max(0, (StartOfDay(end) - StartOfDay(start)) / DAY_MS)
  }

  /** `expectedRepaymentDays` */
  function ExpectedDays(loan: Loan, startAt: int, today: int): int {
    var todayEnd := EndOfDay(today);
    if todayEnd < startAt then 0
    else
      var dueAt := ParseDate(loan.dueDate);
      var endAt := if dueAt.Some? && dueAt.value < todayEnd then dueAt.value else todayEnd;
      var elapsedDays := DaysBetween(StartOfDay(startAt), StartOfDay(endAt)) + 1;
      if loan.durationDays.Some? && loan.durationDays.value > 0 then Min(elapsedDays, loan.durationDays.value)
      else elapsedDays
  }

  /** `loanExpectsRepayment` */
  predicate ExpectsRepayment(loan: Loan) {
    ToUpper(loan.status) in EXPECTING_REPAYMENT && loan.balance > 0
  }

  datatype Exposure = Exposure(
    customerId: string, branchId: string, loanId: string, overdueDays: int,
    installmentAmount: int, expectedAmount: int, paidAmount: int, status: Level)

  function OverdueDays(expectedDays: int, installment: int, paid: int): int
    requires installment > 0
  {
    expectedDays - Min(expectedDays, Max(0, paid) / installment)
  }

  /** `borrowerOverdueExposureForLoan` */
  function ExposureForLoan(loan: Loan, cumulativePaid: int, today: int): Option<Exposure> {
    if !ExpectsRepayment(loan) || loan.installmentAmount <= 0 || PaymentStart(loan).None? then None
    else
      var expectedDays := ExpectedDays(loan, PaymentStart(loan).value, today);
      if expectedDays <= 0 then None
      else
        var overdueDays := OverdueDays(expectedDays, loan.installmentAmount, cumulativePaid);
        var status := OverdueStatus(overdueDays);
        if status == Healthy then None
        else Some(Exposure(loan.customerId, loan.branchId, loan.id, overdueDays, loan.installmentAmount,
                           expectedDays * loan.installmentAmount, cumulativePaid, status))
  }

  // ---- what the number of overdue days means ----

  lemma FloorBounds(a: int, b: int)
    requires b > 0
    ensures (a / b) * b <= a < (a / b) * b + b
  {}

  lemma MulSign(d: int, b: int)
    requires b > 0
    ensures d >= 0 ==> d * b >= 0
    ensures d >= 1 ==> d * b >= b
    ensures d <= -1 ==> d * b <= -b
  {}

  lemma FloorUnique(a: int, b: int, q: int)
    requires b > 0 && q * b <= a < q * b + b
    ensures a / b == q
  {
    FloorBounds(a, b);
    var d := a / b - q;
    assert d * b == (a / b) * b - q * b;
    MulSign(d, b);
  }

  /** The overdue days are the unpaid amount in installments, rounded up, and
      never more than were expected. */
  lemma OverdueDaysIsShortfall(expectedDays: int, installment: int, paid: int)
    requires installment > 0 && expectedDays >= 0
    ensures var days := OverdueDays(expectedDays, installment, paid);
      && 0 <= days <= expectedDays
      && days == Max(0, CeilDiv(expectedDays * installment - Max(0, paid), installment))
  {
    var p := Max(0, paid);
    var q := p / installment;
    FloorBounds(p, installment);
    assert (q - expectedDays) * installment == q * installment - expectedDays * installment;
    FloorUnique(p - expectedDays * installment, installment, q - expectedDays);
    assert -(expectedDays * installment - p) == p - expectedDays * installment;
    assert q >= 0;
  }

  /** They are the least number of further installments that would bring the
      payments up to what is expected by now. */
  lemma OverdueDaysIsLeast(expectedDays: int, installment: int, paid: int, n: nat)
    requires installment > 0 && expectedDays >= 0
    ensures Max(0, paid) + n * installment >= expectedDays * installment <==>
      n >= OverdueDays(expectedDays, installment, paid)
  {
    var p := Max(0, paid);
    FloorBounds(p, installment);
    CoverCount(p, p / installment, n, expectedDays, installment);
  }

  lemma CoverCount(p: int, q: int, n: nat, expected: int, b: int)
    requires b > 0 && q * b <= p < q * b + b && q >= 0
    ensures p + n * b >= expected * b <==> n >= expected - Min(expected, q)
  {
    var d := q + n - expected;
    assert d * b == q * b + n * b - expected * b;
    MulSign(d, b);
  }

  lemma DivMonotone(a: int, b: int, c: int)
    requires c > 0 && a <= b
    ensures a / c <= b / c
  {
    FloorBounds(a, c);
    FloorBounds(b, c);
    var d := a / c - b / c;
    assert d * c == (a / c) * c - (b / c) * c;
    MulSign(d, c);
  }

  /** Paying more never adds overdue days. */
  lemma OverdueFallsWithPayment(expectedDays: int, installment: int, paid: int, more: int)
    requires installment > 0 && paid <= more
    ensures OverdueDays(expectedDays, installment, more) <= OverdueDays(expectedDays, installment, paid)
  {
    DivMonotone(Max(0, paid), Max(0, more), installment);
  }

  lemma DaysBetweenIsDifference(start: int, end: int)
    ensures DaysBetween(StartOfDay(start), StartOfDay(end)) == Max(0, DayOf(end) - DayOf(start))
  {}

  /** The expected days are the calendar days from the payment start up to today
      or the due date, both included, and at least one from the start on; a
      positive duration caps them. */
  lemma ExpectedDaysAreCalendarDays(loan: Loan, startAt: int, today: int)
    ensures var due := ParseDate(loan.dueDate);
      var lastDay := if due.Some? then Min(DayOf(due.value), DayOf(today)) else DayOf(today);
      var counted := Max(1, lastDay - DayOf(startAt) + 1);
      ExpectedDays(loan, startAt, today) ==
        if DayOf(today) < DayOf(startAt) then 0
        else if loan.durationDays.Some? && loan.durationDays.value > 0 then Min(counted, loan.durationDays.value)
        else counted
  {}

  lemma ExpectedDaysGrow(loan: Loan, startAt: int, today: int, later: int)
    requires today <= later
    ensures 0 <= ExpectedDays(loan, startAt, today) <= ExpectedDays(loan, startAt, later)
  {
    ExpectedDaysAreCalendarDays(loan, startAt, today);
    ExpectedDaysAreCalendarDays(loan, startAt, later);
  }

  /** The overdue days of a loan: none when nothing is expected of it. */
  function OverdueOf(loan: Loan, cumulativePaid: int, today: int): int {
    if !ExpectsRepayment(loan) || loan.installmentAmount <= 0 || PaymentStart(loan).None? then 0
    else OverdueDays(ExpectedDays(loan, PaymentStart(loan).value, today), loan.installmentAmount, cumulativePaid)
  }

  /** A loan is flagged exactly when it is at least two days behind, with the
      status of those days, whatever its dates, amounts and status text are. */
  lemma FlaggedExactlyWhenBehind(loan: Loan, cumulativePaid: int, today: int)
    ensures var e := ExposureForLoan(loan, cumulativePaid, today);
      && (e.Some? <==> OverdueOf(loan, cumulativePaid, today) >= 2)
      && (e.Some? ==>
            (&& e.value.overdueDays == OverdueOf(loan, cumulativePaid, today)
             && e.value.status == OverdueStatus(e.value.overdueDays)
             && e.value.customerId == loan.customerId && e.value.branchId == loan.branchId
             && e.value.loanId == loan.id))
    ensures OverdueOf(loan, cumulativePaid, today) >= 0
  {}

  /** The money of a flagged loan fits its days: the installment is the loan's,
      the paid amount the given one, the expected amount an installment for each
      expected day, and the overdue days are what is missing between the two. */
  lemma ExposureFits(loan: Loan, cumulativePaid: int, today: int)
    requires ExposureForLoan(loan, cumulativePaid, today).Some?
    ensures var e := ExposureForLoan(loan, cumulativePaid, today).value;
      && e.installmentAmount == loan.installmentAmount > 0
      && e.paidAmount == cumulativePaid
      && PaymentStart(loan).Some?
      && e.expectedAmount == ExpectedDays(loan, PaymentStart(loan).value, today) * loan.installmentAmount
      && e.overdueDays == Max(0, CeilDiv(e.expectedAmount - Max(0, e.paidAmount), e.installmentAmount))
  {
    OverdueDaysIsShortfall(ExpectedDays(loan, PaymentStart(loan).value, today), loan.installmentAmount, cumulativePaid);
  }

  /** The days that make each status. */
  lemma StatusDays(days: int)
    ensures OverdueStatus(days) == Healthy <==> days < 2
    ensures OverdueStatus(days) == FollowUp <==> 2 <= days < 4
    ensures OverdueStatus(days) == HighRisk <==> 4 <= days < 8
    ensures OverdueStatus(days) == Critical <==> 8 <= days
  {}

  /** A loan has overdue days only while it is open, has a balance, installments
      and a payment start, and then they are those of its expected days. */
  lemma OnlyOpenLoansAreOverdue(loan: Loan, cumulativePaid: int, today: int)
    ensures var open := loan.balance > 0
        && ToUpper(loan.status) in {"SUBMITTED", "APPROVED", "DISBURSED", "CURRENT", "IN_ARREARS", "RESTRUCTURED"};
      OverdueOf(loan, cumulativePaid, today) ==
        if open && loan.installmentAmount > 0 && PaymentStart(loan).Some? then
          OverdueDays(ExpectedDays(loan, PaymentStart(loan).value, today), loan.installmentAmount, cumulativePaid)
        else 0
  {}

  /** With payments fixed, time passing never removes overdue days; with the day
      fixed, further payments never add any. */
  lemma OverdueMonotone(loan: Loan, paid: int, more: int, today: int, later: int)
    requires today <= later && paid <= more
    ensures OverdueOf(loan, paid, today) <= OverdueOf(loan, paid, later)
    ensures OverdueOf(loan, more, today) <= OverdueOf(loan, paid, today)
  {
    if ExpectsRepayment(loan) && loan.installmentAmount > 0 && PaymentStart(loan).Some? {
      ExpectedDaysGrow(loan, PaymentStart(loan).value, today, later);
      OverdueFallsWithPayment(ExpectedDays(loan, PaymentStart(loan).value, today), loan.installmentAmount, paid, more);
    }
  }

  lemma StatusMonotone(days: int, more: int)
    requires days <= more
    ensures Severity(OverdueStatus(days)) <= Severity(OverdueStatus(more))
  {}

  /** The order of the levels. */
  lemma SeverityOrder()
    ensures Severity(Healthy) < Severity(Attention) < Severity(FollowUp) < Severity(HighRisk) < Severity(Critical)
  {}

  /** `Worst` is the join of the severity order: the least level above both. */
  lemma WorstIsJoin(a: Level, b: Level, above: Level)
    ensures Severity(Worst(a, b)) <= Severity(above) <==>
      Severity(a) <= Severity(above) && Severity(b) <= Severity(above)
    ensures Severity(a) == Severity(b) ==> a == b
  {}
}
