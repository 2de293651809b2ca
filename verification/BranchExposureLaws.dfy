/** What the overdue exposure of a branch says about its loans. */
module BranchExposureLaws {
  import opened Options
  import opened Integers
  import opened OrderedMaps
  import opened StableSort
  import opened Permutations
  import opened DateGroups
  import opened BranchModel
  import opened BranchOverdue
  import opened BranchReasons
  import opened BranchExposure

  function OverdueIn(loan: Loan, paid: map<string, int>, today: int): int {
    OverdueOf(loan, PaidFigure(loan, paid), today)
  }

  /** The largest number of overdue days over all the loans of the branch. */
  function MaxOverdue(loans: seq<Loan>, branchId: string, paid: map<string, int>, today: int): int {
    if loans == [] then 0
    else
      var rest := MaxOverdue(loans[1..], branchId, paid, today);
      if loans[0].branchId == branchId then Max(rest, OverdueIn(loans[0], paid, today)) else rest
  }

  lemma {:induction false} MaxOverdueIsMax(loans: seq<Loan>, branchId: string, paid: map<string, int>, today: int)
    ensures var m := MaxOverdue(loans, branchId, paid, today);
      && (forall l :: l in loans && l.branchId == branchId ==> OverdueIn(l, paid, today) <= m)
      && (m == 0 || exists l :: l in loans && l.branchId == branchId && OverdueIn(l, paid, today) == m)
      && m >= 0
  {
    if loans == [] {
    } else {
      MaxOverdueIsMax(loans[1..], branchId, paid, today);
      assert loans == [loans[0]] + loans[1..];
      assert loans[0] in loans;
    }
  }

  // ---- the borrowers of a summary ----

  lemma BorrowersAreKept(b: Borrowers, e: Exposure)
    requires ValidMap(b)
    ensures e in Summarize(b).borrowers <==> exists c :: c in b.entries && b.entries[c] == e
  {
    SortMember(ValuesOf(b), OverdueRank, e);
    if e in ValuesOf(b) {
      var i :| 0 <= i < |b.order| && ValuesOf(b)[i] == e;
      assert b.order[i] in b.order;
    }
    if c :| c in b.entries && b.entries[c] == e {
      var i :| 0 <= i < |b.order| && b.order[i] == c;
      assert ValuesOf(b)[i] == e;
    }
  }

  lemma BorrowerComesFromLoan(loans: seq<Loan>, branchId: string, paid: map<string, int>, today: int, e: Exposure)
      returns (i: nat)
    requires e in ExposureOf(loans, branchId, paid, today).borrowers
    ensures FirstWorst(loans, i, branchId, e.customerId, paid, today) && Flag(loans[i], paid, today) == Some(e)
  {
    KeptValid(loans, branchId, paid, today);
    var kept := Kept(loans, branchId, paid, today);
    BorrowersAreKept(kept, e);
    var c :| c in kept.entries && kept.entries[c] == e;
    KeptIsFirstWorst(loans, branchId, paid, today, c);
    i :| FirstWorst(loans, i, branchId, c, paid, today) && Flag(loans[i], paid, today) == Some(kept.entries[c]);
    FlaggedExactlyWhenBehind(loans[i], PaidFigure(loans[i], paid), today);
  }

  lemma FirstWorstUnique(loans: seq<Loan>, i: nat, j: nat, branchId: string, c: string, paid: map<string, int>,
      today: int)
    requires FirstWorst(loans, i, branchId, c, paid, today) && FirstWorst(loans, j, branchId, c, paid, today)
    ensures i == j
  {}

  lemma FirstWorstIsBorrower(loans: seq<Loan>, i: nat, branchId: string, c: string, paid: map<string, int>, today: int)
    requires FirstWorst(loans, i, branchId, c, paid, today)
    ensures Flag(loans[i], paid, today).value in ExposureOf(loans, branchId, paid, today).borrowers
  {
    KeptValid(loans, branchId, paid, today);
    var kept := Kept(loans, branchId, paid, today);
    KeptIsFirstWorst(loans, branchId, paid, today, c);
    assert FlaggedFor(loans, i, branchId, c, paid, today);
    var k: nat :| FirstWorst(loans, k, branchId, c, paid, today)
      && Flag(loans[k], paid, today) == Some(kept.entries[c]);
    FirstWorstUnique(loans, i, k, branchId, c, paid, today);
    BorrowersAreKept(kept, kept.entries[c]);
  }

  // ---- the counts add up ----

  predicate FlagStatus(level: Level) {
    level == FollowUp || level == HighRisk || level == Critical
  }

  lemma {:induction false} CountsPartition(borrowers: seq<Exposure>)
    requires forall e :: e in borrowers ==> FlagStatus(e.status)
    ensures Total(borrowers, StatusOne(FollowUp)) + Total(borrowers, StatusOne(HighRisk))
      + Total(borrowers, StatusOne(Critical)) == |borrowers|
  {
    if borrowers == [] {
    } else {
      assert borrowers[0] in borrowers;
      CountsPartition(borrowers[1..]);
    }
  }

  /** Every flagged customer is counted under exactly one of the three statuses. */
  lemma CountsAddUp(loans: seq<Loan>, branchId: string, paid: map<string, int>, today: int)
    ensures var e := ExposureOf(loans, branchId, paid, today);
      e.followUpCount + e.highRiskCount + e.criticalCount == e.totalFlagged == |e.borrowers|
  {
    var borrowers := ExposureOf(loans, branchId, paid, today).borrowers;
    forall e | e in borrowers ensures FlagStatus(e.status) {
      var i := BorrowerComesFromLoan(loans, branchId, paid, today, e);
      FlaggedExactlyWhenBehind(loans[i], PaidFigure(loans[i], paid), today);
    }
    CountsPartition(borrowers);
  }

  // ---- the level ----

  lemma LevelCoversLoan(loans: seq<Loan>, branchId: string, paid: map<string, int>, today: int, l: Loan)
    requires l in loans && l.branchId == branchId
    ensures Severity(OverdueStatus(OverdueIn(l, paid, today)))
      <= Severity(ExposureOf(loans, branchId, paid, today).level)
  {
    FlaggedExactlyWhenBehind(l, PaidFigure(l, paid), today);
    if Flag(l, paid, today).Some? {
      var level := CustomerHasWorst(loans, branchId, paid, today, l);
      LevelCoversCustomer(loans, branchId, paid, today, l.customerId, level);
    }
  }

  lemma LevelCoversCustomer(loans: seq<Loan>, branchId: string, paid: map<string, int>, today: int, c: string,
      level: Level)
    requires FlagStatus(level) && c in CustomersAt(loans, branchId, paid, today, level)
    ensures Severity(level) <= Severity(ExposureOf(loans, branchId, paid, today).level)
  {
    CountsCountCustomers(loans, branchId, paid, today);
    SummaryLevel(loans, branchId, paid, today);
    assert CustomersAt(loans, branchId, paid, today, level) != {};
    var e := ExposureOf(loans, branchId, paid, today);
    LevelCoversCounts(e.followUpCount, e.highRiskCount, e.criticalCount, level);
  }

  lemma SummaryLevel(loans: seq<Loan>, branchId: string, paid: map<string, int>, today: int)
    ensures var e := ExposureOf(loans, branchId, paid, today);
      && e.level == ExposureLevel(e.followUpCount, e.highRiskCount, e.criticalCount)
      && e.reason == OverdueReason(e.followUpCount, e.highRiskCount, e.criticalCount, Max(0, e.maxOverdueDays))
  {}

  lemma LevelCoversCounts(followUp: nat, highRisk: nat, critical: nat, level: Level)
    requires FlagStatus(level)
    requires match level
      case FollowUp => followUp > 0
      case HighRisk => highRisk > 0
      case _ => critical > 0
    ensures Severity(level) <= Severity(ExposureLevel(followUp, highRisk, critical))
  {}

  lemma CustomerHasWorst(loans: seq<Loan>, branchId: string, paid: map<string, int>, today: int, l: Loan)
      returns (level: Level)
    requires l in loans && l.branchId == branchId && Flag(l, paid, today).Some?
    ensures FlagStatus(level) && Severity(Flag(l, paid, today).value.status) <= Severity(level)
    ensures l.customerId in CustomersAt(loans, branchId, paid, today, level)
  {
    var j :| 0 <= j < |loans| && loans[j] == l;
    assert FlaggedFor(loans, j, branchId, l.customerId, paid, today);
    KeptIsFirstWorst(loans, branchId, paid, today, l.customerId);
    var i: nat :| FirstWorst(loans, i, branchId, l.customerId, paid, today);
    FirstWorstIsWorst(loans, i, branchId, l.customerId, paid, today);
    FlaggedExactlyWhenBehind(loans[i], PaidFigure(loans[i], paid), today);
    level := Flag(loans[i], paid, today).value.status;
    assert loans[i].customerId == l.customerId;
  }

  lemma LevelComesFromLoan(loans: seq<Loan>, branchId: string, paid: map<string, int>, today: int)
    ensures var level := ExposureOf(loans, branchId, paid, today).level;
      level != Healthy ==>
        exists l :: l in loans && l.branchId == branchId && OverdueStatus(OverdueIn(l, paid, today)) == level
  {
    var level := ExposureOf(loans, branchId, paid, today).level;
    CountsCountCustomers(loans, branchId, paid, today);
    if level != Healthy {
      assert CustomersAt(loans, branchId, paid, today, level) != {};
      var c :| c in CustomersAt(loans, branchId, paid, today, level);
      var l :| l in loans && WorstFor(loans, branchId, paid, today, l, level) && l.customerId == c;
      FlaggedExactlyWhenBehind(l, PaidFigure(l, paid), today);
    }
  }

  lemma LevelAtLeast(loans: seq<Loan>, branchId: string, paid: map<string, int>, today: int)
    ensures Severity(OverdueStatus(MaxOverdue(loans, branchId, paid, today)))
      <= Severity(ExposureOf(loans, branchId, paid, today).level)
  {
    var most := MaxOverdue(loans, branchId, paid, today);
    MaxOverdueIsMax(loans, branchId, paid, today);
    if most != 0 {
      var l :| l in loans && l.branchId == branchId && OverdueIn(l, paid, today) == most;
      LevelCoversLoan(loans, branchId, paid, today, l);
    }
  }

  lemma LevelAtMost(loans: seq<Loan>, branchId: string, paid: map<string, int>, today: int)
    ensures Severity(ExposureOf(loans, branchId, paid, today).level)
      <= Severity(OverdueStatus(MaxOverdue(loans, branchId, paid, today)))
  {
    var level := ExposureOf(loans, branchId, paid, today).level;
    MaxOverdueIsMax(loans, branchId, paid, today);
    LevelComesFromLoan(loans, branchId, paid, today);
    if level != Healthy {
      var l :| l in loans && l.branchId == branchId && OverdueStatus(OverdueIn(l, paid, today)) == level;
      StatusMonotone(OverdueIn(l, paid, today), MaxOverdue(loans, branchId, paid, today));
    }
  }

  /** The level of a branch is the status of its most overdue loan, whichever
      loans the nested maps have kept. */
  lemma LevelIsStatusOfWorstLoan(loans: seq<Loan>, branchId: string, paid: map<string, int>, today: int)
    ensures ExposureOf(loans, branchId, paid, today).level == OverdueStatus(MaxOverdue(loans, branchId, paid, today))
  {
    LevelAtLeast(loans, branchId, paid, today);
    LevelAtMost(loans, branchId, paid, today);
    var level, most := ExposureOf(loans, branchId, paid, today).level, MaxOverdue(loans, branchId, paid, today);
    WorstIsJoin(level, OverdueStatus(most), Healthy);
  }

  // ---- the highest exposure ----

  lemma HighestIsOfKept(loans: seq<Loan>, branchId: string, paid: map<string, int>, today: int)
    ensures var e := ExposureOf(loans, branchId, paid, today);
      && (forall x :: x in e.borrowers ==> x.overdueDays <= e.maxOverdueDays)
      && (e.borrowers != [] ==> e.borrowers[0] in e.borrowers && e.maxOverdueDays == e.borrowers[0].overdueDays)
      && (e.borrowers == [] ==> e.maxOverdueDays == 0)
  {
    var kept := Kept(loans, branchId, paid, today);
    KeptValid(loans, branchId, paid, today);
    SortSorted(ValuesOf(kept), OverdueRank);
    var borrowers := ExposureOf(loans, branchId, paid, today).borrowers;
    forall x | x in borrowers ensures x.overdueDays <= borrowers[0].overdueDays {
      var i :| 0 <= i < |borrowers| && borrowers[i] == x;
      assert i == 0 || !Less(OverdueRank(borrowers[i]), OverdueRank(borrowers[0]));
    }
  }

  /** The highest exposure shown is never above the true one. */
  lemma HighestNotAboveTrue(loans: seq<Loan>, branchId: string, paid: map<string, int>, today: int)
    ensures ExposureOf(loans, branchId, paid, today).maxOverdueDays <= MaxOverdue(loans, branchId, paid, today)
  {
    HighestIsOfKept(loans, branchId, paid, today);
    MaxOverdueIsMax(loans, branchId, paid, today);
    var borrowers := ExposureOf(loans, branchId, paid, today).borrowers;
    if borrowers != [] {
      var i := BorrowerComesFromLoan(loans, branchId, paid, today, borrowers[0]);
      FlaggedExactlyWhenBehind(loans[i], PaidFigure(loans[i], paid), today);
      assert loans[i] in loans;
    }
  }

  /** Loan `i` is at least two days behind, and no earlier loan of its customer
      at the branch has the same status. */
  predicate FirstOfItsStatus(loans: seq<Loan>, i: nat, branchId: string, paid: map<string, int>, today: int) {
    && i < |loans| && FlaggedFor(loans, i, branchId, loans[i].customerId, paid, today)
    && forall j: nat :: j < i && FlaggedFor(loans, j, branchId, loans[i].customerId, paid, today) ==>
         SeverityAt(loans, j, paid, today) != SeverityAt(loans, i, paid, today)
  }

  /** The "highest exposure" that is shown is the true maximum exactly when a
      most overdue loan is the first of its customer's with that status. */
  lemma HighestIsTrueIff(loans: seq<Loan>, branchId: string, paid: map<string, int>, today: int)
    ensures ExposureOf(loans, branchId, paid, today).maxOverdueDays == MaxOverdue(loans, branchId, paid, today) <==>
      (MaxOverdue(loans, branchId, paid, today) == 0
       || exists i: nat :: FirstOfItsStatus(loans, i, branchId, paid, today)
            && OverdueIn(loans[i], paid, today) == MaxOverdue(loans, branchId, paid, today))
  {
    var e, m := ExposureOf(loans, branchId, paid, today), MaxOverdue(loans, branchId, paid, today);
    HighestIsOfKept(loans, branchId, paid, today);
    HighestNotAboveTrue(loans, branchId, paid, today);
    if e.borrowers != [] {
      var i := HighestComesFromLoan(loans, branchId, paid, today);
    }
    if i: nat :| FirstOfItsStatus(loans, i, branchId, paid, today) && OverdueIn(loans[i], paid, today) == m {
      HighestCoversFirst(loans, i, branchId, paid, today);
    }
  }

  lemma HighestComesFromLoan(loans: seq<Loan>, branchId: string, paid: map<string, int>, today: int) returns (i: nat)
    requires ExposureOf(loans, branchId, paid, today).borrowers != []
    ensures FirstOfItsStatus(loans, i, branchId, paid, today)
    ensures OverdueIn(loans[i], paid, today) == ExposureOf(loans, branchId, paid, today).maxOverdueDays >= 2
  {
    HighestIsOfKept(loans, branchId, paid, today);
    i := BorrowerComesFromLoan(loans, branchId, paid, today, ExposureOf(loans, branchId, paid, today).borrowers[0]);
    FlaggedExactlyWhenBehind(loans[i], PaidFigure(loans[i], paid), today);
  }

  lemma HighestCoversFirst(loans: seq<Loan>, i: nat, branchId: string, paid: map<string, int>, today: int)
    requires FirstOfItsStatus(loans, i, branchId, paid, today)
    requires OverdueIn(loans[i], paid, today) == MaxOverdue(loans, branchId, paid, today)
    ensures MaxOverdue(loans, branchId, paid, today) <= ExposureOf(loans, branchId, paid, today).maxOverdueDays
  {
    MostOverdueIsFirstWorst(loans, i, branchId, paid, today);
    FirstWorstIsBorrower(loans, i, branchId, loans[i].customerId, paid, today);
    HighestIsOfKept(loans, branchId, paid, today);
    FlaggedExactlyWhenBehind(loans[i], PaidFigure(loans[i], paid), today);
  }

  lemma MostOverdueIsFirstWorst(loans: seq<Loan>, i: nat, branchId: string, paid: map<string, int>, today: int)
    requires FirstOfItsStatus(loans, i, branchId, paid, today)
    requires OverdueIn(loans[i], paid, today) == MaxOverdue(loans, branchId, paid, today)
    ensures FirstWorst(loans, i, branchId, loans[i].customerId, paid, today)
  {
    var c := loans[i].customerId;
    MaxOverdueIsMax(loans, branchId, paid, today);
    FlaggedExactlyWhenBehind(loans[i], PaidFigure(loans[i], paid), today);
    forall j: nat | FlaggedFor(loans, j, branchId, c, paid, today)
      ensures SeverityAt(loans, j, paid, today) <= SeverityAt(loans, i, paid, today)
    {
      assert loans[j] in loans;
      FlaggedExactlyWhenBehind(loans[j], PaidFigure(loans[j], paid), today);
      StatusMonotone(OverdueIn(loans[j], paid, today), OverdueIn(loans[i], paid, today));
    }
  }

  function CurrentLoan(id: string, firstDay: int): Loan {
    Loan(id, "customer", "branch", "CURRENT", 1, 0, 1, At(firstDay * DAY_MS), Absent, Absent, Absent, Absent, None)
  }

  lemma CurrentLoanOverdue(id: string, firstDay: int)
    requires 0 <= firstDay <= 30
    ensures OverdueIn(CurrentLoan(id, firstDay), map[], 30 * DAY_MS) == 31 - firstDay
  {
    var loan := CurrentLoan(id, firstDay);
    assert ToUpper("CURRENT") == "CURRENT";
    DaysBetweenIsDifference(firstDay * DAY_MS, EndOfDay(30 * DAY_MS));
    assert ExpectedDays(loan, firstDay * DAY_MS, 30 * DAY_MS) == 31 - firstDay;
  }

  lemma TwoCriticalLoans(loans: seq<Loan>, today: int)
    requires loans == [CurrentLoan("a", 22), CurrentLoan("b", 11)]
    requires OverdueIn(loans[0], map[], today) == 9 && OverdueIn(loans[1], map[], today) == 20
    ensures MaxOverdue(loans, "branch", map[], today) == 20
    ensures FlaggedFor(loans, 0, "branch", "customer", map[], today)
    ensures SeverityAt(loans, 0, map[], today) == SeverityAt(loans, 1, map[], today)
  {
    assert loans[1..] == [loans[1]] && [loans[1]][1..] == [];
    assert MaxOverdue([loans[1]], "branch", map[], today) == 20;
    FlaggedExactlyWhenBehind(loans[0], 0, today);
    FlaggedExactlyWhenBehind(loans[1], 0, today);
  }

  /** It can be too low: of two critical loans of one customer the first is kept. */
  lemma HighestCanBeTooLow()
    ensures var loans := [CurrentLoan("a", 22), CurrentLoan("b", 11)];
      ExposureOf(loans, "branch", map[], 30 * DAY_MS).maxOverdueDays
        < MaxOverdue(loans, "branch", map[], 30 * DAY_MS) == 20
  {
    var loans := [CurrentLoan("a", 22), CurrentLoan("b", 11)];
    var today := 30 * DAY_MS;
    CurrentLoanOverdue("a", 22);
    CurrentLoanOverdue("b", 11);
    TwoCriticalLoans(loans, today);
    HighestNotAboveTrue(loans, "branch", map[], today);
    HighestIsTrueIff(loans, "branch", map[], today);
  }

  // ---- one more repayment ----

  /** The repayment is the first that is counted for the loan, and is less than
      the amount that the loan carries. */
  predicate ReplacesLargerAmount(loan: Loan, repayments: seq<Repayment>, r: Repayment, today: int) {
    Counts(r, today) && r.loanId == loan.id && loan.id !in PaidByLoan(repayments, today) && r.amount < loan.paidAmount
  }

  lemma AddedPayment(repayments: seq<Repayment>, r: Repayment, today: int)
    ensures PaidByLoan(repayments + [r], today) == AddPayment(PaidByLoan(repayments, today), r, today)
  {
    assert (repayments + [r])[..|repayments|] == repayments;
  }

  /** A further repayment lowers the paid figure of a loan exactly when it
      replaces a larger amount: recorded repayments, once there are any, count
      instead of the amount that the loan carries. */
  lemma PaidFigureFallsIff(loan: Loan, repayments: seq<Repayment>, r: Repayment, today: int)
    ensures PaidFigure(loan, PaidByLoan(repayments + [r], today)) < PaidFigure(loan, PaidByLoan(repayments, today))
      <==> ReplacesLargerAmount(loan, repayments, r, today)
  {
    AddedPayment(repayments, r, today);
  }

  /** The loan can be overdue at all: it is open and has installments and a start. */
  predicate Due(loan: Loan) {
    ExpectsRepayment(loan) && loan.installmentAmount > 0 && PaymentStart(loan).Some?
  }

  /** Paying makes a loan more overdue exactly when the repayment replaces a
      larger amount and covers fewer of the expected installments than that did. */
  lemma OverdueRisesIff(loan: Loan, repayments: seq<Repayment>, r: Repayment, today: int)
    ensures OverdueIn(loan, PaidByLoan(repayments + [r], today), today)
      > OverdueIn(loan, PaidByLoan(repayments, today), today)
      <==> (Due(loan) && ReplacesLargerAmount(loan, repayments, r, today)
            && r.amount / loan.installmentAmount
                 < Min(ExpectedDays(loan, PaymentStart(loan).value, today), loan.paidAmount / loan.installmentAmount))
  {
    AddedPayment(repayments, r, today);
    PaidFigureFallsIff(loan, repayments, r, today);
    if Due(loan) && !ReplacesLargerAmount(loan, repayments, r, today) {
      OverdueMonotone(loan, PaidFigure(loan, PaidByLoan(repayments, today)),
        PaidFigure(loan, PaidByLoan(repayments + [r], today)), today, today);
    }
  }

  lemma TenDaysExpected(loan: Loan)
    requires loan == CurrentLoan("a", 21).(paidAmount := 10)
    ensures Due(loan) && PaymentStart(loan) == Some(21 * DAY_MS) && ExpectedDays(loan, 21 * DAY_MS, 30 * DAY_MS) == 10
  {
    assert ToUpper("CURRENT") == "CURRENT";
    ExpectedDaysAreCalendarDays(loan, 21 * DAY_MS, 30 * DAY_MS);
  }

  /** A loan with ten installments paid and ten expected is not overdue; after
      one recorded repayment of one installment it is nine days overdue. */
  lemma FirstRepaymentCanRaiseOverdue()
    ensures var loan, today := CurrentLoan("a", 21).(paidAmount := 10), 30 * DAY_MS;
      var first := [Repayment("a", 1, At(today))];
      OverdueIn(loan, PaidByLoan([], today), today) == 0 && OverdueIn(loan, PaidByLoan(first, today), today) == 9
  {
    var loan, today := CurrentLoan("a", 21).(paidAmount := 10), 30 * DAY_MS;
    var r := Repayment("a", 1, At(today));
    TenDaysExpected(loan);
    assert PaidByLoan([], today) == map[];
    assert [r] == [] + [r];
    AddedPayment([], r, today);
    assert PaidByLoan([r], today) == map["a" := 1];
  }

  // ---- what a listed borrower is told ----

  /** Every listed borrower stands for a loan of the branch with its figures: the
      payments are those of the loan, and the overdue days are what is missing
      to the expected amount. */
  lemma BorrowersFit(loans: seq<Loan>, branchId: string, paid: map<string, int>, today: int, e: Exposure)
    requires e in ExposureOf(loans, branchId, paid, today).borrowers
    ensures exists l :: (&& l in loans && l.branchId == branchId == e.branchId
                         && l.id == e.loanId && l.customerId == e.customerId
                         && e.installmentAmount == l.installmentAmount > 0
                         && e.paidAmount == if l.id in paid then paid[l.id] else l.paidAmount)
    ensures e.installmentAmount > 0
      && e.overdueDays == Max(0, CeilDiv(e.expectedAmount - Max(0, e.paidAmount), e.installmentAmount)) >= 2
    ensures e.status == OverdueStatus(e.overdueDays)
  {
    var i := BorrowerComesFromLoan(loans, branchId, paid, today, e);
    ExposureFits(loans[i], PaidFigure(loans[i], paid), today);
    FlaggedExactlyWhenBehind(loans[i], PaidFigure(loans[i], paid), today);
    assert loans[i] in loans;
  }

  /** The borrowers listed are exactly the customers with a flagged loan, each once
      and with the first of their worst loans, the most overdue ones first. */
  lemma BorrowersListed(loans: seq<Loan>, branchId: string, paid: map<string, int>, today: int)
    ensures var borrowers := ExposureOf(loans, branchId, paid, today).borrowers;
      && (forall i, j :: 0 <= i < j < |borrowers| ==> borrowers[i].overdueDays >= borrowers[j].overdueDays)
      && (forall i: nat, c :: FirstWorst(loans, i, branchId, c, paid, today) ==>
            Flag(loans[i], paid, today).value in borrowers)
      && (forall e :: e in borrowers ==>
            exists i: nat :: (FirstWorst(loans, i, branchId, e.customerId, paid, today)
                              && Flag(loans[i], paid, today) == Some(e)))
      && |borrowers| == |Kept(loans, branchId, paid, today).entries|
  {
    var kept := Kept(loans, branchId, paid, today);
    var borrowers := ExposureOf(loans, branchId, paid, today).borrowers;
    KeptValid(loans, branchId, paid, today);
    MapSize(kept);
    SortSorted(ValuesOf(kept), OverdueRank);
    SortContents(ValuesOf(kept), OverdueRank);
    forall i, j | 0 <= i < j < |borrowers| ensures borrowers[i].overdueDays >= borrowers[j].overdueDays {
      assert !Less(OverdueRank(borrowers[j]), OverdueRank(borrowers[i]));
    }
    forall i: nat, c | FirstWorst(loans, i, branchId, c, paid, today)
      ensures Flag(loans[i], paid, today).value in borrowers
    {
      FirstWorstIsBorrower(loans, i, branchId, c, paid, today);
    }
    forall e | e in borrowers
      ensures exists i: nat :: (FirstWorst(loans, i, branchId, e.customerId, paid, today)
                                && Flag(loans[i], paid, today) == Some(e))
    {
      var i := BorrowerComesFromLoan(loans, branchId, paid, today, e);
    }
  }
}
