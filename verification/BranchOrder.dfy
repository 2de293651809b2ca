/** What the order of the lists may change in a report, and what not. */
module BranchOrder {
  import opened StableSort
  import opened Permutations
  import opened DateGroups
  import opened BranchModel
  import opened BranchOverdue
  import opened BranchExposure
  import opened BranchExposureLaws
  import opened BranchCollection
  import opened BranchReport

  /** The order of the repayments has no influence on the report at all. */
  lemma RepaymentOrderIrrelevant(branchId: string, loans: seq<Loan>, a: seq<Repayment>, b: seq<Repayment>,
      statuses: seq<DailyStatus>, days: nat, today: int)
    requires multiset(a) == multiset(b)
    ensures Performance(branchId, loans, a, statuses, days, today)
      == Performance(branchId, loans, b, statuses, days, today)
  {
    PaidByLoanPermuted(a, b, today);
    CollectedPermuted(LoanById(loans), a, b);
  }

  lemma {:induction false} RatesPermuted(a: seq<Loan>, b: seq<Loan>, branchId: string, collected: CollectedMap,
      dates: seq<int>)
    requires multiset(a) == multiset(b)
    ensures RatesOn(a, branchId, collected, dates) == RatesOn(b, branchId, collected, dates)
  {
    if dates == [] {
    } else {
      RatesPermuted(a, b, branchId, collected, dates[..|dates| - 1]);
      TotalPermuted(a, b, ExpectedOne(branchId, dates[|dates| - 1]));
    }
  }

  lemma ExposurePermuted(a: seq<Loan>, b: seq<Loan>, branchId: string, paid: map<string, int>, today: int)
    requires multiset(a) == multiset(b)
    ensures var x, y := ExposureOf(a, branchId, paid, today), ExposureOf(b, branchId, paid, today);
      && x.followUpCount == y.followUpCount && x.highRiskCount == y.highRiskCount && x.criticalCount == y.criticalCount
      && x.totalFlagged == y.totalFlagged && x.level == y.level
  {
    CountsCountCustomers(a, branchId, paid, today);
    CountsCountCustomers(b, branchId, paid, today);
    CustomersPermuted(a, b, branchId, paid, today, FollowUp);
    CustomersPermuted(a, b, branchId, paid, today, HighRisk);
    CustomersPermuted(a, b, branchId, paid, today, Critical);
    CountsAddUp(a, branchId, paid, today);
    CountsAddUp(b, branchId, paid, today);
  }

  lemma CustomersPermuted(a: seq<Loan>, b: seq<Loan>, branchId: string, paid: map<string, int>, today: int,
      level: Level)
    requires multiset(a) == multiset(b)
    ensures CustomersAt(a, branchId, paid, today, level) == CustomersAt(b, branchId, paid, today, level)
  {
    forall l ensures l in a <==> l in b {
      SameMembers(a, b, l);
    }
    forall l ensures WorstFor(a, branchId, paid, today, l, level) == WorstFor(b, branchId, paid, today, l, level) {}
  }

  /** The order of the loans has no influence on any rate, count or level, unless
      loans of different branches share an id. */
  lemma LoanOrderIrrelevant(branchId: string, a: seq<Loan>, b: seq<Loan>, repayments: seq<Repayment>,
      statuses: seq<DailyStatus>, days: nat, today: int)
    requires BranchesAgree(a) && multiset(a) == multiset(b)
    ensures var p := Performance(branchId, a, repayments, statuses, days, today);
      var q := Performance(branchId, b, repayments, statuses, days, today);
      && p.dailyRates == q.dailyRates && p.averageRate == q.averageRate
      && p.collectionLevel == q.collectionLevel && p.collectionReason == q.collectionReason
      && p.overdueExposure.followUpCount == q.overdueExposure.followUpCount
      && p.overdueExposure.highRiskCount == q.overdueExposure.highRiskCount
      && p.overdueExposure.criticalCount == q.overdueExposure.criticalCount
      && p.overdueExposure.totalFlagged == q.overdueExposure.totalFlagged
      && p.overdueExposure.level == q.overdueExposure.level
      && p.dailyCompliance == q.dailyCompliance && p.level == q.level
  {
    CollectedLoansPermuted(a, b, repayments);
    RatesPermuted(a, b, branchId, Collected(LoanById(a), repayments), LastDates(days, today));
    ExposurePermuted(a, b, branchId, PaidByLoan(repayments, today), today);
  }

  // ---- the highest exposure ----

  lemma MaxOverduePermuted(a: seq<Loan>, b: seq<Loan>, branchId: string, paid: map<string, int>, today: int)
    requires multiset(a) == multiset(b)
    ensures MaxOverdue(a, branchId, paid, today) == MaxOverdue(b, branchId, paid, today)
  {
    MaxOverdueIsMax(a, branchId, paid, today);
    MaxOverdueIsMax(b, branchId, paid, today);
    forall l ensures l in a <==> l in b {
      SameMembers(a, b, l);
    }
  }

  /** Two loans of a customer at a branch with the same status. */
  predicate AsSevere(k: Loan, l: Loan, paid: map<string, int>, today: int) {
    && k.branchId == l.branchId && k.customerId == l.customerId
    && OverdueStatus(OverdueIn(k, paid, today)) == OverdueStatus(OverdueIn(l, paid, today))
  }

  /** Loan `l` is a most overdue one of the branch, and so is every loan of its
      customer there that is as severe. */
  ghost predicate Leads(loans: seq<Loan>, l: Loan, branchId: string, paid: map<string, int>, today: int) {
    var most := MaxOverdue(loans, branchId, paid, today);
    && l in loans && l.branchId == branchId && OverdueIn(l, paid, today) == most
    && forall k :: k in loans && AsSevere(k, l, paid, today) ==> OverdueIn(k, paid, today) == most
  }

  /** Nobody is flagged, or some customer's most severe loans are all most overdue. */
  ghost predicate Steady(loans: seq<Loan>, branchId: string, paid: map<string, int>, today: int) {
    MaxOverdue(loans, branchId, paid, today) < 2 || exists l :: Leads(loans, l, branchId, paid, today)
  }

  lemma SteadyPermuted(a: seq<Loan>, b: seq<Loan>, branchId: string, paid: map<string, int>, today: int)
    requires multiset(a) == multiset(b) && Steady(a, branchId, paid, today)
    ensures Steady(b, branchId, paid, today)
  {
    MaxOverduePermuted(a, b, branchId, paid, today);
    forall l ensures l in a <==> l in b {
      SameMembers(a, b, l);
    }
    if l :| Leads(a, l, branchId, paid, today) {
      assert Leads(b, l, branchId, paid, today);
    }
  }

  function Highest(loans: seq<Loan>, branchId: string, paid: map<string, int>, today: int): int {
    ExposureOf(loans, branchId, paid, today).maxOverdueDays
  }

  lemma UnflaggedHighest(loans: seq<Loan>, branchId: string, paid: map<string, int>, today: int)
    requires MaxOverdue(loans, branchId, paid, today) < 2
    ensures Highest(loans, branchId, paid, today) == 0
  {
    HighestNotAboveTrue(loans, branchId, paid, today);
    HighestIsOfKept(loans, branchId, paid, today);
    if ExposureOf(loans, branchId, paid, today).borrowers != [] {
      var i := HighestComesFromLoan(loans, branchId, paid, today);
    }
  }

  /** A first worst loan of a customer with a most overdue loan is as severe. */
  lemma FirstOfLeader(loans: seq<Loan>, l: Loan, branchId: string, paid: map<string, int>, today: int) returns (i: nat)
    requires l in loans && l.branchId == branchId
    requires OverdueIn(l, paid, today) == MaxOverdue(loans, branchId, paid, today) >= 2
    ensures FirstWorst(loans, i, branchId, l.customerId, paid, today)
    ensures FirstOfItsStatus(loans, i, branchId, paid, today)
    ensures OverdueStatus(OverdueIn(loans[i], paid, today)) == OverdueStatus(MaxOverdue(loans, branchId, paid, today))
    ensures OverdueIn(loans[i], paid, today) <= MaxOverdue(loans, branchId, paid, today)
  {
    var j :| 0 <= j < |loans| && loans[j] == l;
    FlaggedExactlyWhenBehind(l, PaidFigure(l, paid), today);
    assert FlaggedFor(loans, j, branchId, l.customerId, paid, today);
    KeptIsFirstWorst(loans, branchId, paid, today, l.customerId);
    i :| FirstWorst(loans, i, branchId, l.customerId, paid, today);
    assert FlaggedFor(loans, i, branchId, l.customerId, paid, today);
    MaxOverdueIsMax(loans, branchId, paid, today);
    assert loans[i] in loans;
    FlaggedExactlyWhenBehind(loans[i], PaidFigure(loans[i], paid), today);
    StatusMonotone(OverdueIn(loans[i], paid, today), OverdueIn(l, paid, today));
    WorstIsJoin(OverdueStatus(OverdueIn(loans[i], paid, today)), OverdueStatus(OverdueIn(l, paid, today)), Healthy);
    assert SeverityAt(loans, j, paid, today) <= SeverityAt(loans, i, paid, today);
  }

  lemma SteadyHighest(loans: seq<Loan>, branchId: string, paid: map<string, int>, today: int)
    requires Steady(loans, branchId, paid, today)
    ensures var most := MaxOverdue(loans, branchId, paid, today);
      Highest(loans, branchId, paid, today) == if most < 2 then 0 else most
  {
    if MaxOverdue(loans, branchId, paid, today) < 2 {
      UnflaggedHighest(loans, branchId, paid, today);
    } else {
      var l :| Leads(loans, l, branchId, paid, today);
      var i := FirstOfLeader(loans, l, branchId, paid, today);
      assert loans[i] in loans;
      HighestIsTrueIff(loans, branchId, paid, today);
    }
  }

  function ByOverdueDays(paid: map<string, int>, today: int, ascending: bool): Loan -> Rank {
    (l: Loan) => Rank(0, if ascending then OverdueIn(l, paid, today) else -OverdueIn(l, paid, today))
  }

  /** With the most overdue loans first, the highest exposure shown is the true one. */
  lemma DescendingShowsMost(loans: seq<Loan>, branchId: string, paid: map<string, int>, today: int)
    requires Sorted(loans, ByOverdueDays(paid, today, false)) && MaxOverdue(loans, branchId, paid, today) >= 2
    ensures Highest(loans, branchId, paid, today) == MaxOverdue(loans, branchId, paid, today)
  {
    var rank := ByOverdueDays(paid, today, false);
    MaxOverdueIsMax(loans, branchId, paid, today);
    var l :| l in loans && l.branchId == branchId
      && OverdueIn(l, paid, today) == MaxOverdue(loans, branchId, paid, today);
    var i := FirstOfLeader(loans, l, branchId, paid, today);
    var j :| 0 <= j < |loans| && loans[j] == l;
    FlaggedExactlyWhenBehind(l, PaidFigure(l, paid), today);
    FlaggedExactlyWhenBehind(loans[i], PaidFigure(loans[i], paid), today);
    assert FlaggedFor(loans, j, branchId, l.customerId, paid, today);
    assert SeverityAt(loans, j, paid, today) == SeverityAt(loans, i, paid, today);
    assert i <= j;
    assert i < j ==> !Less(rank(loans[j]), rank(loans[i]));
    HighestIsTrueIff(loans, branchId, paid, today);
  }

  /** With the least overdue loans first, it is only when the branch is steady. */
  lemma AscendingShowsLess(loans: seq<Loan>, branchId: string, paid: map<string, int>, today: int)
    requires Sorted(loans, ByOverdueDays(paid, today, true)) && !Steady(loans, branchId, paid, today)
    ensures Highest(loans, branchId, paid, today) != MaxOverdue(loans, branchId, paid, today)
  {
    var most := MaxOverdue(loans, branchId, paid, today);
    HighestIsTrueIff(loans, branchId, paid, today);
    forall i: nat | FirstOfItsStatus(loans, i, branchId, paid, today) ensures OverdueIn(loans[i], paid, today) != most {
      if OverdueIn(loans[i], paid, today) == most {
        LessSevereFirst(loans, i, branchId, paid, today);
      }
    }
  }

  lemma LessSevereFirst(loans: seq<Loan>, i: nat, branchId: string, paid: map<string, int>, today: int)
    requires Sorted(loans, ByOverdueDays(paid, today, true)) && FirstOfItsStatus(loans, i, branchId, paid, today)
    requires OverdueIn(loans[i], paid, today) == MaxOverdue(loans, branchId, paid, today)
    ensures Leads(loans, loans[i], branchId, paid, today)
  {
    var rank, most := ByOverdueDays(paid, today, true), MaxOverdue(loans, branchId, paid, today);
    MaxOverdueIsMax(loans, branchId, paid, today);
    FlaggedExactlyWhenBehind(loans[i], PaidFigure(loans[i], paid), today);
    forall k | k in loans && AsSevere(k, loans[i], paid, today) ensures OverdueIn(k, paid, today) == most {
      var j :| 0 <= j < |loans| && loans[j] == k;
      FlaggedExactlyWhenBehind(k, PaidFigure(k, paid), today);
      if j < i {
        assert FlaggedFor(loans, j, branchId, loans[i].customerId, paid, today);
      } else {
        assert i < j ==> !Less(rank(loans[j]), rank(loans[i]));
      }
    }
  }

  ghost predicate HighestOrderFree(loans: seq<Loan>, branchId: string, paid: map<string, int>, today: int) {
    forall b :: multiset(b) == multiset(loans) ==>
      Highest(b, branchId, paid, today) == Highest(loans, branchId, paid, today)
  }

  /** The highest exposure shown never depends on the order of the loans exactly
      when nobody is flagged, or the most severe loans of some customer are all
      most overdue ones. */
  lemma HighestOrderFreeIff(loans: seq<Loan>, branchId: string, paid: map<string, int>, today: int)
    ensures HighestOrderFree(loans, branchId, paid, today) <==> Steady(loans, branchId, paid, today)
  {
    if Steady(loans, branchId, paid, today) {
      SteadyHighest(loans, branchId, paid, today);
      forall b | multiset(b) == multiset(loans)
        ensures Highest(b, branchId, paid, today) == Highest(loans, branchId, paid, today)
      {
        MaxOverduePermuted(loans, b, branchId, paid, today);
        SteadyPermuted(loans, b, branchId, paid, today);
        SteadyHighest(b, branchId, paid, today);
      }
    } else {
      var up := SortedLoans(loans, branchId, paid, today, true);
      var down := SortedLoans(loans, branchId, paid, today, false);
      if Steady(up, branchId, paid, today) {
        SteadyPermuted(up, loans, branchId, paid, today);
      }
      AscendingShowsLess(up, branchId, paid, today);
      DescendingShowsMost(down, branchId, paid, today);
      assert Highest(up, branchId, paid, today) != Highest(down, branchId, paid, today);
    }
  }

  lemma SortedLoans(loans: seq<Loan>, branchId: string, paid: map<string, int>, today: int, ascending: bool)
      returns (sorted: seq<Loan>)
    ensures multiset(sorted) == multiset(loans) && Sorted(sorted, ByOverdueDays(paid, today, ascending))
    ensures MaxOverdue(sorted, branchId, paid, today) == MaxOverdue(loans, branchId, paid, today)
  {
    sorted := Sort(loans, ByOverdueDays(paid, today, ascending));
    SortContents(loans, ByOverdueDays(paid, today, ascending));
    SortSorted(loans, ByOverdueDays(paid, today, ascending));
    MaxOverduePermuted(sorted, loans, branchId, paid, today);
  }

  /** In a steady branch the order of the loans leaves the reasons alone, too. */
  lemma ReasonsOrderFree(branchId: string, a: seq<Loan>, b: seq<Loan>, repayments: seq<Repayment>,
      statuses: seq<DailyStatus>, days: nat, today: int)
    requires BranchesAgree(a) && multiset(a) == multiset(b) && Steady(a, branchId, PaidByLoan(repayments, today), today)
    ensures var p := Performance(branchId, a, repayments, statuses, days, today);
      var q := Performance(branchId, b, repayments, statuses, days, today);
      p.reasons == q.reasons && p.reason == q.reason
  {
    LoanOrderIrrelevant(branchId, a, b, repayments, statuses, days, today);
    HighestOrderFreeIff(a, branchId, PaidByLoan(repayments, today), today);
    assert Highest(b, branchId, PaidByLoan(repayments, today), today)
      == Highest(a, branchId, PaidByLoan(repayments, today), today);
  }

  lemma PairSorted(l: Loan, m: Loan, paid: map<string, int>, today: int)
    requires OverdueIn(l, paid, today) >= OverdueIn(m, paid, today)
    ensures Sorted([l, m], ByOverdueDays(paid, today, false))
  {}

  lemma RightOrderShowsMost(a: Loan, b: Loan, branchId: string, paid: map<string, int>, today: int)
    requires OverdueIn(b, paid, today) >= OverdueIn(a, paid, today)
    requires MaxOverdue([a, b], branchId, paid, today) >= 2
    ensures Highest([b, a], branchId, paid, today) == MaxOverdue([a, b], branchId, paid, today)
  {
    assert multiset([a, b]) == multiset([b, a]);
    MaxOverduePermuted([a, b], [b, a], branchId, paid, today);
    PairSorted(b, a, paid, today);
    DescendingShowsMost([b, a], branchId, paid, today);
  }

  /** Of the two critical loans of a customer that make the highest exposure too
      low, the other order makes it right. */
  lemma HighestDependsOnOrder()
    ensures var a, b, today := CurrentLoan("a", 22), CurrentLoan("b", 11), 30 * DAY_MS;
      Highest([a, b], "branch", map[], today) < Highest([b, a], "branch", map[], today) == 20
  {
    HighestCanBeTooLow();
    CurrentLoanOverdue("a", 22);
    CurrentLoanOverdue("b", 11);
    RightOrderShowsMost(CurrentLoan("a", 22), CurrentLoan("b", 11), "branch", map[], 30 * DAY_MS);
  }
}
